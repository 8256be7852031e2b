/** Safety of any number of interleaved minting runs, and what one undisturbed run leaves behind. */
module MintingGuarantees {
  import opened Common
  import opened DubLinks
  import opened Minting

  // ---------- any interleaving ----------

  datatype World = World(table: seq<Row>, runs: seq<Run>)

  /** Run `who` gets `input` for its pending statement or call. */
  datatype Event = Event(who: nat, input: Input)

  function Next(cfgs: seq<Config>, w: World, e: Event): World
    requires |cfgs| == |w.runs|
  {
    if e.who >= |w.runs| then w
    else
      var after := Step(cfgs[e.who], w.table, w.runs[e.who], e.input);
      World(after.0, w.runs[e.who := after.1])
  }

  function Play(cfgs: seq<Config>, w: World, events: seq<Event>): (w': World)
    requires |cfgs| == |w.runs|
    ensures |w'.runs| == |w.runs|
  {
    if events == [] then w else Next(cfgs, Play(cfgs, w, events[..|events| - 1]), events[|events| - 1])
  }

  ghost predicate Covered(table: seq<Row>, step: Uuid, m: Uuid, acc: seq<Row>) {
    HasRow(table, step, m) || exists k :: 0 <= k < |acc| && Slot(acc[k], step, m)
  }

  /** What a run may rely on while others write to the same table. */
  ghost predicate RunOk(cfg: Config, table: seq<Row>, r: Run) {
    match r
    case Minting(members, missing, next, acc) =>
      && next < |missing| && |acc| == next
      && (forall k :: 0 <= k < next ==> Slot(acc[k], cfg.step, missing[k]))
      && (forall m :: m in members ==> m in missing || HasRow(table, cfg.step, m))
    case Persisting(members, acc, blocked) =>
      !blocked ==> forall m :: m in members ==> Covered(table, cfg.step, m, acc)
    case Relisting(members, blocked) => !blocked ==> forall m :: m in members ==> HasRow(table, cfg.step, m)
    case Returned(members, records, blocked) =>
      && (forall x :: x in records ==>
            x in table && x.step == Some(cfg.step) && x.recipient.Some? && x.recipient.value in members)
      && (!blocked ==>
            |records| == |members| && forall k :: 0 <= k < |members| ==> Slot(records[k], cfg.step, members[k]))
    case _ => true
  }

  lemma RunOkSurvivesWrites(cfg: Config, table: seq<Row>, later: seq<Row>, r: Run)
    requires RunOk(cfg, table, r) && table <= later
    ensures RunOk(cfg, later, r)
  {
    hide HasRow, Slot;
    forall m | HasRow(table, cfg.step, m) ensures HasRow(later, cfg.step, m) {
      HasRowGrows(table, later, cfg.step, m);
    }
  }

  lemma {:induction false} MissingExact(members: seq<Uuid>, index: map<Uuid, Row>, m: Uuid)
    ensures m in Missing(members, index) <==> m in members && m !in index
  {
    if members != [] {
      MissingExact(members[..|members| - 1], index, m);
      assert members == members[..|members| - 1] + [members[|members| - 1]];
    }
  }

  lemma {:induction false} RecordsFromTable(cfg: Config, table: seq<Row>, members: seq<Uuid>)
    ensures var rs := Records(members, Index(table, cfg.step));
            && (forall x :: x in rs ==>
                  x in table && x.step == Some(cfg.step) && x.recipient.Some? && x.recipient.value in members)
            && ((forall m :: m in members ==> HasRow(table, cfg.step, m)) ==>
                  |rs| == |members| && forall k :: 0 <= k < |members| ==> Slot(rs[k], cfg.step, members[k]))
  {
    hide HasRow, Index;
    if members != [] {
      var front, last := members[..|members| - 1], members[|members| - 1];
      RecordsFromTable(cfg, table, front);
      LookupExact(table, cfg.step, last);
      assert members == front + [last];
    }
  }

  lemma LookupExact(table: seq<Row>, step: Uuid, rcpt: Uuid)
    ensures var index := Index(table, step);
            && (rcpt in index <==> HasRow(table, step, rcpt))
            && (rcpt in index ==> index[rcpt] in table && Slot(index[rcpt], step, rcpt))
  {
    IndexExact(table, step, rcpt);
  }

  lemma {:induction false} WalkSlots(cfg: Config, chunk: seq<Uuid>, entries: seq<Entry>, n: nat)
    requires |chunk| == |entries| && n <= |chunk|
    ensures var w := WalkEntries(cfg, chunk, entries, n);
            forall k :: 0 <= k < |w.rows| ==> Slot(w.rows[k], cfg.step, chunk[k])
  {
    if n > 0 {
      WalkSlots(cfg, chunk, entries, n - 1);
    }
  }

  lemma AdvanceOk(cfg: Config, table: seq<Row>, members: seq<Uuid>, missing: seq<Uuid>, next: nat, acc: seq<Row>)
    requires |acc| == next <= |missing|
    requires forall k :: 0 <= k < next ==> Slot(acc[k], cfg.step, missing[k])
    requires forall m :: m in members ==> m in missing || HasRow(table, cfg.step, m)
    ensures RunOk(cfg, table, Advance(members, missing, next, acc))
  {
    hide HasRow, Slot;
    if next == |missing| {
      forall m | m in members ensures Covered(table, cfg.step, m, acc) {
        if m in missing {
          var k :| 0 <= k < |missing| && missing[k] == m;
          assert Slot(acc[k], cfg.step, m);
        }
      }
    }
  }

  /** A provider answer leaves the run in order. */
  lemma AnswerOk(cfg: Config, table: seq<Row>, r: Run, entries: seq<Entry>)
    requires r.Minting? && RunOk(cfg, table, r) && |entries| == |ChunkAt(r.missing, r.next)|
    ensures RunOk(cfg, table, AfterWalk(cfg, r, entries))
  {
    hide HasRow, Slot;
    var chunk := ChunkAt(r.missing, r.next);
    WalkSlots(cfg, chunk, entries, |chunk|);
    var w := WalkEntries(cfg, chunk, entries, |chunk|);
    if w.AllCreated? {
      AdvanceOk(cfg, table, r.members, r.missing, r.next + |chunk|, r.acc + w.rows);
    }
  }

  lemma SaveOk(cfg: Config, table: seq<Row>, members: seq<Uuid>, acc: seq<Row>)
    requires Unique(table) && Insert(table, acc).Committed?
    requires forall m :: m in members ==> Covered(table, cfg.step, m, acc)
    ensures forall m :: m in members ==> HasRow(Insert(table, acc).table, cfg.step, m)
  {
    hide HasRow, Slot, Insert;
    InsertGrows(table, acc);
    var t := Insert(table, acc).table;
    forall m | m in members ensures HasRow(t, cfg.step, m) {
      assert Covered(table, cfg.step, m, acc);
      if HasRow(table, cfg.step, m) {
        HasRowGrows(table, t, cfg.step, m);
      }
    }
  }

  /** One step keeps the indexes, only appends, and keeps the run's own invariant. */
  lemma StepSafe(cfg: Config, table: seq<Row>, r: Run, input: Input)
    requires Unique(table) && RunOk(cfg, table, r)
    ensures var after := Step(cfg, table, r, input);
            Unique(after.0) && table <= after.0 && RunOk(cfg, after.0, after.1)
  {
    hide HasRow, Slot, Insert, Unique, Index, PlanBlocked, AfterWalk, Records, Missing;
    match (r, input)
    case (Listed(members), Db(ok)) =>
      var index := Index(table, cfg.step);
      forall m | m in members && m !in Missing(members, index) ensures HasRow(table, cfg.step, m) {
        MissingExact(members, index, m);
        LookupExact(table, cfg.step, m);
      }
      if Missing(members, index) == [] {
        RecordsFromTable(cfg, table, members);
      }
    case (Minting(members, missing, next, acc), Answer(response)) =>
      if response.Entries? && |response.entries| == |ChunkAt(missing, next)| {
        AnswerOk(cfg, table, r, response.entries);
      }
    case (Recovering(acc, error), Db(ok)) =>
      if ok && Insert(table, acc).Committed? {
        InsertGrows(table, acc);
      }
    case (Persisting(members, acc, blocked), Db(ok)) =>
      if ok && Insert(table, acc).Committed? {
        InsertGrows(table, acc);
        if !blocked {
          SaveOk(cfg, table, members, acc);
        }
      }
    case (Relisting(members, blocked), Db(ok)) => RecordsFromTable(cfg, table, members);
    case _ =>
  }

  ghost predicate WorldOk(cfgs: seq<Config>, w: World)
    requires |cfgs| == |w.runs|
  {
    Unique(w.table) && forall i :: 0 <= i < |w.runs| ==> RunOk(cfgs[i], w.table, w.runs[i])
  }

  /** Under any interleaving of any number of runs: at most one row per slot (and per link id),
      no row is ever changed or removed, and every run keeps its invariant. */
  lemma {:induction false} InterleavingsAreSafe(cfgs: seq<Config>, w: World, events: seq<Event>)
    requires |cfgs| == |w.runs| && WorldOk(cfgs, w)
    ensures var w' := Play(cfgs, w, events); WorldOk(cfgs, w') && w.table <= w'.table
  {
    hide Unique, RunOk, Step;
    if events != [] {
      InterleavingsAreSafe(cfgs, w, events[..|events| - 1]);
      var mid, e := Play(cfgs, w, events[..|events| - 1]), events[|events| - 1];
      if e.who < |mid.runs| {
        StepSafe(cfgs[e.who], mid.table, mid.runs[e.who], e.input);
        var after := Next(cfgs, mid, e);
        forall i | 0 <= i < |after.runs| ensures RunOk(cfgs[i], after.table, after.runs[i]) {
          if i != e.who {
            RunOkSurvivesWrites(cfgs[i], mid.table, after.table, mid.runs[i]);
          }
        }
      }
    }
  }

  function Fresh(n: nat): seq<Run> { seq(n, _ => Started) }

  /** From a table with its indexes intact: whoever returns without a plan block holds exactly
      one record per membership, in membership order; and any two returning runs of one step
      agree on every recipient both of them report. */
  lemma ReturningRunsAgree(cfgs: seq<Config>, table: seq<Row>, events: seq<Event>, i: nat, j: nat)
    requires Unique(table) && i < |cfgs| && j < |cfgs| && cfgs[i].step == cfgs[j].step
    ensures var w := Play(cfgs, World(table, Fresh(|cfgs|)), events);
            var a, b := w.runs[i], w.runs[j];
            && (a.Returned? && !a.blocked ==>
                  |a.records| == |a.members|
                  && forall k :: 0 <= k < |a.members| ==> Slot(a.records[k], cfgs[i].step, a.members[k]))
            && (a.Returned? && b.Returned? ==>
                  forall x, y :: x in a.records && y in b.records && x.recipient == y.recipient ==> x == y)
  {
    hide Unique, Step, Slot;
    InterleavingsAreSafe(cfgs, World(table, Fresh(|cfgs|)), events);
    var w := Play(cfgs, World(table, Fresh(|cfgs|)), events);
    var a, b := w.runs[i], w.runs[j];
    assert RunOk(cfgs[i], w.table, a) && RunOk(cfgs[j], w.table, b);
    if a.Returned? && b.Returned? {
      forall x, y | x in a.records && y in b.records && x.recipient == y.recipient ensures x == y {
        SlotOf(x, cfgs[i].step, x.recipient.value);
        SlotOf(y, cfgs[i].step, x.recipient.value);
        OneRowPerSlot(w.table, x, y, cfgs[i].step, x.recipient.value);
      }
    }
  }

  lemma SlotOf(x: Row, step: Uuid, rcpt: Uuid)
    ensures Slot(x, step, rcpt) <==> x.step == Some(step) && x.recipient == Some(rcpt)
  {
  }

  /** An undisturbed run is one of those interleavings. */
  lemma {:induction false} DriveIsAnInterleaving(cfg: Config, table: seq<Row>, r: Run, env: Env)
    returns (events: seq<Event>)
    requires Live(r)
    ensures Play([cfg], World(table, [r]), events) == World(Drive(cfg, table, r, env).0, [Drive(cfg, table, r, env).1])
    decreases Fuel(r).0, Fuel(r).1
  {
    hide Step;
    if Ended(r) {
      events := [];
    } else {
      StepBurnsFuel(cfg, table, r, env);
      var first := Event(0, InputFor(r, env));
      var after := Step(cfg, table, r, first.input);
      var rest := DriveIsAnInterleaving(cfg, after.0, after.1, env);
      events := [first] + rest;
      PlayFirst([cfg], World(table, [r]), first, rest);
      assert [r][0 := after.1] == [after.1];
    }
  }

  lemma {:induction false} PlayFirst(cfgs: seq<Config>, w: World, first: Event, rest: seq<Event>)
    requires |cfgs| == |w.runs|
    ensures Play(cfgs, w, [first] + rest) == Play(cfgs, Next(cfgs, w, first), rest)
  {
    hide Step;
    if rest == [] {
      assert [first] + rest == [first];
      assert Play(cfgs, w, [first][..0]) == w;
    } else {
      PlayFirst(cfgs, w, first, rest[..|rest| - 1]);
      assert ([first] + rest)[..|rest|] == [first] + rest[..|rest| - 1];
    }
  }

  // ---------- where rows come from ----------

  /** Rows a run holds back for its next insert. */
  function Accumulated(r: Run): seq<Row> {
    match r
    case Minting(_, _, _, acc) => acc
    case Recovering(acc, _) => acc
    case Persisting(_, acc, _) => acc
    case _ => []
  }

  /** The row is entry `o` of a response of the right length to this run, made out to the recipient
      at the entry's own place. */
  predicate EntryRow(cfg: Config, r: Run, input: Input, o: nat, row: Row) {
    && r.Minting? && input.Answer? && input.response.Entries? && r.next < |r.missing|
    && var es := input.response.entries;
       && |es| == |ChunkAt(r.missing, r.next)| && o < |es| && es[o].Created?
       && row == RowFor(cfg, ChunkAt(r.missing, r.next)[o], es[o])
  }

  lemma {:induction false} InsertedRows(table: seq<Row>, batch: seq<Row>, row: Row)
    requires Insert(table, batch).Committed? && row in Insert(table, batch).table
    ensures row in table || row in batch
    decreases |batch|
  {
    hide SlotTaken, LinkTaken;
    if batch != [] {
      if SlotTaken(table, batch[0]) {
        InsertedRows(table, batch[1..], row);
      } else {
        InsertedRows(table + [batch[0]], batch[1..], row);
      }
    }
  }

  /** One step stores only rows the run had accumulated. */
  lemma StepStores(cfg: Config, table: seq<Row>, r: Run, input: Input, row: Row)
    requires row in Step(cfg, table, r, input).0
    ensures row in table || row in Accumulated(r)
  {
    hide Insert, Index, Missing, Records, PlanBlocked, WalkEntries;
    var acc := Accumulated(r);
    if Insert(table, acc).Committed? && row in Insert(table, acc).table {
      InsertedRows(table, acc, row);
    }
  }

  /** One step accumulates only rows of the response it gets. */
  lemma StepAccumulates(cfg: Config, table: seq<Row>, r: Run, input: Input, row: Row)
    requires row in Accumulated(Step(cfg, table, r, input).1)
    ensures row in Accumulated(r) || exists o :: EntryRow(cfg, r, input, o, row)
  {
    hide Insert, Index, Missing, Records, PlanBlocked, WalkEntries, RowFor, ChunkAt;
    if r.Minting? && input.Answer? && r.next < |r.missing| && input.response.Entries?
       && |input.response.entries| == |ChunkAt(r.missing, r.next)| && row !in r.acc {
      var chunk, es := ChunkAt(r.missing, r.next), input.response.entries;
      var w := WalkEntries(cfg, chunk, es, |chunk|);
      WalkMints(cfg, chunk, es, |chunk|);
      assert row in r.acc + w.rows;
      var o :| 0 <= o < |w.rows| && w.rows[o] == row;
      assert EntryRow(cfg, r, input, o, row);
    }
  }

  /** Some event answered some run with this very row. */
  ghost predicate FromAnswer(cfgs: seq<Config>, w: World, events: seq<Event>, row: Row)
    requires |cfgs| == |w.runs|
  {
    exists j, o :: 0 <= j < |events| && AnsweredRow(cfgs, w, events, j, o, row)
  }

  predicate AnsweredRow(cfgs: seq<Config>, w: World, events: seq<Event>, j: nat, o: nat, row: Row)
    requires |cfgs| == |w.runs| && j < |events|
  {
    var who := events[j].who;
    who < |cfgs| && EntryRow(cfgs[who], Play(cfgs, w, events[..j]).runs[who], events[j].input, o, row)
  }

  lemma FromAnswerStays(cfgs: seq<Config>, w: World, events: seq<Event>, row: Row)
    requires |cfgs| == |w.runs| && events != [] && FromAnswer(cfgs, w, events[..|events| - 1], row)
    ensures FromAnswer(cfgs, w, events, row)
  {
    hide EntryRow, Play;
    var front := events[..|events| - 1];
    var j, o :| 0 <= j < |front| && AnsweredRow(cfgs, w, front, j, o, row);
    assert front[..j] == events[..j];
    assert AnsweredRow(cfgs, w, events, j, o, row);
  }

  /** Accumulated rows come from answers. */
  lemma {:induction false} AccumulatedSource(cfgs: seq<Config>, w: World, events: seq<Event>, i: nat, row: Row)
    requires |cfgs| == |w.runs| && i < |cfgs| && Accumulated(w.runs[i]) == []
    requires row in Accumulated(Play(cfgs, w, events).runs[i])
    ensures FromAnswer(cfgs, w, events, row)
  {
    hide Step, Accumulated, FromAnswer;
    if events != [] {
      var n := |events| - 1;
      var front, e := events[..n], events[n];
      var before := Play(cfgs, w, front);
      if row in Accumulated(before.runs[i]) {
        AccumulatedSource(cfgs, w, front, i, row);
        FromAnswerStays(cfgs, w, events, row);
      } else {
        StepAccumulates(cfgs[i], before.table, before.runs[i], e.input, row);
        NewestAnswer(cfgs, w, events, row);
      }
    }
  }

  /** Stored rows were accumulated by some run before. */
  lemma {:induction false} StoredSource(cfgs: seq<Config>, w: World, events: seq<Event>, row: Row)
    requires |cfgs| == |w.runs| && forall i :: 0 <= i < |cfgs| ==> Accumulated(w.runs[i]) == []
    requires row in Play(cfgs, w, events).table
    ensures row in w.table || FromAnswer(cfgs, w, events, row)
  {
    hide Step, Accumulated, FromAnswer;
    if events != [] {
      var n := |events| - 1;
      var front, e := events[..n], events[n];
      var before := Play(cfgs, w, front);
      if row in before.table {
        StoredSource(cfgs, w, front, row);
      } else {
        StepStores(cfgs[e.who], before.table, before.runs[e.who], e.input, row);
        AccumulatedSource(cfgs, w, front, e.who, row);
      }
      if FromAnswer(cfgs, w, front, row) {
        FromAnswerStays(cfgs, w, events, row);
      }
    }
  }

  lemma NewestAnswer(cfgs: seq<Config>, w: World, events: seq<Event>, row: Row)
    requires |cfgs| == |w.runs| && events != [] && events[|events| - 1].who < |cfgs|
    requires var n := |events| - 1;
             var who := events[n].who;
             exists o :: EntryRow(cfgs[who], Play(cfgs, w, events[..n]).runs[who], events[n].input, o, row)
    ensures FromAnswer(cfgs, w, events, row)
  {
    hide EntryRow, Play;
    var n := |events| - 1;
    var who := events[n].who;
    var o :| EntryRow(cfgs[who], Play(cfgs, w, events[..n]).runs[who], events[n].input, o, row);
    assert AnsweredRow(cfgs, w, events, n, o, row);
  }

  /** Under any interleaving every row that was added is an entry the provider answered some run
      with, made out to that run's recipient at the entry's own place. */
  lemma EveryRowIsAnAnswer(cfgs: seq<Config>, table: seq<Row>, events: seq<Event>, row: Row)
    requires row in Play(cfgs, World(table, Fresh(|cfgs|)), events).table
    ensures row in table || FromAnswer(cfgs, World(table, Fresh(|cfgs|)), events, row)
  {
    hide Play, FromAnswer;
    StoredSource(cfgs, World(table, Fresh(|cfgs|)), events, row);
  }

  // ---------- one undisturbed run ----------

  ghost predicate DistinctIds(s: seq<Uuid>) { forall i, j :: 0 <= i < j < |s| ==> s[i] != s[j] }

  function ChunkStart(k: nat): nat { k / CHUNK * CHUNK }

  /** The response covers global index `k`. */
  predicate Answered(env: Env, k: nat) {
    var r := env.dub(ChunkStart(k));
    r.Entries? && k - ChunkStart(k) < |r.entries|
  }

  /** The provider's entry at global index `k`, across chunk boundaries. */
  function EntryAt(env: Env, k: nat): Entry
    requires Answered(env, k)
  {
    env.dub(ChunkStart(k)).entries[k - ChunkStart(k)]
  }

  /** Row `k` carries the provider's answer at its own recipient's global index. */
  ghost predicate MintedAt(cfg: Config, missing: seq<Uuid>, env: Env, k: nat, row: Row)
    requires k < |missing|
  {
    Answered(env, k) && EntryAt(env, k).Created? && row == RowFor(cfg, missing[k], EntryAt(env, k))
  }

  /** Column by column: what a saved row says about its recipient. */
  lemma SavedRowSays(cfg: Config, missing: seq<Uuid>, env: Env, k: nat, row: Row)
    requires k < |missing| && MintedAt(cfg, missing, env, k, row)
    ensures var e := EntryAt(env, k);
            && row.linkId == e.id && row.externalId == e.externalId && row.domain == e.domain && row.key == e.key
            && row.tags == e.tags && (e.shortLink != "" ==> row.shortUrl == e.shortLink)
            && (e.url != "" ==> row.destination == e.url && (e.shortLink == "" ==> row.shortUrl == e.url))
            && (e.url == "" ==> row.destination == cfg.destination)
            && (e.folderId.Some? ==> row.folder == e.folderId) && (e.folderId.None? ==> row.folder == cfg.folder)
            && Slot(row, cfg.step, missing[k])
            && row.attribution.Some?
            && row.attribution.value.recipient == missing[k] && row.attribution.value.step == cfg.step
            && row.attribution.value.campaign == cfg.campaign
            && row.attribution.value.channelCampaign == cfg.channelCampaign
            && row.attribution.value.organization == cfg.organization
  {
  }

  ghost predicate MintedPrefix(cfg: Config, missing: seq<Uuid>, env: Env, rows: seq<Row>) {
    |rows| <= |missing| && forall k :: 0 <= k < |rows| ==> MintedAt(cfg, missing, env, k, rows[k])
  }

  /** The provider reported an error for recipient `g` and minted everyone before. */
  ghost predicate FailsAt(cfg: Config, missing: seq<Uuid>, env: Env, g: nat, error: Error) {
    && g < |missing| && Answered(env, g) && EntryAt(env, g).Failed?
    && error == EntryFailed(missing[g], EntryAt(env, g).message)
  }

  lemma {:induction false} WalkMints(cfg: Config, chunk: seq<Uuid>, entries: seq<Entry>, n: nat)
    requires |chunk| == |entries| && n <= |chunk|
    ensures var w := WalkEntries(cfg, chunk, entries, n);
            forall k :: 0 <= k < |w.rows| ==> entries[k].Created? && w.rows[k] == RowFor(cfg, chunk[k], entries[k])
  {
    hide RowFor;
    if n > 0 {
      WalkMints(cfg, chunk, entries, n - 1);
    }
  }

  lemma IndexInChunk(next: nat, k: nat)
    requires next % CHUNK == 0 && next <= k < next + CHUNK
    ensures ChunkStart(k) == next
  {
  }

  // ---------- the run foretold from the answers ----------

  /** Place of the first entry that is not a link, or the length. */
  function FirstBad(es: seq<Entry>): (i: nat)
    ensures i <= |es| && (i < |es| ==> !es[i].Created?)
    ensures forall j :: 0 <= j < i ==> es[j].Created?
  {
    if es == [] || !es[0].Created? then 0 else 1 + FirstBad(es[1..])
  }

  /** The chunk at `c` is answered in full, with a link for everyone. */
  predicate Clean(missing: seq<Uuid>, env: Env, c: nat)
    requires c <= |missing|
  {
    var r := env.dub(c);
    r.Entries? && |r.entries| == |ChunkAt(missing, c)| && forall j :: 0 <= j < |r.entries| ==> r.entries[j].Created?
  }

  /** The first chunk from `c` on that is not clean, or the number of missing recipients. */
  function StopFrom(missing: seq<Uuid>, env: Env, c: nat): (stop: nat)
    ensures stop <= |missing| && (stop < |missing| ==> c <= stop && !Clean(missing, env, stop))
    decreases |missing| - c
  {
    if c >= |missing| then |missing| else if Clean(missing, env, c) then StopFrom(missing, env, c + CHUNK) else c
  }

  function StopAt(missing: seq<Uuid>, env: Env): nat { StopFrom(missing, env, 0) }

  predicate Blocks(env: Env, c: nat) { env.dub(c).Refused? && PlanBlocked(env.dub(c).status, env.dub(c).message) }

  /** The answer to the chunk at `c` discards all links minted so far: a refusal that is no plan
      block, a response of the wrong length, or a malformed entry before any reported error. */
  predicate Discards(missing: seq<Uuid>, env: Env, c: nat)
    requires c <= |missing|
  {
    match env.dub(c)
    case Refused(status, message) => !PlanBlocked(status, message)
    case Entries(es) =>
      || |es| != |ChunkAt(missing, c)|
      || exists i :: 0 <= i < |es| && es[i].NotAnObject? && forall j :: 0 <= j < i ==> es[j].Created?
  }

  /** The answers make the run throw its links away. */
  predicate Discarded(missing: seq<Uuid>, env: Env) {
    StopAt(missing, env) < |missing| && Discards(missing, env, StopAt(missing, env))
  }

  /** Links offered to the database: none if they are discarded, else those of the clean chunks and,
      on a reported error, those before it. */
  function Kept(missing: seq<Uuid>, env: Env): nat {
    var c := StopAt(missing, env);
    if Discarded(missing, env) then 0
    else if c < |missing| && env.dub(c).Entries? then c + FirstBad(env.dub(c).entries)
    else c
  }

  /** The exception of a chunk that is neither clean nor a plan block. */
  function ErrorAt(missing: seq<Uuid>, env: Env, c: nat): Error
    requires c < |missing| && !Clean(missing, env, c) && !Blocks(env, c)
  {
    match env.dub(c)
    case Refused(_, _) => TransportFailed(missing[c])
    case Entries(es) =>
      if |es| != |ChunkAt(missing, c)| then LengthMismatch
      else
        var i := FirstBad(es);
        if es[i].NotAnObject? then BadEntry(missing[c + i]) else EntryFailed(missing[c + i], es[i].message)
  }

  /** The rows of the first `n` missing recipients. */
  function MintedRows(cfg: Config, missing: seq<Uuid>, env: Env, n: nat): seq<Row>
    requires n <= |missing| && forall k :: 0 <= k < n ==> Answered(env, k) && EntryAt(env, k).Created?
  {
    seq(n, k requires 0 <= k < n => RowFor(cfg, missing[k], EntryAt(env, k)))
  }

  lemma ChunkIndices(missing: seq<Uuid>, env: Env, c: nat, k: nat)
    requires c % CHUNK == 0 && c < |missing| && env.dub(c).Entries? && |env.dub(c).entries| == |ChunkAt(missing, c)|
    requires c <= k < c + |env.dub(c).entries|
    ensures Answered(env, k) && EntryAt(env, k) == env.dub(c).entries[k - c]
  {
    IndexInChunk(c, k);
  }

  /** Everyone in the chunks before the stop is answered with a link. */
  lemma {:induction false} CleanChunksCreate(missing: seq<Uuid>, env: Env, c: nat, k: nat)
    requires c % CHUNK == 0 && c <= k < StopFrom(missing, env, c)
    ensures Answered(env, k) && EntryAt(env, k).Created?
    decreases |missing| - c
  {
    hide Answered, EntryAt;
    if k < c + CHUNK {
      ChunkIndices(missing, env, c, k);
    } else {
      CleanChunksCreate(missing, env, c + CHUNK, k);
    }
  }

  lemma {:induction false} StopIsChunkStart(missing: seq<Uuid>, env: Env, c: nat)
    requires c % CHUNK == 0
    ensures StopFrom(missing, env, c) < |missing| ==> StopFrom(missing, env, c) % CHUNK == 0
    decreases |missing| - c
  {
    hide Clean;
    if c < |missing| && Clean(missing, env, c) {
      StopIsChunkStart(missing, env, c + CHUNK);
    }
  }

  lemma KeptAreCreated(missing: seq<Uuid>, env: Env)
    ensures Kept(missing, env) <= |missing|
    ensures forall k :: 0 <= k < Kept(missing, env) ==> Answered(env, k) && EntryAt(env, k).Created?
  {
    hide Answered, EntryAt, StopFrom, Clean;
    var c := StopAt(missing, env);
    StopIsChunkStart(missing, env, 0);
    forall k | 0 <= k < Kept(missing, env) ensures Answered(env, k) && EntryAt(env, k).Created? {
      if k < c {
        CleanChunksCreate(missing, env, 0, k);
      } else {
        ChunkIndices(missing, env, c, k);
      }
    }
  }

  function KeptRows(cfg: Config, missing: seq<Uuid>, env: Env): seq<Row> {
    KeptAreCreated(missing, env);
    MintedRows(cfg, missing, env, Kept(missing, env))
  }

  /** The database takes the rows. */
  predicate Saves(table: seq<Row>, env: Env, rows: seq<Row>) {
    rows == [] || (env.saveOk && Insert(table, rows).Committed?)
  }

  /** How the chunks of a run end. */
  function ForetoldChunks(cfg: Config, table: seq<Row>, members: seq<Uuid>, missing: seq<Uuid>, env: Env)
    : (seq<Row>, Run)
  {
    var c, rows := StopAt(missing, env), KeptRows(cfg, missing, env);
    var later := if Saves(table, env, rows) then table + rows else table;
    if c < |missing| && !Blocks(env, c) then (later, Raised(ErrorAt(missing, env, c)))
    else if !Saves(table, env, rows) then (table, Raised(PersistFailed))
    else if !env.relistOk then (later, Raised(DatabaseDown))
    else (later, Returned(members, Records(members, Index(later, cfg.step)), c < |missing|))
  }

  function MissingOf(cfg: Config, table: seq<Row>, members: seq<Uuid>): seq<Uuid> {
    Missing(members, Index(table, cfg.step))
  }

  /** The whole undisturbed run, table and ending, as a function of what is answered. */
  function Foretold(cfg: Config, table: seq<Row>, env: Env): (seq<Row>, Run) {
    var missing := MissingOf(cfg, table, env.members);
    if env.members == [] then (table, Returned([], [], false))
    else if !env.listOk then (table, Raised(DatabaseDown))
    else if missing == [] then
      (table, Returned(env.members, Records(env.members, Index(table, cfg.step)), false))
    else ForetoldChunks(cfg, table, env.members, missing, env)
  }

  lemma {:induction false} WalkStopsAtFirstBad(cfg: Config, chunk: seq<Uuid>, es: seq<Entry>, n: nat)
    requires |chunk| == |es| && n <= |chunk|
    ensures var w, i := WalkEntries(cfg, chunk, es, n), FirstBad(es);
            if n <= i then w.AllCreated? else w.Stopped? && w.offset == i
  {
    hide RowFor;
    if n > 0 {
      WalkStopsAtFirstBad(cfg, chunk, es, n - 1);
    }
  }

  /** Walking a response of the right length extends the minted rows. */
  lemma WalkExtends(cfg: Config, missing: seq<Uuid>, env: Env, c: nat, acc: seq<Row>)
    requires c % CHUNK == 0 && c < |missing| && env.dub(c).Entries? && |env.dub(c).entries| == |ChunkAt(missing, c)|
    requires |acc| == c && MintedPrefix(cfg, missing, env, acc)
    ensures var es, chunk := env.dub(c).entries, ChunkAt(missing, c);
            var w := WalkEntries(cfg, chunk, es, |chunk|);
            && MintedPrefix(cfg, missing, env, acc + w.rows) && |w.rows| == FirstBad(es)
            && (w.AllCreated? <==> FirstBad(es) == |es|) && (w.Stopped? ==> w.offset == FirstBad(es))
  {
    hide RowFor, WalkEntries, Answered, EntryAt;
    var es, chunk := env.dub(c).entries, ChunkAt(missing, c);
    var w := WalkEntries(cfg, chunk, es, |chunk|);
    WalkStopsAtFirstBad(cfg, chunk, es, |chunk|);
    WalkMints(cfg, chunk, es, |chunk|);
    var rows := acc + w.rows;
    forall k | 0 <= k < |rows| ensures MintedAt(cfg, missing, env, k, rows[k]) {
      if k >= c {
        ChunkIndices(missing, env, c, k);
        assert chunk[k - c] == missing[k];
      }
    }
  }

  /** A minted prefix is determined by its length. */
  lemma PrefixIsMintedRows(cfg: Config, missing: seq<Uuid>, env: Env, rows: seq<Row>)
    requires MintedPrefix(cfg, missing, env, rows)
    ensures forall k :: 0 <= k < |rows| ==> Answered(env, k) && EntryAt(env, k).Created?
    ensures |rows| <= |missing| && rows == MintedRows(cfg, missing, env, |rows|)
  {
    hide RowFor, Answered, EntryAt;
    forall k | 0 <= k < |rows| ensures Answered(env, k) && EntryAt(env, k).Created? {
      assert MintedAt(cfg, missing, env, k, rows[k]);
    }
    forall k | 0 <= k < |rows| ensures rows[k] == MintedRows(cfg, missing, env, |rows|)[k] {
      assert MintedAt(cfg, missing, env, k, rows[k]);
    }
  }

  lemma KeptIsPrefix(cfg: Config, missing: seq<Uuid>, env: Env)
    ensures MintedPrefix(cfg, missing, env, KeptRows(cfg, missing, env))
    ensures |KeptRows(cfg, missing, env)| == Kept(missing, env)
  {
    hide RowFor, Kept, Answered, EntryAt;
    KeptAreCreated(missing, env);
  }

  lemma {:induction false} MissingDistinct(members: seq<Uuid>, index: map<Uuid, Row>)
    requires DistinctIds(members)
    ensures DistinctIds(Missing(members, index))
  {
    if members != [] {
      var front := members[..|members| - 1];
      MissingDistinct(front, index);
      forall k | 0 <= k < |Missing(front, index)| ensures Missing(front, index)[k] != members[|members| - 1] {
        MissingExact(front, index, Missing(front, index)[k]);
      }
    }
  }

  /** Rows minted for missing recipients clash with nothing in their slots. */
  lemma MintedRowsAreFresh(cfg: Config, table: seq<Row>, missing: seq<Uuid>, env: Env, rows: seq<Row>)
    requires MintedPrefix(cfg, missing, env, rows) && DistinctIds(missing)
    requires forall m :: m in missing ==> !HasRow(table, cfg.step, m)
    ensures Insert(table, rows) == Violation || Insert(table, rows) == Committed(table + rows)
  {
    hide HasRow, Insert, Answered, EntryAt;
    forall k | 0 <= k < |rows| ensures !SlotTaken(table, rows[k]) {
      assert MintedAt(cfg, missing, env, k, rows[k]);
      NotTaken(table, rows[k], cfg.step, missing[k]);
    }
    forall j, k | 0 <= j < k < |rows| ensures !SameSlot(rows[k], rows[j]) {
      assert MintedAt(cfg, missing, env, k, rows[k]) && MintedAt(cfg, missing, env, j, rows[j]);
    }
    FreshInsert(table, rows);
  }

  lemma NotTaken(table: seq<Row>, r: Row, step: Uuid, rcpt: Uuid)
    requires r.step == Some(step) && r.recipient == Some(rcpt) && !HasRow(table, step, rcpt)
    ensures !SlotTaken(table, r)
  {
  }

  lemma InsertNothing(table: seq<Row>)
    ensures Insert(table, []) == Committed(table) && table + [] == table
  {
  }

  lemma EmptyPrefix(cfg: Config, missing: seq<Uuid>, env: Env)
    ensures MintedPrefix(cfg, missing, env, [])
  {
  }

  lemma SavedRows(cfg: Config, table: seq<Row>, missing: seq<Uuid>, env: Env, rows: seq<Row>)
    requires MintedPrefix(cfg, missing, env, rows) && DistinctIds(missing)
    requires forall m :: m in missing ==> !HasRow(table, cfg.step, m)
    ensures Insert(table, rows).Committed? ==> Insert(table, rows).table == table + rows
    ensures rows == [] ==> Insert(table, rows).Committed? && table + rows == table
  {
    hide Insert, HasRow, MintedPrefix;
    MintedRowsAreFresh(cfg, table, missing, env, rows);
    InsertNothing(table);
  }

  /** The final insert and relist. */
  lemma PersistForetold(cfg: Config, table: seq<Row>, members: seq<Uuid>, missing: seq<Uuid>,
                        env: Env, acc: seq<Row>, blocked: bool)
    requires MintedPrefix(cfg, missing, env, acc) && DistinctIds(missing)
    requires forall m :: m in missing ==> !HasRow(table, cfg.step, m)
    ensures Drive(cfg, table, Persisting(members, acc, blocked), env) ==
            if !Saves(table, env, acc) then (table, Raised(PersistFailed))
            else if !env.relistOk then (table + acc, Raised(DatabaseDown))
            else (table + acc, Returned(members, Records(members, Index(table + acc, cfg.step)), blocked))
  {
    hide HasRow, Insert, Drive, MintedPrefix, Records, Index;
    var r := Persisting(members, acc, blocked);
    DriveStep(cfg, table, r, env);
    SavedRows(cfg, table, missing, env, acc);
    var next := Step(cfg, table, r, InputFor(r, env));
    if next.1.Raised? {
      DriveEnds(cfg, table, next.1, env);
    } else {
      DriveStep(cfg, next.0, next.1, env);
      DriveEnds(cfg, next.0, Step(cfg, next.0, next.1, InputFor(next.1, env)).1, env);
    }
  }

  /** An entry error: the recovery insert, then the raise. */
  lemma RecoveryForetold(cfg: Config, table: seq<Row>, missing: seq<Uuid>, env: Env, acc: seq<Row>, error: Error)
    requires MintedPrefix(cfg, missing, env, acc) && DistinctIds(missing)
    requires forall m :: m in missing ==> !HasRow(table, cfg.step, m)
    ensures Drive(cfg, table, if acc == [] then Raised(error) else Recovering(acc, error), env) ==
            (if Saves(table, env, acc) then table + acc else table, Raised(error))
  {
    hide HasRow, Insert, Drive, MintedPrefix;
    SavedRows(cfg, table, missing, env, acc);
    if acc == [] {
      DriveEnds(cfg, table, Raised(error), env);
    } else {
      var r := Recovering(acc, error);
      DriveStep(cfg, table, r, env);
      DriveEnds(cfg, Step(cfg, table, r, InputFor(r, env)).0, Raised(error), env);
    }
  }

  /** At the stop: the answer there forces the ending. */
  lemma StopForetold(cfg: Config, table: seq<Row>, members: seq<Uuid>, missing: seq<Uuid>, env: Env, acc: seq<Row>)
    requires StopAt(missing, env) < |missing| && |acc| == StopAt(missing, env)
    requires MintedPrefix(cfg, missing, env, acc) && DistinctIds(missing)
    requires forall m :: m in missing ==> !HasRow(table, cfg.step, m)
    ensures Drive(cfg, table, Minting(members, missing, StopAt(missing, env), acc), env)
            == ForetoldChunks(cfg, table, members, missing, env)
  {
    hide HasRow, Insert, Drive, MintedPrefix, WalkEntries, PlanBlocked, StopFrom, Records, Index, MintedRows, FirstBad;
    var c := StopAt(missing, env);
    var r := Minting(members, missing, c, acc);
    StopIsChunkStart(missing, env, 0);
    DriveStep(cfg, table, r, env);
    KeptIsPrefix(cfg, missing, env);
    PrefixIsMintedRows(cfg, missing, env, acc);
    var after := Step(cfg, table, r, InputFor(r, env)).1;
    var response := env.dub(c);
    if Blocks(env, c) {
      assert KeptRows(cfg, missing, env) == acc;
      PersistForetold(cfg, table, members, missing, env, acc, true);
    } else if response.Refused? || |response.entries| != |ChunkAt(missing, c)| {
      assert KeptRows(cfg, missing, env) == [] && table + [] == table;
      DriveEnds(cfg, table, after, env);
    } else {
      WalkExtends(cfg, missing, env, c, acc);
      var es, chunk := response.entries, ChunkAt(missing, c);
      var i := FirstBad(es);
      assert chunk[i] == missing[c + i];
      if es[i].NotAnObject? {
        assert KeptRows(cfg, missing, env) == [] && table + [] == table;
        DriveEnds(cfg, table, after, env);
      } else {
        var rows := acc + WalkEntries(cfg, chunk, es, |chunk|).rows;
        PrefixIsMintedRows(cfg, missing, env, rows);
        NotDiscarded(missing, env);
        assert KeptRows(cfg, missing, env) == rows;
        RecoveryForetold(cfg, table, missing, env, rows, EntryFailed(chunk[i], es[i].message));
      }
    }
  }

  /** A reported error comes before any malformed entry. */
  lemma NotDiscarded(missing: seq<Uuid>, env: Env)
    requires var c := StopAt(missing, env);
             c < |missing| && env.dub(c).Entries? && |env.dub(c).entries| == |ChunkAt(missing, c)|
             && FirstBad(env.dub(c).entries) < |env.dub(c).entries|
             && env.dub(c).entries[FirstBad(env.dub(c).entries)].Failed?
    ensures !Discarded(missing, env)
  {
    hide StopFrom;
  }

  lemma {:induction false} ChunksForetold(cfg: Config, table: seq<Row>, members: seq<Uuid>, missing: seq<Uuid>,
                                          env: Env, next: nat, acc: seq<Row>)
    requires next % CHUNK == 0 && next < |missing| && |acc| == next
    requires StopFrom(missing, env, next) == StopAt(missing, env)
    requires MintedPrefix(cfg, missing, env, acc) && DistinctIds(missing)
    requires forall m :: m in missing ==> !HasRow(table, cfg.step, m)
    ensures Drive(cfg, table, Minting(members, missing, next, acc), env)
            == ForetoldChunks(cfg, table, members, missing, env)
    decreases |missing| - next
  {
    hide HasRow, Insert, Drive, MintedPrefix, WalkEntries, PlanBlocked, Records, Index,
      ForetoldChunks, StopAt, FirstBad;
    if Clean(missing, env, next) {
      var r := Minting(members, missing, next, acc);
      DriveStep(cfg, table, r, env);
      WalkExtends(cfg, missing, env, next, acc);
      var chunk := ChunkAt(missing, next);
      var rows := acc + WalkEntries(cfg, chunk, env.dub(next).entries, |chunk|).rows;
      var n := next + |chunk|;
      if n < |missing| {
        ChunksForetold(cfg, table, members, missing, env, n, rows);
      } else {
        AllCleanForetold(cfg, table, members, missing, env, rows);
      }
    } else {
      StopForetold(cfg, table, members, missing, env, acc);
    }
  }

  lemma AllCleanForetold(cfg: Config, table: seq<Row>, members: seq<Uuid>, missing: seq<Uuid>, env: Env, rows: seq<Row>)
    requires StopAt(missing, env) == |missing| == |rows|
    requires MintedPrefix(cfg, missing, env, rows) && DistinctIds(missing)
    requires forall m :: m in missing ==> !HasRow(table, cfg.step, m)
    ensures Drive(cfg, table, Persisting(members, rows, false), env)
            == ForetoldChunks(cfg, table, members, missing, env)
  {
    hide HasRow, Insert, Drive, MintedPrefix, StopAt, Records, Index, MintedRows;
    KeptAreCreated(missing, env);
    PrefixIsMintedRows(cfg, missing, env, rows);
    PersistForetold(cfg, table, members, missing, env, rows, false);
  }

  /** An undisturbed run, its table and its ending, is what the answers foretell; so each answer
      forces its ending. */
  lemma RunIsForetold(cfg: Config, table: seq<Row>, env: Env)
    requires DistinctIds(env.members)
    ensures Drive(cfg, table, Started, env) == Foretold(cfg, table, env)
  {
    hide HasRow, Insert, Drive, Index, Missing, Records, ForetoldChunks, StopFrom;
    var members := env.members;
    DriveStep(cfg, table, Started, env);
    if members == [] {
      DriveEnds(cfg, table, Returned([], [], false), env);
    } else {
      DriveStep(cfg, table, Listed(members), env);
      var after := Step(cfg, table, Listed(members), InputFor(Listed(members), env)).1;
      var missing := MissingOf(cfg, table, members);
      if env.listOk && missing != [] {
        MissingHaveNoRow(cfg, table, members);
        EmptyPrefix(cfg, missing, env);
        ChunksForetold(cfg, table, members, missing, env, 0, []);
      } else {
        DriveEnds(cfg, table, after, env);
      }
    }
  }

  lemma MissingHaveNoRow(cfg: Config, table: seq<Row>, members: seq<Uuid>)
    requires DistinctIds(members)
    ensures DistinctIds(MissingOf(cfg, table, members))
    ensures forall m :: m in MissingOf(cfg, table, members) ==> !HasRow(table, cfg.step, m)
  {
    hide HasRow, Index, Missing, DistinctIds;
    MissingDistinct(members, Index(table, cfg.step));
    forall m | m in MissingOf(cfg, table, members) ensures !HasRow(table, cfg.step, m) {
      MissingExact(members, Index(table, cfg.step), m);
      LookupExact(table, cfg.step, m);
    }
  }

  // ---------- what each ending leaves behind ----------

  /** What a run may leave behind: `rows` are the appended rows. */
  ghost predicate Outcome(cfg: Config, table: seq<Row>, missing: seq<Uuid>, env: Env, rows: seq<Row>, r: Run) {
    && MintedPrefix(cfg, missing, env, rows)
    && Because(cfg, table, missing, env, rows, r)
    && match r
       case Returned(_, _, blocked) =>
         if blocked then |rows| % CHUNK == 0 && |rows| < |missing| else |rows| == |missing|
       case Raised(EntryFailed(who, message)) =>
         exists g, saved :: SavedBeforeFailure(cfg, table, missing, env, rows, r.error, g, saved)
       case Raised(DatabaseDown) => !env.relistOk
       case _ => rows == []
  }

  /** The answer an ending goes back to: the one at the stop, or a failed save of the kept rows. */
  ghost predicate Because(cfg: Config, table: seq<Row>, missing: seq<Uuid>, env: Env, rows: seq<Row>, r: Run) {
    match r
    case Returned(_, _, blocked) => |rows| == StopAt(missing, env) && (blocked ==> Blocks(env, |rows|))
    case Raised(EntryFailed(_, _)) => !Discarded(missing, env)
    case Raised(DatabaseDown) => |rows| == |missing| || Blocks(env, |rows|)
    case Raised(PersistFailed) => !env.saveOk || Insert(table, KeptRows(cfg, missing, env)).Violation?
    case _ => Discarded(missing, env)
  }

  /** The entries before the failing one were offered to the database: all kept, or the insert
      failed and none were. */
  ghost predicate SavedBeforeFailure(cfg: Config, table: seq<Row>, missing: seq<Uuid>, env: Env, rows: seq<Row>,
                                     error: Error, g: nat, saved: seq<Row>)
  {
    && FailsAt(cfg, missing, env, g, error)
    && |saved| == g && MintedPrefix(cfg, missing, env, saved)
    && rows == if env.saveOk && Insert(table, saved).Committed? then saved else []
  }

  lemma FailureLeaves(cfg: Config, table: seq<Row>, missing: seq<Uuid>, env: Env)
    requires StopAt(missing, env) < |missing| && !Blocks(env, StopAt(missing, env))
    requires DistinctIds(missing) && forall m :: m in missing ==> !HasRow(table, cfg.step, m)
    ensures var kept := KeptRows(cfg, missing, env);
            Outcome(cfg, table, missing, env, if Saves(table, env, kept) then kept else [],
                    Raised(ErrorAt(missing, env, StopAt(missing, env))))
  {
    hide HasRow, Insert, MintedPrefix, PlanBlocked, StopFrom, MintedRows, FirstBad, DistinctIds;
    var c, kept := StopAt(missing, env), KeptRows(cfg, missing, env);
    var error := ErrorAt(missing, env, c);
    StopIsChunkStart(missing, env, 0);
    KeptIsPrefix(cfg, missing, env);
    EmptyPrefix(cfg, missing, env);
    if error.EntryFailed? {
      NotDiscarded(missing, env);
      var g := Kept(missing, env);
      ChunkIndices(missing, env, c, g);
      SavedRows(cfg, table, missing, env, kept);
      assert SavedBeforeFailure(cfg, table, missing, env, if Saves(table, env, kept) then kept else [], error, g, kept);
    }
  }

  /** However an undisturbed run ends, it appends rows for a prefix of the missing recipients,
      each from the provider's answer at that recipient's own index: all of them on success,
      whole chunks on a plan block, exactly those before the failing entry on an entry error
      (none if that insert fails), none on any other raise before the insert. */
  lemma RunLeavesPrefix(cfg: Config, table: seq<Row>, env: Env)
    requires DistinctIds(env.members)
    ensures var d := Drive(cfg, table, Started, env);
            var missing := MissingOf(cfg, table, env.members);
            table <= d.0
            && (if missing == [] then d.0 == table && (d.1.Returned? ==> !d.1.blocked)
                else if !env.listOk then d == (table, Raised(DatabaseDown))
                else Outcome(cfg, table, missing, env, d.0[|table|..], d.1))
  {
    hide HasRow, Insert, Drive, MissingOf, Records, MintedRows, StopFrom, Outcome, KeptRows, ErrorAt, Kept, DistinctIds,
      Saves;
    RunIsForetold(cfg, table, env);
    var missing := MissingOf(cfg, table, env.members);
    if env.members == [] {
      NoMembersNoMissing(cfg, table);
    } else if env.listOk && missing != [] {
      MissingHaveNoRow(cfg, table, env.members);
      ChunksLeave(cfg, table, env.members, missing, env);
    }
  }

  lemma ChunksLeave(cfg: Config, table: seq<Row>, members: seq<Uuid>, missing: seq<Uuid>, env: Env)
    requires DistinctIds(missing) && forall m :: m in missing ==> !HasRow(table, cfg.step, m)
    ensures var d := ForetoldChunks(cfg, table, members, missing, env);
            table <= d.0 && Outcome(cfg, table, missing, env, d.0[|table|..], d.1)
  {
    hide HasRow, Insert, Records, MintedRows, StopFrom, DistinctIds, MintedPrefix, PlanBlocked;
    var c, kept := StopAt(missing, env), KeptRows(cfg, missing, env);
    KeptIsPrefix(cfg, missing, env);
    EmptyPrefix(cfg, missing, env);
    StopIsChunkStart(missing, env, 0);
    assert (table + kept)[|table|..] == kept && table[|table|..] == [];
    if c < |missing| && !Blocks(env, c) {
      FailureLeaves(cfg, table, missing, env);
    }
  }

  lemma NoMembersNoMissing(cfg: Config, table: seq<Row>)
    ensures MissingOf(cfg, table, []) == []
  {
  }

  // ---------- retries ----------

  lemma {:induction false} MissingPrefix(members: seq<Uuid>, index: map<Uuid, Row>, j: nat)
    requires j <= |members|
    ensures Missing(members[..j], index) <= Missing(members, index)
  {
    if j < |members| {
      assert members[..|members| - 1][..j] == members[..j];
      MissingPrefix(members[..|members| - 1], index, j);
    } else {
      assert members[..j] == members;
    }
  }

  lemma MissingStep(members: seq<Uuid>, index: map<Uuid, Row>, j: nat)
    requires j < |members|
    ensures Missing(members[..j + 1], index) ==
            Missing(members[..j], index) + (if members[j] in index then [] else [members[j]])
  {
    assert members[..j + 1][..j] == members[..j];
  }

  /** A member without a row takes the next place in the missing list. */
  lemma NextMissing(members: seq<Uuid>, index: map<Uuid, Row>, j: nat)
    requires j < |members| && members[j] !in index
    ensures var p, all := |Missing(members[..j], index)|, Missing(members, index);
            p < |all| && all[p] == members[j]
  {
    MissingStep(members, index, j);
    MissingPrefix(members, index, j + 1);
    assert Missing(members[..j + 1], index)[|Missing(members[..j], index)|] == members[j];
  }

  lemma PlaceInPrefix(s: seq<Uuid>, p: nat, n: nat)
    requires DistinctIds(s) && p < |s| && n <= |s|
    ensures s[p] in s[..n] <==> p < n
  {
    if p < n {
      assert s[..n][p] == s[p];
    }
  }

  /** Adding rows for the first `n` missing recipients leaves exactly the others missing. */
  lemma {:induction false} MissingAfter(members: seq<Uuid>, before: map<Uuid, Row>, after: map<Uuid, Row>,
                                      n: nat, j: nat)
    requires DistinctIds(members) && j <= |members|
    requires n <= |Missing(members, before)|
    requires forall m :: m in after <==> m in before || m in Missing(members, before)[..n]
    ensures var mine := Missing(members[..j], before);
            Missing(members[..j], after) == if |mine| <= n then [] else mine[n..]
  {
    hide DistinctIds, Missing;
    if j == 0 {
      NothingMissing(members[..0], before);
      NothingMissing(members[..0], after);
    } else {
      MissingAfter(members, before, after, n, j - 1);
      MissingStep(members, before, j - 1);
      MissingStep(members, after, j - 1);
      if members[j - 1] !in before {
        MissingDistinct(members, before);
        NextMissing(members, before, j - 1);
        PlaceInPrefix(Missing(members, before), |Missing(members[..j - 1], before)|, n);
      }
    }
  }

  lemma NothingMissing(members: seq<Uuid>, index: map<Uuid, Row>)
    requires members == []
    ensures Missing(members, index) == []
  {
  }

  /** The next run's missing list is this one's with the minted prefix removed: a retry picks
      up exactly where the previous run left off. */
  lemma RetryPicksUp(cfg: Config, table: seq<Row>, env: Env)
    requires DistinctIds(env.members)
    ensures var d := Drive(cfg, table, Started, env);
            var missing := MissingOf(cfg, table, env.members);
            table <= d.0 && |d.0| - |table| <= |missing|
            && MissingOf(cfg, d.0, env.members) == missing[|d.0| - |table|..]
  {
    hide Drive, DistinctIds, MintedPrefix, MissingOf;
    RunAppends(cfg, table, env);
    MissingAfterAppend(cfg, table, env, Drive(cfg, table, Started, env).0);
  }

  /** A run adds nothing or a minted prefix. */
  lemma RunAppends(cfg: Config, table: seq<Row>, env: Env)
    requires DistinctIds(env.members)
    ensures var later := Drive(cfg, table, Started, env).0;
            table <= later
            && (later == table || MintedPrefix(cfg, MissingOf(cfg, table, env.members), env, later[|table|..]))
  {
    hide Drive, DistinctIds, MintedPrefix, MissingOf, Outcome;
    RunLeavesPrefix(cfg, table, env);
    var d := Drive(cfg, table, Started, env);
    var missing := MissingOf(cfg, table, env.members);
    if missing != [] && env.listOk {
      OutcomeRows(cfg, table, missing, env, d.0[|table|..], d.1);
    }
  }

  lemma MissingAfterAppend(cfg: Config, table: seq<Row>, env: Env, later: seq<Row>)
    requires DistinctIds(env.members) && table <= later
    requires later == table || MintedPrefix(cfg, MissingOf(cfg, table, env.members), env, later[|table|..])
    ensures var missing := MissingOf(cfg, table, env.members);
            |later| - |table| <= |missing| && MissingOf(cfg, later, env.members) == missing[|later| - |table|..]
  {
    hide DistinctIds, MintedPrefix, MissingOf;
    if later != table {
      MissingAfterRows(cfg, table, env, later[|table|..]);
      assert later == table + later[|table|..];
    }
  }

  lemma PrefixIsShort(cfg: Config, missing: seq<Uuid>, env: Env, rows: seq<Row>)
    requires MintedPrefix(cfg, missing, env, rows)
    ensures |rows| <= |missing|
  {
  }

  /** Rows for a prefix of the missing recipients leave exactly the rest missing. */
  lemma MissingAfterRows(cfg: Config, table: seq<Row>, env: Env, rows: seq<Row>)
    requires DistinctIds(env.members) && MintedPrefix(cfg, MissingOf(cfg, table, env.members), env, rows)
    ensures |rows| <= |MissingOf(cfg, table, env.members)|
    ensures MissingOf(cfg, table + rows, env.members) == MissingOf(cfg, table, env.members)[|rows|..]
  {
    hide Missing, Index, DistinctIds, MintedPrefix;
    var missing, n := MissingOf(cfg, table, env.members), |rows|;
    PrefixIsShort(cfg, missing, env, rows);
    forall m ensures m in Index(table + rows, cfg.step) <==> m in Index(table, cfg.step) || m in missing[..n] {
      IndexAfter(cfg, table, missing, env, rows, m);
    }
    MissingAfter(env.members, Index(table, cfg.step), Index(table + rows, cfg.step), n, |env.members|);
    assert env.members[..|env.members|] == env.members;
  }

  lemma OutcomeRows(cfg: Config, table: seq<Row>, missing: seq<Uuid>, env: Env, rows: seq<Row>, r: Run)
    requires Outcome(cfg, table, missing, env, rows, r)
    ensures MintedPrefix(cfg, missing, env, rows)
  {
  }

  lemma IndexAfter(cfg: Config, table: seq<Row>, missing: seq<Uuid>, env: Env, rows: seq<Row>, m: Uuid)
    requires MintedPrefix(cfg, missing, env, rows)
    ensures m in Index(table + rows, cfg.step) <==> m in Index(table, cfg.step) || m in missing[..|rows|]
  {
    hide Index, HasRow;
    LookupExact(table + rows, cfg.step, m);
    LookupExact(table, cfg.step, m);
    AppendedSlots(cfg, table, missing, env, rows, m);
  }

  lemma AppendedSlots(cfg: Config, table: seq<Row>, missing: seq<Uuid>, env: Env, rows: seq<Row>, m: Uuid)
    requires MintedPrefix(cfg, missing, env, rows)
    ensures HasRow(table + rows, cfg.step, m) <==> HasRow(table, cfg.step, m) || m in missing[..|rows|]
  {
    hide Answered, EntryAt;
    var t := table + rows;
    if HasRow(t, cfg.step, m) {
      var i :| 0 <= i < |t| && Slot(t[i], cfg.step, m);
      if i >= |table| {
        assert MintedAt(cfg, missing, env, i - |table|, rows[i - |table|]);
        assert missing[..|rows|][i - |table|] == m;
      } else {
        assert Slot(table[i], cfg.step, m);
      }
    }
    if HasRow(table, cfg.step, m) {
      HasRowGrows(table, t, cfg.step, m);
    }
    if m in missing[..|rows|] {
      var k :| 0 <= k < |rows| && missing[..|rows|][k] == m;
      assert MintedAt(cfg, missing, env, k, rows[k]);
      assert t[|table| + k] == rows[k];
      assert Slot(t[|table| + k], cfg.step, m);
    }
  }

  /** The run succeeded, or saved at least one row before it stopped. */
  ghost predicate Progresses(cfg: Config, table: seq<Row>, env: Env) {
    var d := Drive(cfg, table, Started, env);
    (d.1.Returned? && !d.1.blocked) || |d.0| > |table|
  }

  /** The first missing recipient is answered with a link. */
  predicate FirstCreated(env: Env) { Answered(env, 0) && EntryAt(env, 0).Created? }

  lemma KeptSomething(missing: seq<Uuid>, env: Env)
    requires missing != []
    ensures Kept(missing, env) > 0 <==> FirstCreated(env) && !Discarded(missing, env)
  {
    hide Clean, StopFrom;
    var c := StopAt(missing, env);
    if c > 0 {
      CleanChunksCreate(missing, env, 0, 0);
    } else if env.dub(0).Entries? {
      assert ChunkStart(0) == 0;
    }
  }

  /** What the provider and the database have to answer: the list succeeds, the first missing
      recipient gets a link, the chunk the run stops at does not discard it, and the kept rows
      are saved. */
  predicate Productive(cfg: Config, table: seq<Row>, env: Env) {
    var missing := MissingOf(cfg, table, env.members);
    missing != [] ==>
      env.listOk && FirstCreated(env) && !Discarded(missing, env) && Saves(table, env, KeptRows(cfg, missing, env))
  }

  /** With somebody missing a run progresses exactly on such answers. */
  lemma ProgressesExactly(cfg: Config, table: seq<Row>, env: Env)
    requires DistinctIds(env.members) && MissingOf(cfg, table, env.members) != []
    ensures Progresses(cfg, table, env) <==> Productive(cfg, table, env)
  {
    hide Drive, MissingOf, Insert, DistinctIds, Kept, KeptRows, ErrorAt, Discarded, FirstCreated,
      StopAt, Saves, Records;
    var missing := MissingOf(cfg, table, env.members);
    RunIsForetold(cfg, table, env);
    KeptSomething(missing, env);
    KeptIsPrefix(cfg, missing, env);
    if env.members == [] {
      NoMembersNoMissing(cfg, table);
    }
    if Kept(missing, env) == 0 {
      StopWithoutKept(missing, env);
    }
  }

  lemma StopWithoutKept(missing: seq<Uuid>, env: Env)
    requires missing != [] && Kept(missing, env) == 0
    ensures StopAt(missing, env) < |missing|
  {
    hide StopFrom;
  }

  // ---------- what a retry picks up ----------

  /** The provider minted a link for missing recipient `k` in a chunk the run asked for. */
  predicate MintedFor(missing: seq<Uuid>, env: Env, k: nat) {
    k < |missing| && ChunkStart(k) <= StopAt(missing, env) && Answered(env, k) && EntryAt(env, k).Created?
  }

  /** No link was minted and then dropped on the way to the database. */
  ghost predicate NoneDropped(missing: seq<Uuid>, env: Env) {
    forall k: nat :: MintedFor(missing, env, k) ==> k < Kept(missing, env)
  }

  /** The promise that a retry picks up exactly where the run left off: no recipient with a link
      is missing for the next run. It holds exactly when no minted link was dropped and the
      kept rows were saved. */
  lemma RetryResumesExactly(cfg: Config, table: seq<Row>, env: Env)
    requires DistinctIds(env.members) && MissingOf(cfg, table, env.members) != [] && env.listOk
    ensures var missing := MissingOf(cfg, table, env.members);
            var later := Drive(cfg, table, Started, env).0;
            (forall k: nat :: MintedFor(missing, env, k) ==> missing[k] !in MissingOf(cfg, later, env.members))
            <==> NoneDropped(missing, env) && Saves(table, env, KeptRows(cfg, missing, env))
  {
    hide Drive, MissingOf, DistinctIds, Kept, KeptRows, Saves, MintedFor, NoneDropped;
    var missing := MissingOf(cfg, table, env.members);
    var later := Drive(cfg, table, Started, env).0;
    SavedCount(cfg, table, env);
    RetryPicksUp(cfg, table, env);
    MissingHaveNoRow(cfg, table, env.members);
    DetectedIffKept(missing, env, |later| - |table|, Saves(table, env, KeptRows(cfg, missing, env)));
  }

  lemma DetectedIffKept(missing: seq<Uuid>, env: Env, n: nat, saved: bool)
    requires DistinctIds(missing) && missing != [] && n <= |missing|
    requires n == (if saved then Kept(missing, env) else 0) && (Kept(missing, env) == 0 ==> saved)
    ensures (forall k: nat :: MintedFor(missing, env, k) ==> missing[k] !in missing[n..])
            <==> NoneDropped(missing, env) && saved
  {
    hide DistinctIds, Kept, MintedFor;
    forall k: nat | MintedFor(missing, env, k) ensures k < |missing| && (missing[k] in missing[n..] <==> n <= k) {
      MintedIsMissing(missing, env, k);
      PlaceInSuffix(missing, k, n);
    }
    if Kept(missing, env) > 0 {
      FirstIsMinted(missing, env);
    }
  }

  lemma MintedIsMissing(missing: seq<Uuid>, env: Env, k: nat)
    requires MintedFor(missing, env, k)
    ensures k < |missing|
  {
  }

  lemma FirstIsMinted(missing: seq<Uuid>, env: Env)
    requires missing != [] && Kept(missing, env) > 0
    ensures MintedFor(missing, env, 0)
  {
    hide StopAt, Kept;
    KeptAreCreated(missing, env);
    assert ChunkStart(0) == 0;
  }

  lemma PlaceInSuffix(s: seq<Uuid>, p: nat, n: nat)
    requires DistinctIds(s) && p < |s| && n <= |s|
    ensures s[p] in s[n..] <==> n <= p
  {
    if n <= p {
      assert s[n..][p - n] == s[p];
    }
  }

  /** A run with somebody missing appends its kept rows or nothing. */
  lemma SavedCount(cfg: Config, table: seq<Row>, env: Env)
    requires DistinctIds(env.members) && MissingOf(cfg, table, env.members) != [] && env.listOk
    ensures var missing := MissingOf(cfg, table, env.members);
            |Drive(cfg, table, Started, env).0| - |table| ==
            if Saves(table, env, KeptRows(cfg, missing, env)) then Kept(missing, env) else 0
    ensures var missing := MissingOf(cfg, table, env.members);
            Kept(missing, env) == 0 ==> Saves(table, env, KeptRows(cfg, missing, env))
  {
    hide Drive, MissingOf, DistinctIds, Kept, MintedRows, Records, Discarded, StopAt, ErrorAt, Insert;
    var missing := MissingOf(cfg, table, env.members);
    RunIsForetold(cfg, table, env);
    KeptIsPrefix(cfg, missing, env);
    if env.members == [] {
      NoMembersNoMissing(cfg, table);
    }
  }

  /** Links are dropped exactly when the answer at the stop discards them and somebody had one, or
      when it reports an error and somebody after the failing entry had one. */
  lemma DroppedExactly(missing: seq<Uuid>, env: Env)
    ensures NoneDropped(missing, env) <==>
            var c := StopAt(missing, env);
            if Discarded(missing, env) then forall k: nat :: !MintedFor(missing, env, k)
            else c < |missing| && env.dub(c).Entries? ==>
                   forall j :: FirstBad(env.dub(c).entries) < j < |env.dub(c).entries| ==>
                     !env.dub(c).entries[j].Created?
  {
    hide StopFrom, MintedFor;
    var c := StopAt(missing, env);
    if !Discarded(missing, env) {
      if c < |missing| && env.dub(c).Entries? {
        DroppedInChunk(missing, env);
      } else {
        forall k: nat | MintedFor(missing, env, k) ensures k < c {
          NothingAfterBlock(missing, env, k);
        }
      }
    }
  }

  lemma DroppedInChunk(missing: seq<Uuid>, env: Env)
    requires StopAt(missing, env) < |missing| && env.dub(StopAt(missing, env)).Entries? && !Discarded(missing, env)
    ensures var es := env.dub(StopAt(missing, env)).entries;
            NoneDropped(missing, env) <==> forall j :: FirstBad(es) < j < |es| ==> !es[j].Created?
  {
    hide StopFrom, MintedFor;
    var c := StopAt(missing, env);
    var es := env.dub(c).entries;
    forall j | FirstBad(es) < j < |es| && NoneDropped(missing, env) ensures !es[j].Created? {
      MintedInStop(missing, env, c + j);
    }
    if forall j :: FirstBad(es) < j < |es| ==> !es[j].Created? {
      forall k: nat | MintedFor(missing, env, k) ensures k < Kept(missing, env) {
        MintedInStop(missing, env, k);
      }
    }
  }

  lemma MintedInStop(missing: seq<Uuid>, env: Env, k: nat)
    requires StopAt(missing, env) < |missing| && env.dub(StopAt(missing, env)).Entries? && !Discarded(missing, env)
    ensures var c := StopAt(missing, env);
            && (MintedFor(missing, env, k) ==> k < c + |env.dub(c).entries|)
            && (c <= k < c + |env.dub(c).entries| ==>
                  (MintedFor(missing, env, k) <==> env.dub(c).entries[k - c].Created?))
  {
    hide StopFrom, Answered, EntryAt, ChunkStart;
    var c := StopAt(missing, env);
    StopIsChunkStart(missing, env, 0);
    if MintedFor(missing, env, k) {
      AskedIsNear(missing, c, k);
    }
    if c <= k < c + |env.dub(c).entries| {
      IndexInChunk(c, k);
      ChunkIndices(missing, env, c, k);
    }
  }

  lemma AskedIsNear(missing: seq<Uuid>, c: nat, k: nat)
    requires c % CHUNK == 0 && c < |missing| && k < |missing| && ChunkStart(k) <= c
    ensures k < c + |ChunkAt(missing, c)|
  {
  }

  lemma NothingAfterBlock(missing: seq<Uuid>, env: Env, k: nat)
    requires MintedFor(missing, env, k) && (StopAt(missing, env) < |missing| ==> env.dub(StopAt(missing, env)).Refused?)
    ensures k < StopAt(missing, env)
  {
    hide StopFrom;
    var c := StopAt(missing, env);
    StopIsChunkStart(missing, env, 0);
    if c < |missing| && k >= c {
      AskedIsNear(missing, c, k);
      IndexInChunk(c, k);
    }
  }

  function Retry(cfg: Config, table: seq<Row>, envs: seq<Env>): seq<Row>
    decreases |envs|
  {
    if envs == [] then table else Retry(cfg, Drive(cfg, table, Started, envs[0]).0, envs[1..])
  }

  ghost predicate AllProgress(cfg: Config, table: seq<Row>, members: seq<Uuid>, envs: seq<Env>)
    decreases |envs|
  {
    envs == [] || (envs[0].members == members && Progresses(cfg, table, envs[0])
                   && AllProgress(cfg, Drive(cfg, table, Started, envs[0]).0, members, envs[1..]))
  }

  /** At most one progressing run per missing recipient, and nobody is missing. */
  lemma {:induction false} RetriesFinish(cfg: Config, table: seq<Row>, members: seq<Uuid>, envs: seq<Env>)
    requires DistinctIds(members) && AllProgress(cfg, table, members, envs)
    requires |envs| >= |MissingOf(cfg, table, members)|
    ensures MissingOf(cfg, Retry(cfg, table, envs), members) == []
    decreases |envs|
  {
    hide Drive, MissingOf;
    if envs != [] {
      var d := Drive(cfg, table, Started, envs[0]);
      RetryPicksUp(cfg, table, envs[0]);
      ProgressShrinks(cfg, table, envs[0]);
      RetriesFinish(cfg, d.0, members, envs[1..]);
    }
  }

  /** The runs of `envs`, each answered productively for the table the earlier ones left. */
  ghost predicate AllProductive(cfg: Config, table: seq<Row>, members: seq<Uuid>, envs: seq<Env>)
    decreases |envs|
  {
    envs == [] || (envs[0].members == members && Productive(cfg, table, envs[0])
                   && AllProductive(cfg, Drive(cfg, table, Started, envs[0]).0, members, envs[1..]))
  }

  /** So as many productive runs as there are missing recipients leave nobody missing. */
  lemma {:induction false} ProductiveRetriesFinish(cfg: Config, table: seq<Row>, members: seq<Uuid>, envs: seq<Env>)
    requires DistinctIds(members) && AllProductive(cfg, table, members, envs)
    requires |envs| >= |MissingOf(cfg, table, members)|
    ensures MissingOf(cfg, Retry(cfg, table, envs), members) == []
    decreases |envs|
  {
    hide Drive, MissingOf, Progresses, Productive;
    if envs != [] {
      var d := Drive(cfg, table, Started, envs[0]);
      RetryPicksUp(cfg, table, envs[0]);
      if MissingOf(cfg, table, members) != [] {
        ProgressesExactly(cfg, table, envs[0]);
        ProgressShrinks(cfg, table, envs[0]);
      }
      ProductiveRetriesFinish(cfg, d.0, members, envs[1..]);
    }
  }

  lemma ProgressShrinks(cfg: Config, table: seq<Row>, env: Env)
    requires DistinctIds(env.members) && Progresses(cfg, table, env)
    ensures var before := MissingOf(cfg, table, env.members);
            var after := MissingOf(cfg, Drive(cfg, table, Started, env).0, env.members);
            before == after == [] || |after| < |before|
  {
    hide Drive, MissingOf, MintedPrefix;
    RetryPicksUp(cfg, table, env);
    RunLeavesPrefix(cfg, table, env);
  }

  // ---------- a chunk minted and lost ----------

  function Link(i: nat): Entry {
    Created("link_" + Numeral(i), None, "https://dub.sh/" + Numeral(i), "", "dub.sh", Numeral(i), None, [])
  }

  /** A hundred links, then a refusal without a status, as after a network failure. */
  function LinksThenFailure(c: nat): Response {
    if c == 0 then Entries(seq(CHUNK, i requires 0 <= i < CHUNK => Link(i))) else Refused(None, "")
  }

  const CROWD: seq<Uuid> := seq(CHUNK + 1, i requires 0 <= i < CHUNK + 1 => i)

  lemma {:induction false} NobodyStored(members: seq<Uuid>)
    ensures Missing(members, map[]) == members
  {
    if members != [] {
      NobodyStored(members[..|members| - 1]);
    }
  }

  lemma StopsAtSecondChunk(env: Env)
    requires env.dub == LinksThenFailure
    ensures StopAt(CROWD, env) == CHUNK && Discards(CROWD, env, CHUNK) && !Blocks(env, CHUNK)
    ensures ErrorAt(CROWD, env, CHUNK) == TransportFailed(CHUNK)
  {
    assert Lower("") == "";
    assert |ChunkAt(CROWD, 0)| == CHUNK;
    assert Clean(CROWD, env, 0);
    assert StopFrom(CROWD, env, CHUNK) == CHUNK;
  }

  /** The docstring's promise fails: a hundred links are minted, the second chunk fails in transport,
      nothing is stored, and the retry starts from the beginning. */
  lemma FullChunkLost(cfg: Config)
    ensures var env := Env(CROWD, LinksThenFailure, true, true, true);
            && DistinctIds(CROWD) && MissingOf(cfg, [], CROWD) == CROWD
            && (forall k: nat :: k < CHUNK ==> MintedFor(CROWD, env, k))
            && Drive(cfg, [], Started, env) == ([], Raised(TransportFailed(CHUNK)))
            && MissingOf(cfg, Drive(cfg, [], Started, env).0, CROWD) == CROWD
  {
    hide Drive, StopFrom, LinksThenFailure, Missing, ErrorAt, Discards, Clean;
    var env := Env(CROWD, LinksThenFailure, true, true, true);
    assert Index([], cfg.step) == map[];
    NobodyStored(CROWD);
    StopsAtSecondChunk(env);
    forall k: nat | k < CHUNK ensures MintedFor(CROWD, env, k) {
      CleanChunksCreate(CROWD, env, 0, k);
    }
    RunIsForetold(cfg, [], env);
    KeptIsPrefix(cfg, CROWD, env);
    LostForetold(cfg, CROWD, env);
    assert |CROWD| == CHUNK + 1;
  }

  /** Whatever was minted, a discarding answer leaves the table alone. */
  lemma LostForetold(cfg: Config, missing: seq<Uuid>, env: Env)
    requires Discarded(missing, env)
    ensures forall table, members ::
              ForetoldChunks(cfg, table, members, missing, env)
              == (table, Raised(ErrorAt(missing, env, StopAt(missing, env))))
  {
    hide StopFrom, ErrorAt;
    KeptIsPrefix(cfg, missing, env);
    assert KeptRows(cfg, missing, env) == [];
    forall table: seq<Row>, members: seq<Uuid> ensures ForetoldChunks(cfg, table, members, missing, env)
              == (table, Raised(ErrorAt(missing, env, StopAt(missing, env)))) {
      assert table + [] == table;
    }
  }

  /** With nobody missing a run makes no bulk call (its end does not depend on the provider)
      and changes nothing. */
  lemma CompleteRunIsReadOnly(cfg: Config, table: seq<Row>, env: Env, other: nat -> Response)
    requires MissingOf(cfg, table, env.members) == []
    ensures var d := Drive(cfg, table, Started, env);
            d.0 == table && d == Drive(cfg, table, Started, env.(dub := other))
            && (env.listOk || env.members == [] ==>
                  d.1 == Returned(env.members, Records(env.members, Index(table, cfg.step)), false))
  {
    hide Drive, Missing, Index, Records;
    var env' := env.(dub := other);
    var r := Listed(env.members);
    DriveStep(cfg, table, Started, env);
    DriveStep(cfg, table, Started, env');
    if env.members == [] {
      DriveEnds(cfg, table, Returned([], [], false), env);
      DriveEnds(cfg, table, Returned([], [], false), env');
      NoRecords(Index(table, cfg.step));
    } else {
      DriveStep(cfg, table, r, env);
      DriveStep(cfg, table, r, env');
      DriveEnds(cfg, table, Step(cfg, table, r, InputFor(r, env)).1, env);
      DriveEnds(cfg, table, Step(cfg, table, r, InputFor(r, env')).1, env');
    }
  }

  lemma NoRecords(index: map<Uuid, Row>)
    ensures Records([], index) == []
  {
  }
}
