/** `mint_links_for_step`: a chunked, retryable protocol against an unreliable provider,
    one transition per SQL statement or provider call. */
module Minting {
  import opened Common
  import opened DubLinks

  const CHUNK := 100

  datatype Config = Config(
    step: Uuid, organization: Uuid, brand: Option<Uuid>, campaign: Uuid, channelCampaign: Uuid,
    destination: string, folder: Option<string>, createdBy: Option<Uuid>)

  // ---------- the provider's answers ----------

  /** One element of a bulk response. An empty string stands for a missing text field. */
  datatype Entry =
    | NotAnObject
    | Failed(message: string)
    | Created(id: string, externalId: Option<string>, shortLink: string, url: string, domain: string, key: string,
              folderId: Option<string>, tags: seq<string>)

  datatype Response = Refused(status: Option<int>, message: string) | Entries(entries: seq<Entry>)

  predicate Mentions(s: string, phrase: string) { exists i :: 0 <= i <= |s| && phrase <= s[i..] }

  /** A plan-tier refusal is not a failure of the step. */
  predicate PlanBlocked(status: Option<int>, message: string) {
    var msg := Lower(message);
    status == Some(403) || Mentions(msg, "monthly limit") || Mentions(msg, "need higher plan")
    || Mentions(msg, "upgrade")
  }

  function Either(a: string, b: string): string { if a != "" then a else b }

  function RowFor(cfg: Config, recipient: Uuid, e: Entry): Row
    requires e.Created?
  {
    Row(e.id, e.externalId, Either(e.shortLink, e.url), e.domain, e.key, Either(e.url, cfg.destination),
        cfg.brand, Some(cfg.step), Some(recipient), e.folderId.OrElse(cfg.folder), e.tags,
        Some(Attribution(cfg.campaign, cfg.channelCampaign, cfg.step, recipient, cfg.organization)), cfg.createdBy)
  }

  // ---------- one run ----------

  datatype Error =
    | TransportFailed(recipient: Uuid)
    | LengthMismatch
    | BadEntry(recipient: Uuid)
    | EntryFailed(recipient: Uuid, message: string)
    | PersistFailed
    | DatabaseDown

  /** What a run knows between two statements. */
  datatype Run =
    | Started
    | Listed(members: seq<Uuid>)
    | Minting(members: seq<Uuid>, missing: seq<Uuid>, next: nat, acc: seq<Row>)
    | Recovering(acc: seq<Row>, error: Error)
    | Persisting(members: seq<Uuid>, acc: seq<Row>, blocked: bool)
    | Relisting(members: seq<Uuid>, blocked: bool)
    | Returned(members: seq<Uuid>, records: seq<Row>, blocked: bool)
    | Raised(error: Error)

  /** What the outside world answers to the pending statement or call. */
  datatype Input = Pending(members: seq<Uuid>) | Answer(response: Response) | Db(ok: bool)

  function Missing(members: seq<Uuid>, index: map<Uuid, Row>): seq<Uuid> {
    if members == [] then []
    else
      var m := members[|members| - 1];
      Missing(members[..|members| - 1], index) + (if m in index then [] else [m])
  }

  /** The records of the members that have one, in membership order. */
  function Records(members: seq<Uuid>, index: map<Uuid, Row>): seq<Row> {
    if members == [] then []
    else
      var m := members[|members| - 1];
      Records(members[..|members| - 1], index) + (if m in index then [index[m]] else [])
  }

  function Index(table: seq<Row>, step: Uuid): map<Uuid, Row> { ByRecipient(RowsOf(table, step)) }

  function Min(a: nat, b: nat): nat { if a <= b then a else b }

  /** Recipients of the chunk that starts at `next`. */
  function ChunkAt(missing: seq<Uuid>, next: nat): seq<Uuid>
    requires next <= |missing|
  {
    missing[next..Min(next + CHUNK, |missing|)]
  }

  datatype Walk = AllCreated(rows: seq<Row>) | Stopped(offset: nat, rows: seq<Row>)

  /** Walk a response entry by entry, stopping at the first one that is not a link. */
  function WalkEntries(cfg: Config, chunk: seq<Uuid>, entries: seq<Entry>, n: nat): (w: Walk)
    requires |chunk| == |entries| && n <= |chunk|
    ensures w.AllCreated? ==> |w.rows| == n
    ensures w.Stopped? ==> w.offset < n && |w.rows| == w.offset && !entries[w.offset].Created?
  {
    if n == 0 then AllCreated([])
    else
      var w := WalkEntries(cfg, chunk, entries, n - 1);
      if w.Stopped? then w
      else if entries[n - 1].Created? then AllCreated(w.rows + [RowFor(cfg, chunk[n - 1], entries[n - 1])])
      else Stopped(n - 1, w.rows)
  }

  /** After a full chunk: the next one, or the final insert. */
  function Advance(members: seq<Uuid>, missing: seq<Uuid>, next: nat, acc: seq<Row>): Run {
    if next < |missing| then Minting(members, missing, next, acc) else Persisting(members, acc, false)
  }

  function AfterWalk(cfg: Config, r: Run, entries: seq<Entry>): Run
    requires r.Minting? && r.next < |r.missing| && |entries| == |ChunkAt(r.missing, r.next)|
  {
    var chunk := ChunkAt(r.missing, r.next);
    var w := WalkEntries(cfg, chunk, entries, |chunk|);
    match w
    case AllCreated(rows) => Advance(r.members, r.missing, r.next + |chunk|, r.acc + rows)
    case Stopped(offset, rows) =>
      var who := chunk[offset];
      if entries[offset].NotAnObject? then Raised(BadEntry(who))
      else
        var error := EntryFailed(who, entries[offset].message);
        if r.acc + rows == [] then Raised(error) else Recovering(r.acc + rows, error)
  }

  /** One statement or call. Returns the table after it and where the run stands. */
  function Step(cfg: Config, table: seq<Row>, r: Run, input: Input): (seq<Row>, Run) {
    match (r, input)
    case (Started, Pending(members)) => (table, if members == [] then Returned([], [], false) else Listed(members))
    case (Listed(members), Db(ok)) =>
      if !ok then (table, Raised(DatabaseDown))
      else
        var index := Index(table, cfg.step);
        var missing := Missing(members, index);
        if missing == [] then (table, Returned(members, Records(members, index), false))
        else (table, Minting(members, missing, 0, []))
    case (Minting(members, missing, next, acc), Answer(response)) =>
      if next >= |missing| then (table, r)
      else
        (match response
         case Refused(status, message) =>
           if PlanBlocked(status, message) then (table, Persisting(members, acc, true))
           else (table, Raised(TransportFailed(missing[next])))
         case Entries(entries) =>
           if |entries| != |ChunkAt(missing, next)| then (table, Raised(LengthMismatch))
           else (table, AfterWalk(cfg, r, entries)))
    case (Recovering(acc, error), Db(ok)) =>
      var t := if ok then Insert(table, acc) else Violation;
      (if t.Committed? then t.table else table, Raised(error))
    case (Persisting(members, acc, blocked), Db(ok)) =>
      if acc == [] then (table, Relisting(members, blocked))
      else
        var t := if ok then Insert(table, acc) else Violation;
        if t.Committed? then (t.table, Relisting(members, blocked)) else (table, Raised(PersistFailed))
    case (Relisting(members, blocked), Db(ok)) =>
      if !ok then (table, Raised(DatabaseDown))
      else (table, Returned(members, Records(members, Index(table, cfg.step)), blocked))
    case _ => (table, r)
  }

  predicate Ended(r: Run) { r.Returned? || r.Raised? }

  // ---------- a run on its own ----------

  /** Everything the outside answers to one undisturbed run; `dub` maps a chunk start to the
      provider's response. */
  datatype Env = Env(members: seq<Uuid>, dub: nat -> Response, listOk: bool, saveOk: bool, relistOk: bool)

  function InputFor(r: Run, env: Env): Input {
    match r
    case Started => Pending(env.members)
    case Listed(_) => Db(env.listOk)
    case Minting(_, _, next, _) => Answer(env.dub(next))
    case Relisting(_, _) => Db(env.relistOk)
    case _ => Db(env.saveOk)
  }

  /** Statements and calls left, at most. */
  function Fuel(r: Run): (nat, nat) {
    match r
    case Started => (4, 0)
    case Listed(_) => (3, 0)
    case Minting(_, missing, next, _) => (2, if next < |missing| then |missing| - next else 0)
    case Recovering(_, _) => (1, 0)
    case Persisting(_, _, _) => (1, 1)
    case Relisting(_, _) => (1, 0)
    case _ => (0, 0)
  }

  predicate Live(r: Run) { r.Minting? ==> r.next < |r.missing| }

  lemma StepBurnsFuel(cfg: Config, table: seq<Row>, r: Run, env: Env)
    requires !Ended(r) && Live(r)
    ensures var r' := Step(cfg, table, r, InputFor(r, env)).1;
            Live(r') && (Fuel(r').0 < Fuel(r).0 || (Fuel(r').0 == Fuel(r).0 && Fuel(r').1 < Fuel(r).1))
  {
    hide PlanBlocked, Index, Missing, Records, Insert, WalkEntries;
  }

  /** Run to the end. */
  function Drive(cfg: Config, table: seq<Row>, r: Run, env: Env): (seq<Row>, Run)
    requires Live(r)
    decreases Fuel(r).0, Fuel(r).1
  {
    if Ended(r) then (table, r)
    else
      StepBurnsFuel(cfg, table, r, env);
      var next := Step(cfg, table, r, InputFor(r, env));
      Drive(cfg, next.0, next.1, env)
  }

  // ---------- the code ----------

  method FindMissing(members: seq<Uuid>, index: map<Uuid, Row>) returns (missing: seq<Uuid>)
    ensures missing == Missing(members, index)
  {
    missing := [];
    for i := 0 to |members|
      invariant missing == Missing(members[..i], index)
    {
      assert members[..i + 1][..i] == members[..i];
      if members[i] !in index {
        missing := missing + [members[i]];
      }
    }
    assert members[..|members|] == members;
  }

  method CollectRecords(members: seq<Uuid>, index: map<Uuid, Row>) returns (records: seq<Row>)
    ensures records == Records(members, index)
  {
    records := [];
    for i := 0 to |members|
      invariant records == Records(members[..i], index)
    {
      assert members[..i + 1][..i] == members[..i];
      if members[i] in index {
        records := records + [index[members[i]]];
      }
    }
    assert members[..|members|] == members;
  }

  method WalkChunk(cfg: Config, chunk: seq<Uuid>, entries: seq<Entry>) returns (rows: seq<Row>, stop: Option<nat>)
    requires |chunk| == |entries|
    ensures WalkEntries(cfg, chunk, entries, |chunk|) ==
            if stop.None? then AllCreated(rows) else Stopped(stop.value, rows)
  {
    rows, stop := [], None;
    for offset := 0 to |entries|
      invariant WalkEntries(cfg, chunk, entries, offset) == AllCreated(rows)
    {
      if !entries[offset].Created? {
        StoppedStays(cfg, chunk, entries, offset + 1, |chunk|);
        return rows, Some(offset);
      }
      rows := rows + [RowFor(cfg, chunk[offset], entries[offset])];
    }
  }

  lemma {:induction false} StoppedStays(cfg: Config, chunk: seq<Uuid>, entries: seq<Entry>, m: nat, n: nat)
    requires |chunk| == |entries| && m <= n <= |chunk| && WalkEntries(cfg, chunk, entries, m).Stopped?
    ensures WalkEntries(cfg, chunk, entries, n) == WalkEntries(cfg, chunk, entries, m)
    decreases n
  {
    if m < n {
      StoppedStays(cfg, chunk, entries, m, n - 1);
    }
  }

  lemma DriveStep(cfg: Config, table: seq<Row>, r: Run, env: Env)
    requires Live(r) && !Ended(r)
    ensures var next := Step(cfg, table, r, InputFor(r, env));
            Live(next.1) && Drive(cfg, table, r, env) == Drive(cfg, next.0, next.1, env)
  {
    hide Step, InputFor, Fuel;
    StepBurnsFuel(cfg, table, r, env);
  }

  lemma DriveEnds(cfg: Config, table: seq<Row>, r: Run, env: Env)
    requires Ended(r)
    ensures Live(r) && Drive(cfg, table, r, env) == (table, r)
  {
  }

  /** The run as the source writes it: split, chunk loop, four ways out of it, insert, relist. */
  method Mint(cfg: Config, table: LinkTable, env: Env) returns (outcome: Run)
    modifies table
    ensures Ended(outcome) && (table.rows, outcome) == Drive(cfg, old(table.rows), Started, env)
  {
    hide PlanBlocked, Missing, Records, Insert, WalkEntries, ByRecipient, RowsOf, RowFor, Drive;
    ghost var rows0 := table.rows;
    ghost var goal := Drive(cfg, rows0, Started, env);
    DriveStep(cfg, rows0, Started, env);
    var members := env.members;
    if members == [] {
      DriveEnds(cfg, rows0, Returned([], [], false), env);
      return Returned([], [], false);
    }
    DriveStep(cfg, rows0, Listed(members), env);
    if !env.listOk {
      DriveEnds(cfg, rows0, Raised(DatabaseDown), env);
      return Raised(DatabaseDown);
    }
    var existing := table.ListForStep(cfg.step);
    var index := ByRecipient(existing);
    var missing := FindMissing(members, index);
    if missing == [] {
      var records := CollectRecords(members, index);
      DriveEnds(cfg, rows0, Returned(members, records, false), env);
      return Returned(members, records, false);
    }
    var acc, blocked, next := [], false, 0;
    while next < |missing|
      invariant table.rows == rows0 && !blocked
      invariant goal == Drive(cfg, rows0, Advance(members, missing, next, acc), env)
      decreases |missing| - next
    {
      var chunk := ChunkAt(missing, next);
      var response := env.dub(next);
      DriveStep(cfg, rows0, Minting(members, missing, next, acc), env);
      if response.Refused? {
        if PlanBlocked(response.status, response.message) {
          blocked := true;
          break;
        }
        DriveEnds(cfg, rows0, Raised(TransportFailed(missing[next])), env);
        return Raised(TransportFailed(missing[next]));
      }
      var entries := response.entries;
      if |entries| != |chunk| {
        DriveEnds(cfg, rows0, Raised(LengthMismatch), env);
        return Raised(LengthMismatch);
      }
      var minted, stop := WalkChunk(cfg, chunk, entries);
      acc := acc + minted;
      if stop.Some? {
        var who := chunk[stop.value];
        if entries[stop.value].NotAnObject? {
          DriveEnds(cfg, rows0, Raised(BadEntry(who)), env);
          return Raised(BadEntry(who));
        }
        var error := EntryFailed(who, entries[stop.value].message);
        if acc != [] {
          DriveStep(cfg, rows0, Recovering(acc, error), env);
          var saved, created := table.BulkInsert(acc, env.saveOk);
        }
        DriveEnds(cfg, table.rows, Raised(error), env);
        return Raised(error);
      }
      next := next + |chunk|;
    }
    DriveStep(cfg, rows0, Persisting(members, acc, blocked), env);
    var saved, created := table.BulkInsert(acc, env.saveOk);
    if !saved {
      DriveEnds(cfg, rows0, Raised(PersistFailed), env);
      return Raised(PersistFailed);
    }
    DriveStep(cfg, table.rows, Relisting(members, blocked), env);
    if !env.relistOk {
      DriveEnds(cfg, table.rows, Raised(DatabaseDown), env);
      return Raised(DatabaseDown);
    }
    var final := table.ListForStep(cfg.step);
    var records := CollectRecords(members, ByRecipient(final));
    outcome := Returned(members, records, blocked);
    DriveEnds(cfg, table.rows, outcome, env);
  }
}
