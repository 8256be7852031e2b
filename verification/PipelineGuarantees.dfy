/** What holds of every driver run, whatever the agents, the clock and the tables answer. */
module PipelineGuarantees {
  import opened Common
  import opened Pipeline

  // ---------- stored status, result and call count ----------

  /** The stored status follows from how the run ended. */
  predicate StatusMatches(status: Stored, e: Ending) {
    match e
    case Escaped => status == Running
    case Finished(t, failedAt) =>
      && (status == Completed <==> t == AllDone)
      && (status == Running <==> t == WallClockTimeout)
      && (status == Failed <==> t != AllDone && t != WallClockTimeout)
      && (failedAt == None <==> t == AllDone)
  }

  lemma AttemptStatus(w: World, st: State, p: Pair, attempt: nat, last: Value)
    requires st.status == Running
    ensures var (after, flow) := Attempt(w, st, p, attempt, last);
            && (flow.Stop? ==> StatusMatches(after.status, flow.ending) && flow.ending != Finished(AllDone, None))
            && (!flow.Stop? ==> after.status == Running)
            && |st.log| <= |after.log| <= |st.log| + 2
  {
  }

  lemma {:induction false} AttemptsStatus(w: World, st: State, p: Pair, attempt: nat, last: Value)
    requires st.status == Running && attempt <= MAX_VERDICT_RETRIES + 1
    ensures var (after, flow) := Attempts(w, st, p, attempt, last);
            && !flow.NotShipped?
            && (flow.Stop? ==> StatusMatches(after.status, flow.ending) && flow.ending != Finished(AllDone, None))
            && (flow.Shipped? ==> after.status == Running)
            && |st.log| <= |after.log| <= |st.log| + 2 * (MAX_VERDICT_RETRIES + 1 - attempt)
    decreases MAX_VERDICT_RETRIES + 1 - attempt
  {
    hide Attempt;
    if attempt <= MAX_VERDICT_RETRIES {
      AttemptStatus(w, st, p, attempt, last);
      var (after, flow) := Attempt(w, st, p, attempt, last);
      if flow.NotShipped? {
        AttemptsStatus(w, after, p, attempt + 1, flow.last);
      }
    }
  }

  /** Foundation: the stored status is exact, and a step costs at most four agent runs. */
  lemma {:induction false} FoundationStatus(w: World, st: State, steps: seq<Pair>, i: nat, deadline: int)
    requires i <= |steps| && st.status == Running
    ensures var (after, e) := Foundation(w, st, steps, i, deadline);
            StatusMatches(after.status, e) && |after.log| <= |st.log| + 4 * (|steps| - i)
    decreases |steps| - i
  {
    hide Attempts;
    if i < |steps| && w.clock(st.log, i + 1) <= deadline {
      AttemptsStatus(w, st, steps[i], 0, Null);
      var (after, flow) := Attempts(w, st, steps[i], 0, Null);
      if flow.Shipped? {
        FoundationStatus(w, after, steps, i + 1, deadline);
      }
    }
  }

  /** Agent runs that are not part of a fan-out. */
  function PlainCalls(log: seq<Event>): nat {
    if log == [] then 0
    else PlainCalls(log[..|log| - 1]) + (if log[|log| - 1].call.target.None? then 1 else 0)
  }

  lemma {:induction false} PlainCallsBound(log: seq<Event>)
    ensures PlainCalls(log) <= |log|
  {
    if log != [] {
      PlainCallsBound(log[..|log| - 1]);
    }
  }

  lemma FanOneQuiet(w: World, st: State, p: Pair, t: Target)
    ensures var (after, s) := FanOne(w, st, p, t);
            after.status == st.status && after.upstream == st.upstream && after.runs == st.runs
            && PlainCalls(after.log) == PlainCalls(st.log)
  {
    hide PlainCalls;
    var e1 := Event(Call(p.actor, None, st.upstream, Some(t)),
                   w.answer(st.log, Call(p.actor, None, st.upstream, Some(t))));
    var asked := st.(log := st.log + [e1]);
    PlainSnoc(st.log, e1);
    if e1.answer.Done? {
      var c2 := Call(p.verdict, None, st.upstream[p.actor := e1.answer.value], Some(t));
      PlainSnoc(asked.log, Event(c2, w.answer(asked.log, c2)));
    }
  }

  lemma PlainSnoc(log: seq<Event>, e: Event)
    ensures PlainCalls(log + [e]) == PlainCalls(log) + (if e.call.target.None? then 1 else 0)
  {
    assert (log + [e])[..|log|] == log;
  }

  lemma {:induction false} FanManyQuiet(w: World, st: State, p: Pair, ts: seq<Target>, n: nat)
    requires n <= |ts|
    ensures var (after, rs) := FanMany(w, st, p, ts, n);
            after.status == st.status && after.upstream == st.upstream && after.runs == st.runs
            && PlainCalls(after.log) == PlainCalls(st.log)
  {
    hide FanOne, PlainCalls;
    if n > 0 {
      FanManyQuiet(w, st, p, ts, n - 1);
      FanOneQuiet(w, FanMany(w, st, p, ts, n - 1).0, p, ts[n - 1]);
    }
  }

  lemma FanOutStatus(w: World, st: State, p: Pair)
    requires st.status == Running
    ensures var (after, e) := FanOut(w, st, p);
            StatusMatches(after.status, e) && after.upstream == st.upstream
            && PlainCalls(after.log) == PlainCalls(st.log)
  {
    hide FanMany, PlainCalls, Failures, FailureRate;
    var ts := Targets(w.recipients(st.log), w.dmSteps(st.log));
    if ts != [] {
      FanManyQuiet(w, st, p, ts, |ts|);
    }
  }

  lemma {:induction false} PlainCallsGrow(log: seq<Event>, more: seq<Event>)
    requires log <= more
    ensures PlainCalls(log) <= PlainCalls(more) <= PlainCalls(log) + (|more| - |log|)
    decreases |more|
  {
    if log != more {
      PlainCallsGrow(log, more[..|more| - 1]);
    } else {
      assert log == more;
    }
  }

  lemma AttemptExtends(w: World, st: State, p: Pair, attempt: nat, last: Value)
    ensures st.log <= Attempt(w, st, p, attempt, last).0.log
  {
  }

  lemma {:induction false} AttemptsExtend(w: World, st: State, p: Pair, attempt: nat, last: Value)
    ensures st.log <= Attempts(w, st, p, attempt, last).0.log
    decreases MAX_VERDICT_RETRIES + 1 - attempt
  {
    hide Attempt;
    if attempt <= MAX_VERDICT_RETRIES {
      AttemptExtends(w, st, p, attempt, last);
      var (after, flow) := Attempt(w, st, p, attempt, last);
      if flow.NotShipped? {
        AttemptsExtend(w, after, p, attempt + 1, flow.last);
      }
    }
  }

  /** Materializer: the same, counting the agent runs outside the fan-out. */
  lemma {:induction false} MaterializerStatus(w: World, st: State, steps: seq<Pair>, i: nat, deadline: int)
    requires i <= |steps| && st.status == Running
    ensures var (after, e) := Materializer(w, st, steps, i, deadline);
            StatusMatches(after.status, e) && PlainCalls(after.log) <= PlainCalls(st.log) + 4 * (|steps| - i)
    decreases |steps| - i
  {
    hide Attempts, FanOut, PlainCalls;
    if i < |steps| && w.clock(st.log, i + 1) <= deadline {
      if steps[i].isFanout {
        FanOutStatus(w, st, steps[i]);
      } else {
        AttemptsStatus(w, st, steps[i], 0, Null);
        AttemptsExtend(w, st, steps[i], 0, Null);
        var (after, flow) := Attempts(w, st, steps[i], 0, Null);
        PlainCallsGrow(st.log, after.log);
        if flow.Shipped? {
          MaterializerStatus(w, after, steps, i + 1, deadline);
        }
      }
    }
  }

  /** In every run of either driver the stored status is `completed` exactly when the result
      is, stays `running` exactly on a timeout or an escaping exception, and is `failed`
      otherwise; `failed_at_slug` is null exactly on completion. */
  lemma StoredStatusIsExact(w: World, steps: seq<Pair>)
    ensures var (f, fe) := RunFoundation(w, steps);
            StatusMatches(f.status, fe) && |f.log| <= 4 * |steps|
    ensures var (m, me) := RunMaterializer(w, steps);
            StatusMatches(m.status, me) && PlainCalls(m.log) <= 4 * |steps|
  {
    hide Foundation, Materializer;
    FoundationStatus(w, START, steps, 0, w.clock([], 0) + FOUNDATION_LIMIT);
    MaterializerStatus(w, START, steps, 0, w.clock([], 0) + MATERIALIZER_LIMIT);
  }

  // ---------- the transcript of one step ----------

  /** The last event of a step and how the step ended. */
  predicate EndsWith(p: Pair, e: Event, verdict: bool, flow: Flow) {
    match e.answer
    case Crash => flow == Stop(Escaped)
    case StepError =>
      flow == Stop(Finished(if verdict then VerdictError else ActorError, Some(e.call.slug)))
    case Done(status, value) =>
      if status != SUCCEEDED then
        flow == Stop(Finished(if verdict then VerdictFailed else ActorFailed, Some(e.call.slug)))
      else verdict && flow == if Ships(value) then Shipped else Stop(Finished(VerdictBlocked, Some(p.actor)))
  }

  /** Actor and verdict alternate; the second actor call happens exactly after a verdict that
      succeeded without shipping, and carries that verdict's redo text. */
  ghost predicate Transcript(p: Pair, evs: seq<Event>, flow: Flow) {
    && 1 <= |evs| <= 4
    && (forall k :: 0 <= k < |evs| ==>
          evs[k].call.slug == (if k % 2 == 0 then p.actor else p.verdict) && evs[k].call.target.None?)
    && (forall k :: 0 <= k < |evs| ==>
          evs[k].call.hint == if k == 2 then Redo(evs[1].answer) else None)
    && (forall k :: 0 <= k < |evs| - 1 ==> Succeeded(evs[k].answer))
    && (|evs| > 2 ==> !Ships(evs[1].answer.value))
    && EndsWith(p, evs[|evs| - 1], |evs| % 2 == 0, flow)
    && (flow == Stop(Finished(VerdictBlocked, Some(p.actor))) ==> |evs| == 4)
  }

  predicate Succeeded(a: Answer) { a.Done? && a.status == SUCCEEDED }

  function Redo(a: Answer): Option<string> { if a.Done? && a.value.Dict? then a.value.redo else None }

  /** The one or two events of an attempt. */
  ghost predicate AttemptEvs(p: Pair, evs: seq<Event>, hint: Option<string>, flow: Flow) {
    && 1 <= |evs| <= 2
    && evs[0].call.slug == p.actor && evs[0].call.target.None? && evs[0].call.hint == hint
    && (|evs| == 2 ==>
          Succeeded(evs[0].answer)
          && evs[1].call.slug == p.verdict && evs[1].call.target.None? && evs[1].call.hint == None)
    && flow != Stop(Finished(VerdictBlocked, Some(p.actor)))
    && if flow.NotShipped? then
         |evs| == 2 && Succeeded(evs[1].answer) && !Ships(evs[1].answer.value)
         && HintFor(1, flow.last) == Redo(evs[1].answer)
       else EndsWith(p, evs[|evs| - 1], |evs| == 2, flow)
  }

  lemma AttemptTranscript(w: World, st: State, p: Pair, attempt: nat, last: Value)
    ensures var (after, flow) := Attempt(w, st, p, attempt, last);
            st.log <= after.log && AttemptEvs(p, after.log[|st.log|..], HintFor(attempt, last), flow)
  {
  }

  lemma TwoAttempts(p: Pair, one: seq<Event>, two: seq<Event>, mid: Flow, flow: Flow)
    requires AttemptEvs(p, one, None, mid) && mid.NotShipped? && AttemptEvs(p, two, HintFor(1, mid.last), flow)
    ensures Transcript(p, one + two, if flow.NotShipped? then Stop(Finished(VerdictBlocked, Some(p.actor))) else flow)
  {
    var evs := one + two;
    assert evs[0] == one[0] && evs[1] == one[1] && evs[2] == two[0];
    assert |two| == 2 ==> evs[3] == two[1];
  }

  /** Every run of a step has such a transcript. */
  lemma StepTranscript(w: World, st: State, p: Pair)
    ensures var (after, flow) := Attempts(w, st, p, 0, Null);
            st.log <= after.log && Transcript(p, after.log[|st.log|..], flow)
  {
    hide Attempt, AttemptEvs, Transcript, EndsWith;
    AttemptTranscript(w, st, p, 0, Null);
    var (mid, flow) := Attempt(w, st, p, 0, Null);
    var one := mid.log[|st.log|..];
    if flow.NotShipped? {
      AttemptTranscript(w, mid, p, 1, flow.last);
      var (after, second) := Attempt(w, mid, p, 1, flow.last);
      var two := after.log[|mid.log|..];
      TwoAttempts(p, one, two, flow, second);
      assert after.log[|st.log|..] == one + two;
      assert Attempts(w, mid, p, 1, flow.last) ==
             if second.NotShipped? then FailWith(after, VerdictBlocked, p.actor) else (after, second);
    } else {
      OneAttempt(p, one, flow);
    }
  }

  lemma OneAttempt(p: Pair, evs: seq<Event>, flow: Flow)
    requires AttemptEvs(p, evs, None, flow) && !flow.NotShipped?
    ensures Transcript(p, evs, flow)
  {
  }

  // ---------- the upstream mapping ----------

  /** Actor and verdict slugs are all different. */
  ghost predicate DistinctSlugs(steps: seq<Pair>) {
    && (forall i :: 0 <= i < |steps| ==> steps[i].actor != steps[i].verdict)
    && (forall i, j :: 0 <= i < j < |steps| ==>
          && steps[i].actor != steps[j].actor && steps[i].actor != steps[j].verdict
          && steps[i].verdict != steps[j].actor && steps[i].verdict != steps[j].verdict)
  }

  function SlugsBefore(steps: seq<Pair>, i: nat): set<string>
    requires i <= |steps|
  {
    if i == 0 then {} else SlugsBefore(steps, i - 1) + {steps[i - 1].actor, steps[i - 1].verdict}
  }

  function Verdicts(steps: seq<Pair>): set<string> { set p | p in steps :: p.verdict }

  /** What an answered call adds to the mapping: an actor's output as it is, a verdict only
      when it ships. Fan-out calls add nothing. */
  function Contribution(verdicts: set<string>, up: Upstream, e: Event): Upstream {
    if e.call.target.Some? || !e.answer.Done? || e.answer.status != SUCCEEDED then up
    else if e.call.slug !in verdicts then up[e.call.slug := e.answer.value]
    else if Ships(OrEmpty(e.answer.value)) then up[e.call.slug := OrEmpty(e.answer.value)]
    else up
  }

  /** The mapping a log of answered calls amounts to. */
  function Replay(verdicts: set<string>, log: seq<Event>): Upstream {
    if log == [] then map[]
    else Contribution(verdicts, Replay(verdicts, log[..|log| - 1]), log[|log| - 1])
  }

  /** What call `k` of a log was given: the replay of everything before it; a fan-out verdict
      sees its own target's actor output on top, and nothing of any other target. */
  ghost predicate SeesReplay(verdicts: set<string>, log: seq<Event>, k: nat)
    requires k < |log|
  {
    var c := log[k].call;
    var base := Replay(verdicts, log[..k]);
    if c.target.None? || c.slug !in verdicts then c.upstream == base
    else
      && k > 0 && log[k - 1].call.target == c.target && log[k - 1].answer.Done?
      && c.upstream == base[log[k - 1].call.slug := log[k - 1].answer.value]
  }

  ghost predicate Faithful(verdicts: set<string>, st: State) {
    st.upstream == Replay(verdicts, st.log) && forall k :: 0 <= k < |st.log| ==> SeesReplay(verdicts, st.log, k)
  }

  lemma ReplaySnoc(verdicts: set<string>, log: seq<Event>, e: Event)
    ensures Replay(verdicts, log + [e]) == Contribution(verdicts, Replay(verdicts, log), e)
  {
    assert (log + [e])[..|log|] == log;
  }

  lemma SeesReplaySnoc(verdicts: set<string>, log: seq<Event>, e: Event)
    requires forall k :: 0 <= k < |log| ==> SeesReplay(verdicts, log, k)
    requires SeesReplay(verdicts, log + [e], |log|)
    ensures forall k :: 0 <= k < |log + [e]| ==> SeesReplay(verdicts, log + [e], k)
  {
    hide Replay;
    var longer := log + [e];
    forall k | 0 <= k < |longer| ensures SeesReplay(verdicts, longer, k) {
      if k < |log| {
        assert SeesReplay(verdicts, log, k);
        assert longer[..k] == log[..k];
      }
    }
  }

  /** One plain call keeps the log faithful, once its contribution is written. */
  lemma PlainAskFaithful(verdicts: set<string>, st: State, e: Event, after: State)
    requires Faithful(verdicts, st) && e.call.target.None? && e.call.upstream == st.upstream
    requires after.log == st.log + [e] && after.upstream == Contribution(verdicts, st.upstream, e)
    ensures Faithful(verdicts, after)
  {
    hide Contribution, Replay;
    ReplaySnoc(verdicts, st.log, e);
    assert (st.log + [e])[..|st.log|] == st.log;
    SeesReplaySnoc(verdicts, st.log, e);
  }

  lemma AttemptFaithful(verdicts: set<string>, w: World, st: State, p: Pair, attempt: nat, last: Value)
    requires Faithful(verdicts, st) && p.actor !in verdicts && p.verdict in verdicts
    ensures Faithful(verdicts, Attempt(w, st, p, attempt, last).0)
  {
    hide Faithful;
    var c := Call(p.actor, HintFor(attempt, last), st.upstream, None);
    var e := Event(c, w.answer(st.log, c));
    var mid := State(Contribution(verdicts, st.upstream, e), [], Running, st.log + [e]);
    PlainAskFaithful(verdicts, st, e, mid);
    FaithfulIgnores(verdicts, mid, Attempt(w, st, p, attempt, last).0);
    if e.answer.Done? && e.answer.status == SUCCEEDED {
      var seen := Recorded(Ask(w, st, c).0, p.actor, e.answer.status);
      var next := seen.(upstream := seen.upstream[p.actor := e.answer.value]);
      FaithfulIgnores(verdicts, mid, next);
      VerdictFaithful(verdicts, w, next, p);
    }
  }

  lemma VerdictFaithful(verdicts: set<string>, w: World, st: State, p: Pair)
    requires Faithful(verdicts, st) && p.verdict in verdicts
    ensures Faithful(verdicts, VerdictPart(w, st, p).0)
  {
    hide Faithful;
    var c := Call(p.verdict, None, st.upstream, None);
    var e := Event(c, w.answer(st.log, c));
    PlainAskFaithful(verdicts, st, e, VerdictPart(w, st, p).0);
  }

  lemma FaithfulIgnores(verdicts: set<string>, a: State, b: State)
    requires Faithful(verdicts, a)
    ensures a.log == b.log && a.upstream == b.upstream ==> Faithful(verdicts, b)
  {
  }

  lemma {:induction false} AttemptsFaithful(verdicts: set<string>, w: World, st: State, p: Pair,
                                          attempt: nat, last: Value)
    requires Faithful(verdicts, st) && p.actor !in verdicts && p.verdict in verdicts
    ensures Faithful(verdicts, Attempts(w, st, p, attempt, last).0)
    decreases MAX_VERDICT_RETRIES + 1 - attempt
  {
    hide Attempt, Faithful;
    FaithfulIgnores(verdicts, st, Attempts(w, st, p, attempt, last).0);
    if attempt <= MAX_VERDICT_RETRIES {
      AttemptFaithful(verdicts, w, st, p, attempt, last);
      var (after, flow) := Attempt(w, st, p, attempt, last);
      if flow.NotShipped? {
        AttemptsFaithful(verdicts, w, after, p, attempt + 1, flow.last);
      }
    }
  }

  /** A fan-out call leaves the mapping alone. */
  lemma FanAskFaithful(verdicts: set<string>, log: seq<Event>, up: Upstream, e: Event)
    requires Faithful(verdicts, State(up, [], Running, log)) && e.call.target.Some?
    requires SeesReplay(verdicts, log + [e], |log|)
    ensures Faithful(verdicts, State(up, [], Running, log + [e]))
  {
    hide SeesReplay, Replay;
    ReplaySnoc(verdicts, log, e);
    SeesReplaySnoc(verdicts, log, e);
  }

  lemma FanOneFaithful(verdicts: set<string>, w: World, st: State, p: Pair, t: Target)
    requires Faithful(verdicts, st) && p.actor !in verdicts && p.verdict in verdicts
    ensures Faithful(verdicts, FanOne(w, st, p, t).0)
  {
    hide Faithful;
    var c := Call(p.actor, None, st.upstream, Some(t));
    var e := Event(c, w.answer(st.log, c));
    FaithfulIgnores(verdicts, st, State(st.upstream, [], Running, st.log));
    FirstFanSees(verdicts, st, e);
    FanAskFaithful(verdicts, st.log, st.upstream, e);
    var log1 := st.log + [e];
    FaithfulIgnores(verdicts, State(st.upstream, [], Running, log1), FanOne(w, st, p, t).0);
    if e.answer.Done? && e.answer.status == SUCCEEDED {
      var c2 := Call(p.verdict, None, st.upstream[p.actor := e.answer.value], Some(t));
      var e2 := Event(c2, w.answer(log1, c2));
      SecondFanSees(verdicts, st, e, e2);
      FanAskFaithful(verdicts, log1, st.upstream, e2);
      FaithfulIgnores(verdicts, State(st.upstream, [], Running, log1 + [e2]), FanOne(w, st, p, t).0);
    }
  }

  lemma FirstFanSees(verdicts: set<string>, st: State, e: Event)
    requires Faithful(verdicts, st) && e.call.slug !in verdicts && e.call.upstream == st.upstream
    ensures SeesReplay(verdicts, st.log + [e], |st.log|)
  {
    assert (st.log + [e])[..|st.log|] == st.log;
  }

  lemma SecondFanSees(verdicts: set<string>, st: State, e: Event, e2: Event)
    requires Faithful(verdicts, st) && e.call.target.Some? && e.answer.Done? && e2.call.target == e.call.target
    requires e2.call.slug in verdicts && e2.call.upstream == st.upstream[e.call.slug := e.answer.value]
    ensures SeesReplay(verdicts, st.log + [e] + [e2], |st.log| + 1)
  {
    hide Replay;
    ReplaySnoc(verdicts, st.log, e);
    assert (st.log + [e] + [e2])[..|st.log| + 1] == st.log + [e];
  }

  lemma {:induction false} FanManyFaithful(verdicts: set<string>, w: World, st: State, p: Pair, ts: seq<Target>, n: nat)
    requires Faithful(verdicts, st) && p.actor !in verdicts && p.verdict in verdicts && n <= |ts|
    ensures Faithful(verdicts, FanMany(w, st, p, ts, n).0)
  {
    hide Faithful, FanOne;
    if n > 0 {
      FanManyFaithful(verdicts, w, st, p, ts, n - 1);
      FanOneFaithful(verdicts, w, FanMany(w, st, p, ts, n - 1).0, p, ts[n - 1]);
    }
  }

  lemma FanOutFaithful(verdicts: set<string>, w: World, st: State, p: Pair)
    requires Faithful(verdicts, st) && p.actor !in verdicts && p.verdict in verdicts
    ensures Faithful(verdicts, FanOut(w, st, p).0)
  {
    hide Faithful, FanMany, Failures, FailureRate;
    var ts := Targets(w.recipients(st.log), w.dmSteps(st.log));
    FaithfulIgnores(verdicts, st, FanOut(w, st, p).0);
    if ts != [] {
      FanManyFaithful(verdicts, w, st, p, ts, |ts|);
      FaithfulIgnores(verdicts, FanMany(w, st, p, ts, |ts|).0, FanOut(w, st, p).0);
    }
  }

  lemma RolesAreClear(steps: seq<Pair>, i: nat)
    requires DistinctSlugs(steps) && i < |steps|
    ensures steps[i].actor !in Verdicts(steps) && steps[i].verdict in Verdicts(steps)
  {
    assert steps[i] in steps;
  }

  lemma {:induction false} FoundationFaithful(w: World, st: State, steps: seq<Pair>, i: nat, deadline: int)
    requires i <= |steps| && DistinctSlugs(steps) && Faithful(Verdicts(steps), st)
    ensures Faithful(Verdicts(steps), Foundation(w, st, steps, i, deadline).0)
    decreases |steps| - i
  {
    hide Attempts, Faithful, DistinctSlugs, Verdicts;
    FaithfulIgnores(Verdicts(steps), st, Foundation(w, st, steps, i, deadline).0);
    if i < |steps| {
      RolesAreClear(steps, i);
      AttemptsFaithful(Verdicts(steps), w, st, steps[i], 0, Null);
      var (after, flow) := Attempts(w, st, steps[i], 0, Null);
      if !flow.Stop? {
        FoundationFaithful(w, after, steps, i + 1, deadline);
      }
    }
  }

  lemma {:induction false} MaterializerFaithful(w: World, st: State, steps: seq<Pair>, i: nat, deadline: int)
    requires i <= |steps| && DistinctSlugs(steps) && Faithful(Verdicts(steps), st)
    ensures Faithful(Verdicts(steps), Materializer(w, st, steps, i, deadline).0)
    decreases |steps| - i
  {
    hide Attempts, FanOut, Faithful, DistinctSlugs, Verdicts;
    FaithfulIgnores(Verdicts(steps), st, Materializer(w, st, steps, i, deadline).0);
    if i < |steps| {
      RolesAreClear(steps, i);
      if steps[i].isFanout {
        FanOutFaithful(Verdicts(steps), w, st, steps[i]);
      } else {
        AttemptsFaithful(Verdicts(steps), w, st, steps[i], 0, Null);
        var (after, flow) := Attempts(w, st, steps[i], 0, Null);
        if !flow.Stop? {
          MaterializerFaithful(w, after, steps, i + 1, deadline);
        }
      }
    }
  }

  /** In every run each agent is given exactly what the answered calls before it amount to:
      actor outputs and shipped verdicts, never a refused verdict, never a failed run, and in
      the fan-out never anything of another target. */
  lemma EveryCallSeesTheReplay(w: World, steps: seq<Pair>)
    requires DistinctSlugs(steps)
    ensures Faithful(Verdicts(steps), RunFoundation(w, steps).0)
    ensures Faithful(Verdicts(steps), RunMaterializer(w, steps).0)
  {
    hide Foundation, Materializer, Verdicts;
    FoundationFaithful(w, START, steps, 0, w.clock([], 0) + FOUNDATION_LIMIT);
    MaterializerFaithful(w, START, steps, 0, w.clock([], 0) + MATERIALIZER_LIMIT);
  }

  // ---------- what a step starts from, and what completion means ----------

  /** The mapping holds exactly the slugs of the first `i` steps, and every verdict ships. */
  ghost predicate Opening(steps: seq<Pair>, i: nat, up: Upstream)
    requires i <= |steps|
  {
    up.Keys == SlugsBefore(steps, i) && forall j :: 0 <= j < i ==> steps[j].verdict in up && Ships(up[steps[j].verdict])
  }

  ghost predicate OnlySlugs(log: seq<Event>, slugs: set<string>) {
    forall k :: 0 <= k < |log| ==> log[k].call.slug in slugs
  }

  /** Event `k` is the first call of its slug. */
  ghost predicate FirstCall(log: seq<Event>, k: nat)
    requires k < |log|
  {
    forall j :: 0 <= j < k ==> log[j].call.slug != log[k].call.slug
  }

  /** Whenever an actor is called for the first time, all earlier steps have shipped and
      nothing else is in the mapping. */
  ghost predicate FirstAttemptsOpen(steps: seq<Pair>, log: seq<Event>) {
    forall k, i :: 0 <= k < |log| && 0 <= i < |steps| && log[k].call.slug == steps[i].actor && FirstCall(log, k) ==>
      Opening(steps, i, log[k].call.upstream)
  }

  /** New events of one pair: its slugs only, beginning with the actor on `up`. */
  ghost predicate PairEvents(p: Pair, up: Upstream, before: seq<Event>, after: seq<Event>) {
    && before <= after
    && (forall k :: |before| <= k < |after| ==> after[k].call.slug == p.actor || after[k].call.slug == p.verdict)
    && (|before| < |after| ==> after[|before|].call.slug == p.actor && after[|before|].call.upstream == up)
  }

  lemma VerdictEvents(w: World, st: State, p: Pair)
    ensures var (after, flow) := VerdictPart(w, st, p);
            && st.log <= after.log && |after.log| == |st.log| + 1 && after.log[|st.log|].call.slug == p.verdict
            && (if flow.Shipped? then
                  p.verdict in after.upstream && Ships(after.upstream[p.verdict])
                  && after.upstream == st.upstream[p.verdict := after.upstream[p.verdict]]
                else after.upstream == st.upstream)
  {
  }

  lemma AttemptEvents(w: World, st: State, p: Pair, attempt: nat, last: Value)
    requires p.actor != p.verdict
    ensures var (after, flow) := Attempt(w, st, p, attempt, last);
            && PairEvents(p, st.upstream, st.log, after.log) && |after.log| > |st.log|
            && (flow.Shipped? ==>
                  && p.verdict in after.upstream && Ships(after.upstream[p.verdict])
                  && after.upstream.Keys == st.upstream.Keys + {p.actor, p.verdict}
                  && forall s :: s in st.upstream && s != p.actor && s != p.verdict ==>
                       after.upstream[s] == st.upstream[s])
            && (!flow.Shipped? ==>
                  && (forall s :: s in st.upstream && s != p.actor ==>
                      s in after.upstream && after.upstream[s] == st.upstream[s])
                  && (after.upstream == st.upstream || after.upstream.Keys == st.upstream.Keys + {p.actor}))
  {
    hide VerdictPart, Ships;
    var (asked, a) := Ask(w, st, Call(p.actor, HintFor(attempt, last), st.upstream, None));
    if a.Done? && a.status == SUCCEEDED {
      VerdictEvents(w, Recorded(asked, p.actor, a.status).(upstream := st.upstream[p.actor := a.value]), p);
    }
  }

  lemma {:induction false} AttemptsEvents(w: World, st: State, p: Pair, attempt: nat, last: Value)
    requires p.actor != p.verdict
    ensures var (after, flow) := Attempts(w, st, p, attempt, last);
            && PairEvents(p, st.upstream, st.log, after.log)
            && (flow.Shipped? ==>
                  && p.verdict in after.upstream && Ships(after.upstream[p.verdict])
                  && after.upstream.Keys == st.upstream.Keys + {p.actor, p.verdict}
                  && forall s :: s in st.upstream && s != p.actor && s != p.verdict ==>
                       after.upstream[s] == st.upstream[s])
    decreases MAX_VERDICT_RETRIES + 1 - attempt
  {
    hide Attempt, Ships;
    if attempt <= MAX_VERDICT_RETRIES {
      AttemptEvents(w, st, p, attempt, last);
      var (after, flow) := Attempt(w, st, p, attempt, last);
      if flow.NotShipped? {
        AttemptsEvents(w, after, p, attempt + 1, flow.last);
      }
    }
  }

  lemma {:induction false} SlugsBeforeHas(steps: seq<Pair>, i: nat, j: nat)
    requires j < i <= |steps|
    ensures steps[j].actor in SlugsBefore(steps, i) && steps[j].verdict in SlugsBefore(steps, i)
    decreases i
  {
    if j < i - 1 {
      SlugsBeforeHas(steps, i - 1, j);
    }
  }

  /** Slugs of later steps are not among the earlier ones. */
  lemma {:induction false} SlugsBeforeLacks(steps: seq<Pair>, i: nat, j: nat)
    requires i <= j < |steps| && DistinctSlugs(steps)
    ensures steps[j].actor !in SlugsBefore(steps, i) && steps[j].verdict !in SlugsBefore(steps, i)
    decreases i
  {
    if i > 0 {
      SlugsBeforeLacks(steps, i - 1, j);
    }
  }

  /** Where a run stands between two steps. */
  ghost predicate AtStep(steps: seq<Pair>, i: nat, st: State)
    requires i <= |steps|
  {
    Opening(steps, i, st.upstream) && OnlySlugs(st.log, SlugsBefore(steps, i)) && FirstAttemptsOpen(steps, st.log)
  }

  lemma SlugsDiffer(steps: seq<Pair>, i: nat, j: nat)
    requires DistinctSlugs(steps) && i < |steps| && j < |steps| && i != j
    ensures steps[j].actor != steps[i].actor && steps[j].actor != steps[i].verdict
    ensures steps[j].verdict != steps[i].actor && steps[j].verdict != steps[i].verdict
  {
  }

  lemma FirstCallOpens(steps: seq<Pair>, i: nat, st: State, after: seq<Event>, k: nat, j: nat)
    requires i < |steps| && j < |steps| && k < |after| && DistinctSlugs(steps)
    requires Opening(steps, i, st.upstream) && FirstAttemptsOpen(steps, st.log)
    requires PairEvents(steps[i], st.upstream, st.log, after)
    requires after[k].call.slug == steps[j].actor && FirstCall(after, k)
    ensures Opening(steps, j, after[k].call.upstream)
  {
    hide Opening, DistinctSlugs;
    if k < |st.log| {
      assert st.log[k] == after[k] && FirstCall(st.log, k);
    } else {
      if j != i {
        SlugsDiffer(steps, i, j);
      }
      assert after[|st.log|].call.slug == steps[i].actor;
    }
  }

  lemma PairKeepsSlugs(steps: seq<Pair>, i: nat, st: State, after: seq<Event>)
    requires i < |steps| && OnlySlugs(st.log, SlugsBefore(steps, i))
    requires PairEvents(steps[i], st.upstream, st.log, after)
    ensures OnlySlugs(after, SlugsBefore(steps, i + 1))
  {
  }

  /** One pair's events keep the first-attempt property. */
  lemma PairKeepsFirstAttempts(steps: seq<Pair>, i: nat, st: State, after: seq<Event>)
    requires i < |steps| && DistinctSlugs(steps) && AtStep(steps, i, st)
    requires PairEvents(steps[i], st.upstream, st.log, after)
    ensures OnlySlugs(after, SlugsBefore(steps, i + 1)) && FirstAttemptsOpen(steps, after)
  {
    hide Opening, DistinctSlugs, PairEvents, OnlySlugs, FirstCall;
    PairKeepsSlugs(steps, i, st, after);
    forall k, j | 0 <= k < |after| && 0 <= j < |steps| && after[k].call.slug == steps[j].actor && FirstCall(after, k)
      ensures Opening(steps, j, after[k].call.upstream)
    {
      FirstCallOpens(steps, i, st, after, k, j);
    }
  }

  /** A shipped pair moves the run to the next step. */
  lemma ShippedAdvances(w: World, st: State, steps: seq<Pair>, i: nat)
    requires i < |steps| && DistinctSlugs(steps) && AtStep(steps, i, st)
    ensures var (after, flow) := Attempts(w, st, steps[i], 0, Null);
            && OnlySlugs(after.log, SlugsBefore(steps, i + 1)) && FirstAttemptsOpen(steps, after.log)
            && (flow.Shipped? ==> AtStep(steps, i + 1, after))
  {
    hide Attempts, Ships, OnlySlugs, FirstAttemptsOpen, PairEvents;
    AttemptsEvents(w, st, steps[i], 0, Null);
    var (after, flow) := Attempts(w, st, steps[i], 0, Null);
    PairKeepsFirstAttempts(steps, i, st, after.log);
    if flow.Shipped? {
      forall j | 0 <= j < i + 1 ensures steps[j].verdict in after.upstream && Ships(after.upstream[steps[j].verdict]) {
        if j < i {
          assert steps[j].verdict != steps[i].actor && steps[j].verdict != steps[i].verdict;
        }
      }
    }
  }

  /** Foundation: completion means every step's last verdict shipped and the mapping is full. */
  lemma {:induction false} FoundationSteps(w: World, st: State, steps: seq<Pair>, i: nat, deadline: int)
    requires i <= |steps| && DistinctSlugs(steps) && AtStep(steps, i, st) && st.status == Running
    ensures var (after, e) := Foundation(w, st, steps, i, deadline);
            FirstAttemptsOpen(steps, after.log)
            && (e == Finished(AllDone, None) ==> Opening(steps, |steps|, after.upstream))
    decreases |steps| - i
  {
    hide Attempts, Opening, OnlySlugs, FirstAttemptsOpen, DistinctSlugs;
    if i < |steps| {
      ShippedAdvances(w, st, steps, i);
      AttemptsStatus(w, st, steps[i], 0, Null);
      var (after, flow) := Attempts(w, st, steps[i], 0, Null);
      if flow.Shipped? {
        FoundationSteps(w, after, steps, i + 1, deadline);
      }
    }
  }

  /** Index of the first fan-out step, or the number of steps. */
  function FirstFanout(steps: seq<Pair>, i: nat := 0): (f: nat)
    requires i <= |steps|
    ensures i <= f <= |steps| && (f < |steps| ==> steps[f].isFanout)
    ensures forall j :: i <= j < f ==> !steps[j].isFanout
    decreases |steps| - i
  {
    if i == |steps| || steps[i].isFanout then i else FirstFanout(steps, i + 1)
  }

  /** How many steps a run can reach: those up to and including the first fan-out. */
  function Reach(steps: seq<Pair>): nat {
    if FirstFanout(steps) < |steps| then FirstFanout(steps) + 1 else |steps|
  }

  lemma FanOneEvents(w: World, st: State, p: Pair, t: Target)
    ensures var after := FanOne(w, st, p, t).0;
            st.upstream == after.upstream && st.log <= after.log && |after.log| > |st.log|
            && PairEvents(p, st.upstream, st.log, after.log)
  {
  }

  lemma {:induction false} FanManyEvents(w: World, st: State, p: Pair, ts: seq<Target>, n: nat)
    requires n <= |ts|
    ensures var after := FanMany(w, st, p, ts, n).0;
            st.upstream == after.upstream && PairEvents(p, st.upstream, st.log, after.log)
            && (n > 0 ==> |after.log| > |st.log|)
  {
    hide FanOne;
    if n > 0 {
      FanManyEvents(w, st, p, ts, n - 1);
      FanOneEvents(w, FanMany(w, st, p, ts, n - 1).0, p, ts[n - 1]);
    }
  }

  lemma FanOutEvents(w: World, st: State, p: Pair)
    ensures var after := FanOut(w, st, p).0;
            st.upstream == after.upstream && PairEvents(p, st.upstream, st.log, after.log)
  {
    hide FanMany, Failures, FailureRate, PairEvents;
    NoEvents(p, st.upstream, st.log);
    var ts := Targets(w.recipients(st.log), w.dmSteps(st.log));
    FanManyEvents(w, st, p, ts, |ts|);
  }

  lemma NoEvents(p: Pair, up: Upstream, log: seq<Event>)
    ensures PairEvents(p, up, log, log)
  {
  }

  lemma {:induction false} SlugsBeforeGrows(steps: seq<Pair>, i: nat, j: nat)
    requires i <= j <= |steps|
    ensures SlugsBefore(steps, i) <= SlugsBefore(steps, j)
    decreases j
  {
    if i < j {
      SlugsBeforeGrows(steps, i, j - 1);
    }
  }

  /** Materializer: completion means every plain step before the first fan-out shipped; no step
      after the first fan-out is ever called, whatever the outcome. */
  lemma {:induction false} MaterializerSteps(w: World, st: State, steps: seq<Pair>, i: nat, deadline: int)
    requires i <= FirstFanout(steps) && DistinctSlugs(steps) && AtStep(steps, i, st) && st.status == Running
    ensures var (after, e) := Materializer(w, st, steps, i, deadline);
            && FirstAttemptsOpen(steps, after.log)
            && OnlySlugs(after.log, SlugsBefore(steps, Reach(steps)))
            && (e == Finished(AllDone, None) ==> Opening(steps, FirstFanout(steps), after.upstream))
    decreases |steps| - i
  {
    hide Attempts, FanOut, Opening, FirstAttemptsOpen, DistinctSlugs, PairEvents;
    SlugsBeforeGrows(steps, i, Reach(steps));
    if i < |steps| && w.clock(st.log, i + 1) <= deadline {
      SlugsBeforeGrows(steps, i + 1, Reach(steps));
      if steps[i].isFanout {
        FanOutEvents(w, st, steps[i]);
        PairKeepsFirstAttempts(steps, i, st, FanOut(w, st, steps[i]).0.log);
      } else {
        ShippedAdvances(w, st, steps, i);
        AttemptsStatus(w, st, steps[i], 0, Null);
        var (after, flow) := Attempts(w, st, steps[i], 0, Null);
        if flow.Shipped? {
          MaterializerSteps(w, after, steps, i + 1, deadline);
        }
      }
    }
  }

  lemma AtTheStart(steps: seq<Pair>)
    ensures AtStep(steps, 0, START)
  {
  }

  /** In both drivers: at the first attempt of step i the mapping holds exactly the outputs and
      shipped verdicts of the steps before it. */
  lemma FirstAttemptSeesEarlierSteps(w: World, steps: seq<Pair>)
    requires DistinctSlugs(steps)
    ensures FirstAttemptsOpen(steps, RunFoundation(w, steps).0.log)
    ensures FirstAttemptsOpen(steps, RunMaterializer(w, steps).0.log)
  {
    hide Foundation, Materializer, FirstAttemptsOpen, AtStep;
    AtTheStart(steps);
    FoundationSteps(w, START, steps, 0, w.clock([], 0) + FOUNDATION_LIMIT);
    MaterializerSteps(w, START, steps, 0, w.clock([], 0) + MATERIALIZER_LIMIT);
  }

  /** A completed foundation run shipped every step. A completed materializer run shipped every
      step before the first fan-out, and in no materializer run is any later step called. */
  lemma CompletionMeansShipped(w: World, steps: seq<Pair>)
    requires DistinctSlugs(steps)
    ensures RunFoundation(w, steps).1 == Finished(AllDone, None) ==>
              Opening(steps, |steps|, RunFoundation(w, steps).0.upstream)
    ensures RunMaterializer(w, steps).1 == Finished(AllDone, None) ==>
              Opening(steps, FirstFanout(steps), RunMaterializer(w, steps).0.upstream)
    ensures forall k, j :: 0 <= k < |RunMaterializer(w, steps).0.log| && Reach(steps) <= j < |steps| ==>
              RunMaterializer(w, steps).0.log[k].call.slug != steps[j].actor
  {
    hide Foundation, Materializer, FirstAttemptsOpen, AtStep, Opening;
    AtTheStart(steps);
    FoundationSteps(w, START, steps, 0, w.clock([], 0) + FOUNDATION_LIMIT);
    MaterializerSteps(w, START, steps, 0, w.clock([], 0) + MATERIALIZER_LIMIT);
    forall j | Reach(steps) <= j < |steps| ensures steps[j].actor !in SlugsBefore(steps, Reach(steps)) {
      SlugsBeforeLacks(steps, Reach(steps), j);
    }
  }

  /** So "completed only if each plain step's last verdict shipped" holds of every completed
      materializer run exactly when no plain step follows a fan-out step. */
  ghost predicate PlainStepsFirst(steps: seq<Pair>) {
    forall i, j :: 0 <= i < j < |steps| && steps[i].isFanout ==> steps[j].isFanout
  }

  ghost predicate PlainStepsShipped(steps: seq<Pair>, up: Upstream) {
    forall j :: 0 <= j < |steps| && !steps[j].isFanout ==> steps[j].verdict in up && Ships(up[steps[j].verdict])
  }

  lemma CompletionCoversPlainSteps(w: World, steps: seq<Pair>)
    requires DistinctSlugs(steps) && RunMaterializer(w, steps).1 == Finished(AllDone, None)
    ensures PlainStepsShipped(steps, RunMaterializer(w, steps).0.upstream) <==> PlainStepsFirst(steps)
  {
    hide Materializer, RunMaterializer, DistinctSlugs, Ships;
    CompletionMeansShipped(w, steps);
    var f := FirstFanout(steps);
    var up := RunMaterializer(w, steps).0.upstream;
    if PlainStepsFirst(steps) {
      forall j | 0 <= j < |steps| && !steps[j].isFanout ensures j < f {
      }
    }
    if PlainStepsShipped(steps, up) {
      forall i, j | 0 <= i < j < |steps| && steps[i].isFanout ensures steps[j].isFanout {
        SlugsBeforeLacks(steps, f, j);
      }
    }
  }

  /** The step list the drivers are run with. */
  const PIPELINE_STEPS: seq<Pair> := [
    Pair("gtm-sequence-definer", "gtm-sequence-definer-verdict", false),
    Pair("gtm-channel-step-materializer", "gtm-channel-step-materializer-verdict", false),
    Pair("gtm-audience-materializer", "gtm-audience-materializer-verdict", false),
    Pair("gtm-master-strategist", "gtm-master-strategist-verdict", false),
    Pair("gtm-per-recipient-creative", "gtm-per-recipient-creative-verdict", true)]

  /** That list has distinct slugs and its fan-out last, so a completed materializer run over it
      shipped every plain step. */
  lemma CurrentStepsConform(w: World)
    ensures DistinctSlugs(PIPELINE_STEPS) && PlainStepsFirst(PIPELINE_STEPS)
    ensures RunMaterializer(w, PIPELINE_STEPS).1 == Finished(AllDone, None) ==>
              PlainStepsShipped(PIPELINE_STEPS, RunMaterializer(w, PIPELINE_STEPS).0.upstream)
  {
    hide Materializer, RunMaterializer;
    if RunMaterializer(w, PIPELINE_STEPS).1 == Finished(AllDone, None) {
      CompletionCoversPlainSteps(w, PIPELINE_STEPS);
    }
  }

  // ---------- the fan-out phase ----------

  lemma {:induction false} TargetsRowMajor(recipients: seq<nat>, steps: seq<nat>, a: nat, b: nat)
    requires a < |recipients| && b < |steps|
    ensures |Targets(recipients, steps)| == |recipients| * |steps|
    ensures a * |steps| + b < |recipients| * |steps|
    ensures Targets(recipients, steps)[a * |steps| + b] == Target(recipients[a], steps[b])
  {
    var front := recipients[..|recipients| - 1];
    var n, m := |front|, |steps|;
    assert |recipients| == n + 1;
    assert (n + 1) * m == n * m + m;
    TargetsSize(front, steps);
    if a == n {
      assert Targets(recipients, steps)[n * m + b] == Target(recipients[n], steps[b]);
    } else {
      TargetsRowMajor(front, steps, a, b);
    }
  }

  lemma {:induction false} TargetsSize(recipients: seq<nat>, steps: seq<nat>)
    ensures |Targets(recipients, steps)| == |recipients| * |steps|
  {
    if recipients != [] {
      var n, m := |recipients| - 1, |steps|;
      TargetsSize(recipients[..n], steps);
      assert (n + 1) * m == n * m + m;
    }
  }

  /** Each (recipient, step) pair is a target, and nothing else is. */
  lemma {:induction false} TargetsExact(recipients: seq<nat>, steps: seq<nat>, t: Target)
    ensures t in Targets(recipients, steps) <==> t.recipient in recipients && t.step in steps
  {
    if recipients != [] {
      var r := recipients[|recipients| - 1];
      TargetsExact(recipients[..|recipients| - 1], steps, t);
      var row := seq(|steps|, i requires 0 <= i < |steps| => Target(r, steps[i]));
      if t.recipient == r && t.step in steps {
        var i :| 0 <= i < |steps| && steps[i] == t.step;
        assert row[i] == t;
      }
    }
  }

  function ShippedCount(records: seq<Record>): nat {
    if records == [] then 0
    else
      var r := records[|records| - 1];
      ShippedCount(records[..|records| - 1]) + (if r.FannedOut? && r.shipped then 1 else 0)
  }

  /** Targets the actor was called for, in call order. */
  function Visited(log: seq<Event>, actor: string): seq<Target> {
    if log == [] then []
    else
      var c := log[|log| - 1].call;
      Visited(log[..|log| - 1], actor) + (if c.slug == actor && c.target.Some? then [c.target.value] else [])
  }

  lemma VisitedSnoc(log: seq<Event>, e: Event, actor: string)
    ensures Visited(log + [e], actor) ==
            Visited(log, actor) + (if e.call.slug == actor && e.call.target.Some? then [e.call.target.value] else [])
  {
    assert (log + [e])[..|log|] == log;
  }

  lemma FanOneVisits(w: World, st: State, p: Pair, t: Target)
    requires p.actor != p.verdict
    ensures Visited(FanOne(w, st, p, t).0.log, p.actor) == Visited(st.log, p.actor) + [t]
  {
    hide Visited;
    var c := Call(p.actor, None, st.upstream, Some(t));
    var e := Event(c, w.answer(st.log, c));
    VisitedSnoc(st.log, e, p.actor);
    if e.answer.Done? && e.answer.status == SUCCEEDED {
      var c2 := Call(p.verdict, None, st.upstream[p.actor := e.answer.value], Some(t));
      VisitedSnoc(st.log + [e], Event(c2, w.answer(st.log + [e], c2)), p.actor);
    }
  }

  /** `n` records, one per target in order, each counted once. */
  ghost predicate RecordsOf(p: Pair, ts: seq<Target>, n: nat, rs: seq<Record>) {
    && n <= |ts| && |rs| == n
    && (forall k :: 0 <= k < n ==> rs[k].FannedOut? && rs[k].slug == p.actor && rs[k].target == ts[k])
    && Failures(rs) + ShippedCount(rs) == n
  }

  lemma RecordsSnoc(p: Pair, ts: seq<Target>, n: nat, rs: seq<Record>, shipped: bool)
    requires RecordsOf(p, ts, n, rs) && n < |ts|
    ensures RecordsOf(p, ts, n + 1, rs + [FannedOut(p.actor, ts[n], shipped)])
  {
    var all := rs + [FannedOut(p.actor, ts[n], shipped)];
    assert all[..|all| - 1] == rs;
  }

  lemma NoTargetsYet(p: Pair, ts: seq<Target>)
    ensures RecordsOf(p, ts, 0, [])
  {
  }

  lemma {:induction false} FanManyVisits(w: World, st: State, p: Pair, ts: seq<Target>, n: nat)
    requires n <= |ts| && p.actor != p.verdict
    ensures var (after, rs) := FanMany(w, st, p, ts, n);
            rs.Some? ==>
              && Visited(after.log, p.actor) == Visited(st.log, p.actor) + ts[..n]
              && RecordsOf(p, ts, n, rs.value)
  {
    hide Visited, FanOne, RecordsOf;
    if n == 0 {
      NoTargetsYet(p, ts);
    } else {
      FanManyVisits(w, st, p, ts, n - 1);
      var (before, rs) := FanMany(w, st, p, ts, n - 1);
      if rs.Some? {
        FanOneVisits(w, before, p, ts[n - 1]);
        assert ts[..n] == ts[..n - 1] + [ts[n - 1]];
        RecordsSnoc(p, ts, n - 1, rs.value, true);
        RecordsSnoc(p, ts, n - 1, rs.value, false);
      }
    }
  }

  lemma RateAboveHalf(failures: nat, targets: nat)
    requires targets > 0
    ensures FailureRate(failures, targets) > FANOUT_FAILURE_THRESHOLD <==> 2 * failures > targets
  {
    QuotientCompares(failures as real, targets as real, 0.5);
  }

  // What a target's flag means, read off the log.

  predicate FanCall(e: Event, slug: string, t: Target) { e.call.slug == slug && e.call.target == Some(t) }

  /** The actor call at `j` was answered with success, and the next call, its verdict, with
      success and a mapping that ships. */
  predicate TargetShips(log: seq<Event>, j: nat) {
    && j + 1 < |log| && Succeeded(log[j].answer)
    && Succeeded(log[j + 1].answer) && Ships(log[j + 1].answer.value)
  }

  /** The events of target `t` from `j` on: its actor call, and its verdict if that succeeded. */
  predicate Tile(p: Pair, log: seq<Event>, j: nat, next: nat, t: Target) {
    && j < next <= |log| && FanCall(log[j], p.actor, t)
    && next == j + (if Succeeded(log[j].answer) then 2 else 1)
    && (Succeeded(log[j].answer) ==> FanCall(log[j + 1], p.verdict, t))
  }

  /** From `from` on the log consists of the events of the first targets, one after the other,
      and each record's flag tells whether its target ships. */
  ghost predicate Tiles(p: Pair, log: seq<Event>, from: nat, ts: seq<Target>, starts: seq<nat>, rs: seq<Record>) {
    && |starts| == |rs| + 1 && |rs| <= |ts| && starts[0] == from && starts[|rs|] == |log|
    && (forall k :: 0 <= k < |rs| ==> Tile(p, log, starts[k], starts[k + 1], ts[k]))
    && (forall k :: 0 <= k < |rs| ==> rs[k].FannedOut? && (rs[k].shipped <==> TargetShips(log, starts[k])))
  }

  lemma FanOneTile(w: World, st: State, p: Pair, t: Target)
    ensures var (after, shipped) := FanOne(w, st, p, t);
            && st.log <= after.log
            && (shipped.Some? ==>
                  Tile(p, after.log, |st.log|, |after.log|, t)
                  && (shipped.value <==> TargetShips(after.log, |st.log|)))
  {
    hide Ships;
  }

  lemma TileStays(p: Pair, log: seq<Event>, later: seq<Event>, j: nat, next: nat, t: Target)
    requires log <= later && Tile(p, log, j, next, t)
    ensures Tile(p, later, j, next, t) && (TargetShips(log, j) <==> TargetShips(later, j))
  {
    hide Ships;
    assert later[j] == log[j];
    assert next == j + 2 ==> later[j + 1] == log[j + 1];
  }

  lemma TilesSnoc(p: Pair, log: seq<Event>, later: seq<Event>, from: nat, ts: seq<Target>, starts: seq<nat>,
                  rs: seq<Record>, shipped: bool)
    requires Tiles(p, log, from, ts, starts, rs) && |rs| < |ts| && log <= later
    requires Tile(p, later, |log|, |later|, ts[|rs|]) && (shipped <==> TargetShips(later, |log|))
    ensures Tiles(p, later, from, ts, starts + [|later|], rs + [FannedOut(p.actor, ts[|rs|], shipped)])
  {
    hide Tile, TargetShips;
    var more, all := starts + [|later|], rs + [FannedOut(p.actor, ts[|rs|], shipped)];
    forall k | 0 <= k < |all|
      ensures Tile(p, later, more[k], more[k + 1], ts[k]) && all[k].FannedOut?
              && (all[k].shipped <==> TargetShips(later, more[k]))
    {
      if k < |rs| {
        assert more[k] == starts[k] && more[k + 1] == starts[k + 1] && all[k] == rs[k];
        TileStays(p, log, later, starts[k], starts[k + 1], ts[k]);
      }
    }
  }

  lemma NoTiles(p: Pair, log: seq<Event>, ts: seq<Target>)
    ensures Tiles(p, log, |log|, ts, [|log|], [])
  {
  }

  lemma {:induction false} FanManyTiles(w: World, st: State, p: Pair, ts: seq<Target>, n: nat)
    returns (starts: seq<nat>)
    requires n <= |ts|
    ensures var (after, rs) := FanMany(w, st, p, ts, n);
            rs.Some? ==> |rs.value| == n && Tiles(p, after.log, |st.log|, ts, starts, rs.value)
  {
    hide FanOne, Tiles, Tile, TargetShips;
    if n == 0 {
      starts := [|st.log|];
      NoTiles(p, st.log, ts);
    } else {
      starts := FanManyTiles(w, st, p, ts, n - 1);
      var (before, rs) := FanMany(w, st, p, ts, n - 1);
      if rs.Some? {
        FanOneTile(w, before, p, ts[n - 1]);
        var (after, shipped) := FanOne(w, before, p, ts[n - 1]);
        if shipped.Some? {
          TilesSnoc(p, before.log, after.log, |st.log|, ts, starts, rs.value, shipped.value);
          starts := starts + [|after.log|];
        }
      }
    }
  }

  /** The targets that did not ship, by their place. */
  ghost function FailedTargets(log: seq<Event>, starts: seq<nat>, n: nat): set<nat>
    requires n <= |starts|
  {
    set k: nat | k < n && !TargetShips(log, starts[k])
  }

  ghost function Unshipped(rs: seq<Record>): set<nat> {
    set k: nat | k < |rs| && rs[k].FannedOut? && !rs[k].shipped
  }

  lemma {:induction false} FailuresCounted(rs: seq<Record>)
    ensures Failures(rs) == |Unshipped(rs)|
  {
    if rs != [] {
      var n := |rs| - 1;
      FailuresCounted(rs[..n]);
      var failed := rs[n].FannedOut? && !rs[n].shipped;
      assert Unshipped(rs) == Unshipped(rs[..n]) + (if failed then {n} else {});
      assert n !in Unshipped(rs[..n]);
    }
  }

  lemma FailedIsUnshipped(p: Pair, log: seq<Event>, from: nat, ts: seq<Target>, starts: seq<nat>, rs: seq<Record>)
    requires Tiles(p, log, from, ts, starts, rs)
    ensures FailedTargets(log, starts, |rs|) == Unshipped(rs)
  {
    hide Tile, TargetShips;
  }

  /** What a fan-out that does not escape leaves behind. Its new calls are laid out target by
      target from `starts`. */
  ghost predicate FannedOutExactly(w: World, st: State, p: Pair, after: State, e: Ending, starts: seq<nat>) {
    var ts := Targets(w.recipients(st.log), w.dmSteps(st.log));
    && st.runs <= after.runs && st.log <= after.log
    && var records := after.runs[|st.runs|..];
       && Visited(after.log, p.actor) == Visited(st.log, p.actor) + ts
       && |records| == |ts|
       && (forall k :: 0 <= k < |ts| ==> records[k].FannedOut? && records[k].target == ts[k])
       && Tiles(p, after.log, |st.log|, ts, starts, records)
       && Failures(records) + ShippedCount(records) == |ts|
       && Failures(records) == |FailedTargets(after.log, starts, |ts|)|
       && (e == Finished(AllDone, None) <==> ts != [] && 2 * |FailedTargets(after.log, starts, |ts|)| <= |ts|)
  }

  /** A fan-out that does not escape visits recipients × steps once each in row-major order; a
      target's record says shipped exactly when its actor and then its verdict succeeded and the
      verdict ships; and the run completes exactly when there is a target and at most half of them
      did not ship. */
  lemma FanOutIsExact(w: World, st: State, p: Pair) returns (starts: seq<nat>)
    requires p.actor != p.verdict
    ensures var (after, e) := FanOut(w, st, p); e != Escaped ==> FannedOutExactly(w, st, p, after, e, starts)
  {
    hide Visited, FanMany, FailureRate, Failures, ShippedCount, Targets, Tiles, FailedTargets, Unshipped;
    var ts := Targets(w.recipients(st.log), w.dmSteps(st.log));
    var (after, e) := FanOut(w, st, p);
    starts := [|st.log|];
    if ts == [] {
      assert after.runs[|st.runs|..] == [];
      assert Visited(st.log, p.actor) + ts == Visited(st.log, p.actor);
      NoRecords();
      NoTiles(p, st.log, ts);
      FailedIsUnshipped(p, st.log, |st.log|, ts, starts, []);
      FailuresCounted([]);
    } else if e != Escaped {
      FanManyQuiet(w, st, p, ts, |ts|);
      FanManyVisits(w, st, p, ts, |ts|);
      FanManyExtends(w, st, p, ts, |ts|);
      starts := FanManyTiles(w, st, p, ts, |ts|);
      var (done, rs) := FanMany(w, st, p, ts, |ts|);
      assert ts[..|ts|] == ts;
      assert after.runs[|st.runs|..] == rs.value;
      FailedIsUnshipped(p, done.log, |st.log|, ts, starts, rs.value);
      FailuresCounted(rs.value);
      RateAboveHalf(Failures(rs.value), |ts|);
    }
  }

  lemma {:induction false} FanManyExtends(w: World, st: State, p: Pair, ts: seq<Target>, n: nat)
    requires n <= |ts|
    ensures st.log <= FanMany(w, st, p, ts, n).0.log
  {
    hide FanOne;
    if n > 0 {
      FanManyExtends(w, st, p, ts, n - 1);
      FanOneTile(w, FanMany(w, st, p, ts, n - 1).0, p, ts[n - 1]);
    }
  }

  lemma NoRecords()
    ensures Failures([]) == 0 && ShippedCount([]) == 0
  {
  }

  // ---------- the two drivers compared ----------

  predicate TimedOut(e: Ending) { e.Finished? && e.terminal == WallClockTimeout }

  lemma {:induction false} AttemptsKeepRuns(w: World, st: State, p: Pair, attempt: nat, last: Value)
    ensures st.runs <= Attempts(w, st, p, attempt, last).0.runs
    decreases MAX_VERDICT_RETRIES + 1 - attempt
  {
    hide Attempt;
    if attempt <= MAX_VERDICT_RETRIES {
      AttemptKeepsRuns(w, st, p, attempt, last);
      var (after, flow) := Attempt(w, st, p, attempt, last);
      if flow.NotShipped? {
        AttemptsKeepRuns(w, after, p, attempt + 1, flow.last);
      }
    }
  }

  lemma AttemptKeepsRuns(w: World, st: State, p: Pair, attempt: nat, last: Value)
    ensures st.runs <= Attempt(w, st, p, attempt, last).0.runs
  {
  }

  lemma {:induction false} MaterializerExtends(w: World, st: State, steps: seq<Pair>, i: nat, deadline: int)
    requires i <= |steps| && forall j :: 0 <= j < |steps| ==> !steps[j].isFanout
    ensures var m := Materializer(w, st, steps, i, deadline).0; st.log <= m.log && st.runs <= m.runs
    decreases |steps| - i
  {
    hide Attempts;
    if i < |steps| {
      AttemptsExtend(w, st, steps[i], 0, Null);
      AttemptsKeepRuns(w, st, steps[i], 0, Null);
      var (after, flow) := Attempts(w, st, steps[i], 0, Null);
      if !flow.Stop? {
        MaterializerExtends(w, after, steps, i + 1, deadline);
      }
    }
  }

  lemma {:induction false} DriversAgreeFrom(w: World, st: State, steps: seq<Pair>, i: nat, early: int, late: int)
    requires i <= |steps| && early <= late && forall j :: 0 <= j < |steps| ==> !steps[j].isFanout
    ensures var (f, fe) := Foundation(w, st, steps, i, early);
            var (m, me) := Materializer(w, st, steps, i, late);
            && (!TimedOut(fe) ==> f == m && fe == me)
            && f.log <= m.log && f.runs <= m.runs
    decreases |steps| - i
  {
    hide Attempts;
    MaterializerExtends(w, st, steps, i, late);
    if i < |steps| && w.clock(st.log, i + 1) <= early {
      var (after, flow) := Attempts(w, st, steps[i], 0, Null);
      if !flow.Stop? {
        DriversAgreeFrom(w, after, steps, i + 1, early, late);
      }
    }
  }

  /** On the same oracle, with no fan-out step, the materializer driver does everything the
      foundation driver does; unless the foundation's shorter clock runs out, the two end in
      the same state with the same result. */
  lemma DriversAgree(w: World, steps: seq<Pair>)
    requires forall j :: 0 <= j < |steps| ==> !steps[j].isFanout
    ensures var (f, fe) := RunFoundation(w, steps);
            var (m, me) := RunMaterializer(w, steps);
            && (!TimedOut(fe) ==> f == m && fe == me)
            && f.log <= m.log && f.runs <= m.runs
  {
    hide Foundation, Materializer;
    var start := w.clock([], 0);
    DriversAgreeFrom(w, START, steps, 0, start + FOUNDATION_LIMIT, start + MATERIALIZER_LIMIT);
  }
}
