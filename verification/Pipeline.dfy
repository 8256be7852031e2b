/** The actor/verdict pipeline drivers: retries, a shared upstream mapping, terminal states and
    the fan-out phase. Agent runs, the clock and the fan-out tables are oracles that may depend
    on everything asked so far. */
module Pipeline {
  import opened Common

  /** A step output. Only a mapping can ship or ask for a redo; `truthy` is Python's truth
      value of anything else. */
  datatype Value = Null | Dict(ship: bool, redo: Option<string>, id: nat) | Other(truthy: bool, id: nat)

  const EMPTY_DICT := Dict(false, None, 0)

  /** `value or {}`. */
  function OrEmpty(v: Value): Value { if v.Null? || (v.Other? && !v.truthy) then EMPTY_DICT else v }

  predicate Ships(v: Value) { v.Dict? && v.ship }

  type Upstream = map<string, Value>

  datatype Target = Target(recipient: nat, step: nat)

  datatype Call = Call(slug: string, hint: Option<string>, upstream: Upstream, target: Option<Target>)

  /** `run_step` returns, raises RunStepError, or raises something the drivers do not catch. */
  datatype Answer = Done(status: string, value: Value) | StepError | Crash

  datatype Event = Event(call: Call, answer: Answer)

  datatype World = World(
    answer: (seq<Event>, Call) -> Answer,
    clock: (seq<Event>, nat) -> int,
    recipients: seq<Event> -> seq<nat>,
    dmSteps: seq<Event> -> seq<nat>)

  datatype Pair = Pair(actor: string, verdict: string, isFanout: bool)

  datatype Record = Ran(slug: string, status: string) | FannedOut(slug: string, target: Target, shipped: bool)

  datatype Stored = Idle | Running | Completed | Failed

  datatype Terminal =
    | AllDone | WallClockTimeout | ActorError | ActorFailed | VerdictError | VerdictFailed | VerdictBlocked
    | TargetsEmpty | HighFailureRate(percent: int)

  datatype Ending = Finished(terminal: Terminal, failedAt: Option<string>) | Escaped

  const SUCCEEDED := "succeeded"
  const MAX_VERDICT_RETRIES := 1
  const FOUNDATION_LIMIT := 15 * 60
  const MATERIALIZER_LIMIT := 60 * 60
  const FANOUT_FAILURE_THRESHOLD := 0.5

  datatype State = State(upstream: Upstream, runs: seq<Record>, status: Stored, log: seq<Event>)

  const START := State(map[], [], Running, [])

  // ---------- one attempt ----------

  function Ask(w: World, st: State, call: Call): (State, Answer) {
    var a := w.answer(st.log, call);
    (st.(log := st.log + [Event(call, a)]), a)
  }

  function Recorded(st: State, slug: string, status: string): State { st.(runs := st.runs + [Ran(slug, status)]) }

  function FailWith(st: State, t: Terminal, slug: string): (State, Flow) {
    (st.(status := Failed), Stop(Finished(t, Some(slug))))
  }

  datatype Flow = Stop(ending: Ending) | Shipped | NotShipped(last: Value)

  function HintFor(attempt: nat, last: Value): Option<string> {
    if attempt > 0 && last.Dict? then last.redo else None
  }

  function VerdictPart(w: World, st: State, p: Pair): (State, Flow) {
    var (asked, a) := Ask(w, st, Call(p.verdict, None, st.upstream, None));
    match a
    case Crash => (asked, Stop(Escaped))
    case StepError => FailWith(Recorded(asked, p.verdict, "failed"), VerdictError, p.verdict)
    case Done(status, value) =>
      var seen := Recorded(asked, p.verdict, status);
      var v := OrEmpty(value);
      if status != SUCCEEDED then FailWith(seen, VerdictFailed, p.verdict)
      else if Ships(v) then (seen.(upstream := seen.upstream[p.verdict := v]), Shipped)
      else (seen, NotShipped(v))
  }

  /** Actor, then verdict. */
  function Attempt(w: World, st: State, p: Pair, attempt: nat, last: Value): (State, Flow) {
    var (asked, a) := Ask(w, st, Call(p.actor, HintFor(attempt, last), st.upstream, None));
    match a
    case Crash => (asked, Stop(Escaped))
    case StepError => FailWith(Recorded(asked, p.actor, "failed"), ActorError, p.actor)
    case Done(status, value) =>
      var seen := Recorded(asked, p.actor, status);
      if status != SUCCEEDED then FailWith(seen, ActorFailed, p.actor)
      else VerdictPart(w, seen.(upstream := seen.upstream[p.actor := value]), p)
  }

  /** The retry loop of one pair, from `attempt` on. */
  function Attempts(w: World, st: State, p: Pair, attempt: nat, last: Value): (State, Flow)
    decreases MAX_VERDICT_RETRIES + 1 - attempt
  {
    if attempt > MAX_VERDICT_RETRIES then FailWith(st, VerdictBlocked, p.actor)
    else
      var (after, flow) := Attempt(w, st, p, attempt, last);
      if flow.NotShipped? then Attempts(w, after, p, attempt + 1, flow.last) else (after, flow)
  }

  // ---------- fan-out ----------

  /** Recipients × steps in row-major order. */
  function Targets(recipients: seq<nat>, steps: seq<nat>): seq<Target> {
    if recipients == [] then []
    else
      var r := recipients[|recipients| - 1];
      Targets(recipients[..|recipients| - 1], steps) + seq(|steps|, i requires 0 <= i < |steps| => Target(r, steps[i]))
  }

  /** One target: None when an uncaught exception escapes. */
  function FanOne(w: World, st: State, p: Pair, t: Target): (State, Option<bool>) {
    var (asked, a) := Ask(w, st, Call(p.actor, None, st.upstream, Some(t)));
    if a.Crash? then (asked, None)
    else if a.StepError? || a.status != SUCCEEDED then (asked, Some(false))
    else
      var (judged, v) := Ask(w, asked, Call(p.verdict, None, st.upstream[p.actor := a.value], Some(t)));
      if v.Crash? then (judged, None)
      else (judged, Some(v.Done? && v.status == SUCCEEDED && Ships(v.value)))
  }

  /** The first `n` targets, stopping at an escape. */
  function FanMany(w: World, st: State, p: Pair, ts: seq<Target>, n: nat): (State, Option<seq<Record>>)
    requires n <= |ts|
  {
    if n == 0 then (st, Some([]))
    else
      var (before, records) := FanMany(w, st, p, ts, n - 1);
      if records.None? then (before, None)
      else
        var (after, shipped) := FanOne(w, before, p, ts[n - 1]);
        if shipped.None? then (after, None)
        else (after, Some(records.value + [FannedOut(p.actor, ts[n - 1], shipped.value)]))
  }

  function Failures(records: seq<Record>): nat {
    if records == [] then 0
    else
      var r := records[|records| - 1];
      Failures(records[..|records| - 1]) + (if r.FannedOut? && !r.shipped then 1 else 0)
  }

  function FailureRate(failures: nat, targets: nat): real {
    failures as real / (if targets == 0 then 1 else targets) as real
  }

  function FanEnding(p: Pair, failures: nat, targets: nat): Ending {
    if FailureRate(failures, targets) > FANOUT_FAILURE_THRESHOLD
    then Finished(HighFailureRate((FailureRate(failures, targets) * 100.0).Floor), Some(p.actor))
    else Finished(AllDone, None)
  }

  /** A fan-out step, which always ends the run. */
  function FanOut(w: World, st: State, p: Pair): (State, Ending) {
    var ts := Targets(w.recipients(st.log), w.dmSteps(st.log));
    if ts == [] then (st.(status := Failed), Finished(TargetsEmpty, Some(p.actor)))
    else
      var (after, records) := FanMany(w, st, p, ts, |ts|);
      if records.None? then (after, Escaped)
      else
        var ending := FanEnding(p, Failures(records.value), |ts|);
        (after.(runs := after.runs + records.value,
            status := if ending.terminal == AllDone then Completed else Failed), ending)
  }

  // ---------- the two drivers ----------

  function Foundation(w: World, st: State, steps: seq<Pair>, i: nat, deadline: int): (State, Ending)
    requires i <= |steps|
    decreases |steps| - i
  {
    if i == |steps| then (st.(status := Completed), Finished(AllDone, None))
    else if w.clock(st.log, i + 1) > deadline then (st, Finished(WallClockTimeout, Some(steps[i].actor)))
    else
      var (after, flow) := Attempts(w, st, steps[i], 0, Null);
      if flow.Stop? then (after, flow.ending) else Foundation(w, after, steps, i + 1, deadline)
  }

  function Materializer(w: World, st: State, steps: seq<Pair>, i: nat, deadline: int): (State, Ending)
    requires i <= |steps|
    decreases |steps| - i
  {
    if i == |steps| then (st.(status := Completed), Finished(AllDone, None))
    else if w.clock(st.log, i + 1) > deadline then (st, Finished(WallClockTimeout, Some(steps[i].actor)))
    else if steps[i].isFanout then FanOut(w, st, steps[i])
    else
      var (after, flow) := Attempts(w, st, steps[i], 0, Null);
      if flow.Stop? then (after, flow.ending) else Materializer(w, after, steps, i + 1, deadline)
  }

  function RunFoundation(w: World, steps: seq<Pair>): (State, Ending) {
    Foundation(w, START, steps, 0, w.clock([], 0) + FOUNDATION_LIMIT)
  }

  function RunMaterializer(w: World, steps: seq<Pair>): (State, Ending) {
    Materializer(w, START, steps, 0, w.clock([], 0) + MATERIALIZER_LIMIT)
  }

  // ---------- the code ----------

  class Driver {
    const world: World
    var upstream: Upstream
    var runs: seq<Record>
    var status: Stored
    var log: seq<Event>

    constructor (w: World)
      ensures world == w && Now() == State(map[], [], Idle, [])
    {
      world, upstream, runs, status, log := w, map[], [], Idle, [];
    }

    function Now(): State
      reads this
    {
      State(upstream, runs, status, log)
    }

    method RunStep(call: Call) returns (a: Answer)
      modifies this
      ensures (Now(), a) == Ask(world, old(Now()), call)
    {
      a := world.answer(log, call);
      log := log + [Event(call, a)];
    }

    /** The retry loop of one pair. */
    method RunPair(p: Pair) returns (flow: Flow)
      modifies this
      ensures (Now(), flow) == Attempts(world, old(Now()), p, 0, Null)
      ensures !flow.NotShipped?
    {
      ghost var goal := Attempts(world, Now(), p, 0, Null);
      var last := Null;
      for attempt := 0 to MAX_VERDICT_RETRIES + 1
        invariant goal == Attempts(world, Now(), p, attempt, last)
      {
        var a := RunStep(Call(p.actor, HintFor(attempt, last), upstream, None));
        if a.Crash? {
          return Stop(Escaped);
        }
        if a.StepError? {
          runs, status := runs + [Ran(p.actor, "failed")], Failed;
          return Stop(Finished(ActorError, Some(p.actor)));
        }
        runs := runs + [Ran(p.actor, a.status)];
        if a.status != SUCCEEDED {
          status := Failed;
          return Stop(Finished(ActorFailed, Some(p.actor)));
        }
        upstream := upstream[p.actor := a.value];
        var v := RunStep(Call(p.verdict, None, upstream, None));
        if v.Crash? {
          return Stop(Escaped);
        }
        if v.StepError? {
          runs, status := runs + [Ran(p.verdict, "failed")], Failed;
          return Stop(Finished(VerdictError, Some(p.verdict)));
        }
        var verdict := OrEmpty(v.value);
        runs := runs + [Ran(p.verdict, v.status)];
        if v.status != SUCCEEDED {
          status := Failed;
          return Stop(Finished(VerdictFailed, Some(p.verdict)));
        }
        last := verdict;
        if Ships(verdict) {
          upstream := upstream[p.verdict := verdict];
          return Shipped;
        }
      }
      status := Failed;
      flow := Stop(Finished(VerdictBlocked, Some(p.actor)));
    }

    method FanTarget(p: Pair, t: Target) returns (shipped: Option<bool>)
      modifies this
      ensures (Now(), shipped) == FanOne(world, old(Now()), p, t)
    {
      var ok := true;
      var a := RunStep(Call(p.actor, None, upstream, Some(t)));
      if a.Crash? {
        return None;
      }
      if a.StepError? || a.status != SUCCEEDED {
        ok := false;
      }
      if ok {
        var v := RunStep(Call(p.verdict, None, upstream[p.actor := a.value], Some(t)));
        if v.Crash? {
          return None;
        }
        ok := v.Done? && v.status == SUCCEEDED && Ships(v.value);
      }
      shipped := Some(ok);
    }

    method RunFanout(p: Pair) returns (ending: Ending)
      modifies this
      ensures (Now(), ending) == FanOut(world, old(Now()), p)
    {
      ghost var st := Now();
      var ts := Targets(world.recipients(log), world.dmSteps(log));
      if ts == [] {
        status := Failed;
        return Finished(TargetsEmpty, Some(p.actor));
      }
      var records: seq<Record> := [];
      var failures := 0;
      for k := 0 to |ts|
        invariant FanMany(world, st, p, ts, k) == (Now(), Some(records))
        invariant failures == Failures(records)
      {
        var shipped := FanTarget(p, ts[k]);
        if shipped.None? {
          EscapeStays(world, st, p, ts, k + 1, |ts|);
          return Escaped;
        }
        records := records + [FannedOut(p.actor, ts[k], shipped.value)];
        if !shipped.value {
          failures := failures + 1;
        }
      }
      runs := runs + records;
      ending := FanEnding(p, failures, |ts|);
      status := if ending.terminal == AllDone then Completed else Failed;
    }

    method Begin()
      modifies this
      ensures Now() == START
    {
      upstream, runs, status, log := map[], [], Running, [];
    }

    /** The foundation script's driver. */
    method RunFoundationPipeline(steps: seq<Pair>) returns (ending: Ending)
      modifies this
      ensures (Now(), ending) == RunFoundation(world, steps)
    {
      hide Attempts;
      var deadline := world.clock([], 0) + FOUNDATION_LIMIT;
      Begin();
      for i := 0 to |steps|
        invariant RunFoundation(world, steps) == Foundation(world, Now(), steps, i, deadline)
      {
        if world.clock(log, i + 1) > deadline {
          return Finished(WallClockTimeout, Some(steps[i].actor));
        }
        var flow := RunPair(steps[i]);
        if flow.Stop? {
          return flow.ending;
        }
      }
      status := Completed;
      ending := Finished(AllDone, None);
    }

    /** The materializer script's driver. */
    method RunMaterializerPipeline(steps: seq<Pair>) returns (ending: Ending)
      modifies this
      ensures (Now(), ending) == RunMaterializer(world, steps)
    {
      hide Attempts, FanOut;
      var deadline := world.clock([], 0) + MATERIALIZER_LIMIT;
      Begin();
      for i := 0 to |steps|
        invariant RunMaterializer(world, steps) == Materializer(world, Now(), steps, i, deadline)
      {
        if world.clock(log, i + 1) > deadline {
          return Finished(WallClockTimeout, Some(steps[i].actor));
        }
        if steps[i].isFanout {
          ending := RunFanout(steps[i]);
          return;
        }
        var flow := RunPair(steps[i]);
        if flow.Stop? {
          return flow.ending;
        }
      }
      status := Completed;
      ending := Finished(AllDone, None);
    }
  }

  lemma {:induction false} EscapeStays(w: World, st: State, p: Pair, ts: seq<Target>, m: nat, n: nat)
    requires m <= n <= |ts| && FanMany(w, st, p, ts, m).1.None?
    ensures FanMany(w, st, p, ts, n) == FanMany(w, st, p, ts, m)
    decreases n
  {
    if m < n {
      EscapeStays(w, st, p, ts, m, n - 1);
    }
  }
}
