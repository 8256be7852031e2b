/** Statements about whole pipeline runs: crashes, calls per step, and the fan-out in its run. */
module PipelineRuns {
  import opened Common
  import opened Pipeline
  import opened PipelineGuarantees

  // ---------- crashes ----------

  ghost predicate CrashFree(log: seq<Event>) { forall k :: 0 <= k < |log| ==> !log[k].answer.Crash? }

  /** A run that escaped was stopped by its last answer; in any other no answer is a crash. */
  ghost predicate CrashStops(log: seq<Event>, escaped: bool) {
    if escaped then log != [] && log[|log| - 1].answer.Crash? && CrashFree(log[..|log| - 1]) else CrashFree(log)
  }

  lemma TranscriptCrash(p: Pair, log: seq<Event>, evs: seq<Event>, flow: Flow)
    requires CrashFree(log) && Transcript(p, evs, flow)
    ensures CrashStops(log + evs, flow == Stop(Escaped))
  {
    hide Ships;
    var all := log + evs;
    assert all[|all| - 1] == evs[|evs| - 1];
    forall k | 0 <= k < |all| - 1 ensures !all[k].answer.Crash? {
      if k >= |log| {
        assert Succeeded(evs[k - |log|].answer);
      }
    }
  }

  lemma StepCrash(w: World, st: State, p: Pair)
    requires CrashFree(st.log)
    ensures var (after, flow) := Attempts(w, st, p, 0, Null); CrashStops(after.log, flow == Stop(Escaped))
  {
    hide Attempts, Transcript, CrashFree;
    StepTranscript(w, st, p);
    var (after, flow) := Attempts(w, st, p, 0, Null);
    assert after.log == st.log + after.log[|st.log|..];
    TranscriptCrash(p, st.log, after.log[|st.log|..], flow);
  }

  lemma FanOneCrash(w: World, st: State, p: Pair, t: Target)
    requires CrashFree(st.log)
    ensures var (after, shipped) := FanOne(w, st, p, t); CrashStops(after.log, shipped.None?)
  {
    hide Ships;
    var c := Call(p.actor, None, st.upstream, Some(t));
    var a := w.answer(st.log, c);
    var one := st.log + [Event(c, a)];
    assert one[..|one| - 1] == st.log;
    if a.Done? && a.status == SUCCEEDED {
      var c2 := Call(p.verdict, None, st.upstream[p.actor := a.value], Some(t));
      var two := one + [Event(c2, w.answer(one, c2))];
      assert two[..|two| - 1] == one;
    }
  }

  lemma {:induction false} FanManyCrash(w: World, st: State, p: Pair, ts: seq<Target>, n: nat)
    requires n <= |ts| && CrashFree(st.log)
    ensures var (after, rs) := FanMany(w, st, p, ts, n); CrashStops(after.log, rs.None?)
  {
    hide FanOne, CrashFree;
    if n > 0 {
      FanManyCrash(w, st, p, ts, n - 1);
      var (before, rs) := FanMany(w, st, p, ts, n - 1);
      if rs.Some? {
        FanOneCrash(w, before, p, ts[n - 1]);
      }
    }
  }

  lemma FanOutCrash(w: World, st: State, p: Pair)
    requires CrashFree(st.log)
    ensures var (after, e) := FanOut(w, st, p); CrashStops(after.log, e == Escaped)
  {
    hide FanMany, CrashStops, Targets, Failures, FailureRate;
    var ts := Targets(w.recipients(st.log), w.dmSteps(st.log));
    if ts == [] {
      NoCrash(st.log);
    } else {
      FanManyCrash(w, st, p, ts, |ts|);
    }
  }

  lemma NoCrash(log: seq<Event>)
    ensures CrashFree(log) <==> CrashStops(log, false)
  {
  }

  lemma {:induction false} FoundationCrash(w: World, st: State, steps: seq<Pair>, i: nat, deadline: int)
    requires i <= |steps| && CrashFree(st.log) && st.status == Running
    ensures var (after, e) := Foundation(w, st, steps, i, deadline); CrashStops(after.log, e == Escaped)
    decreases |steps| - i
  {
    hide Attempts, CrashFree, CrashStops;
    NoCrash(st.log);
    if i < |steps| {
      StepCrash(w, st, steps[i]);
      AttemptsStatus(w, st, steps[i], 0, Null);
      var (after, flow) := Attempts(w, st, steps[i], 0, Null);
      if !flow.Stop? {
        NoCrash(after.log);
        FoundationCrash(w, after, steps, i + 1, deadline);
      }
    }
  }

  lemma {:induction false} MaterializerCrash(w: World, st: State, steps: seq<Pair>, i: nat, deadline: int)
    requires i <= |steps| && CrashFree(st.log) && st.status == Running
    ensures var (after, e) := Materializer(w, st, steps, i, deadline); CrashStops(after.log, e == Escaped)
    decreases |steps| - i
  {
    hide Attempts, FanOut, CrashFree, CrashStops;
    NoCrash(st.log);
    if i < |steps| {
      FanOutCrash(w, st, steps[i]);
      StepCrash(w, st, steps[i]);
      AttemptsStatus(w, st, steps[i], 0, Null);
      var (after, flow) := Attempts(w, st, steps[i], 0, Null);
      if !flow.Stop? {
        NoCrash(after.log);
        MaterializerCrash(w, after, steps, i + 1, deadline);
      }
    }
  }

  /** In both drivers a run escapes exactly when its last answer is a crash, and no earlier one is. */
  lemma EscapesExactlyOnCrash(w: World, steps: seq<Pair>)
    ensures var (f, e) := RunFoundation(w, steps);
            CrashStops(f.log, e == Escaped) && (e == Escaped <==> f.log != [] && f.log[|f.log| - 1].answer.Crash?)
    ensures var (m, e) := RunMaterializer(w, steps);
            CrashStops(m.log, e == Escaped) && (e == Escaped <==> m.log != [] && m.log[|m.log| - 1].answer.Crash?)
  {
    hide Foundation, Materializer;
    FoundationCrash(w, START, steps, 0, w.clock([], 0) + FOUNDATION_LIMIT);
    MaterializerCrash(w, START, steps, 0, w.clock([], 0) + MATERIALIZER_LIMIT);
  }

  // ---------- calls per step ----------

  predicate OfStep(e: Event, p: Pair) { e.call.target.None? && (e.call.slug == p.actor || e.call.slug == p.verdict) }

  /** Plain agent runs of one step. */
  function StepCalls(log: seq<Event>, p: Pair): nat {
    if log == [] then 0 else StepCalls(log[..|log| - 1], p) + (if OfStep(log[|log| - 1], p) then 1 else 0)
  }

  lemma {:induction false} StepCallsGrow(log: seq<Event>, more: seq<Event>, p: Pair)
    requires log <= more
    ensures StepCalls(log, p) <= StepCalls(more, p) <= StepCalls(log, p) + (|more| - |log|)
    decreases |more|
  {
    if log != more {
      StepCallsGrow(log, more[..|more| - 1], p);
    }
  }

  lemma {:induction false} StepCallsOfOthers(log: seq<Event>, more: seq<Event>, p: Pair)
    requires log <= more && forall k :: |log| <= k < |more| ==> !OfStep(more[k], p)
    ensures StepCalls(more, p) == StepCalls(log, p)
    decreases |more|
  {
    hide OfStep;
    if log != more {
      StepCallsOfOthers(log, more[..|more| - 1], p);
    }
  }

  /** At most four calls for every step, and none yet from step `i` on. */
  ghost predicate Budget(steps: seq<Pair>, i: nat, log: seq<Event>) {
    forall j :: 0 <= j < |steps| ==> StepCalls(log, steps[j]) <= 4 && (j >= i ==> StepCalls(log, steps[j]) == 0)
  }

  lemma BudgetLoosens(steps: seq<Pair>, i: nat, j: nat, log: seq<Event>)
    requires Budget(steps, i, log) && i <= j
    ensures Budget(steps, j, log)
  {
    hide StepCalls;
  }

  lemma TranscriptIsOwn(p: Pair, q: Pair, log: seq<Event>, more: seq<Event>, flow: Flow)
    requires log <= more && Transcript(p, more[|log|..], flow)
    requires p.actor != q.actor && p.actor != q.verdict && p.verdict != q.actor && p.verdict != q.verdict
    ensures forall k :: |log| <= k < |more| ==> !OfStep(more[k], q)
  {
    hide EndsWith;
    forall k | |log| <= k < |more| ensures !OfStep(more[k], q) {
      assert more[k] == more[|log|..][k - |log|];
    }
  }

  lemma TranscriptIsShort(p: Pair, evs: seq<Event>, flow: Flow)
    requires Transcript(p, evs, flow)
    ensures |evs| <= 4
  {
    hide EndsWith;
  }

  lemma StepBudget(w: World, st: State, steps: seq<Pair>, i: nat)
    requires i < |steps| && DistinctSlugs(steps) && Budget(steps, i, st.log)
    ensures Budget(steps, i + 1, Attempts(w, st, steps[i], 0, Null).0.log)
  {
    hide Attempts, Transcript, StepCalls, OfStep, DistinctSlugs;
    StepTranscript(w, st, steps[i]);
    var (after, flow) := Attempts(w, st, steps[i], 0, Null);
    TranscriptIsShort(steps[i], after.log[|st.log|..], flow);
    forall j | 0 <= j < |steps|
      ensures StepCalls(after.log, steps[j]) <= 4 && (j >= i + 1 ==> StepCalls(after.log, steps[j]) == 0)
    {
      if j == i {
        StepCallsGrow(st.log, after.log, steps[j]);
      } else {
        SlugsDiffer(steps, i, j);
        TranscriptIsOwn(steps[i], steps[j], st.log, after.log, flow);
        StepCallsOfOthers(st.log, after.log, steps[j]);
      }
    }
  }

  /** Without new plain calls no step has any. */
  lemma {:induction false} NoPlainNoStep(log: seq<Event>, more: seq<Event>, p: Pair)
    requires log <= more && PlainCalls(more) == PlainCalls(log)
    ensures StepCalls(more, p) == StepCalls(log, p)
    decreases |more|
  {
    if log != more {
      PlainCallsGrow(log, more[..|more| - 1]);
      NoPlainNoStep(log, more[..|more| - 1], p);
    }
  }

  lemma FanOutBudget(w: World, st: State, steps: seq<Pair>, i: nat)
    requires i < |steps| && st.status == Running && Budget(steps, i, st.log)
    ensures Budget(steps, i, FanOut(w, st, steps[i]).0.log)
  {
    hide FanOut, StepCalls, PlainCalls, PairEvents;
    FanOutStatus(w, st, steps[i]);
    FanOutExtends(w, st, steps[i]);
    var after := FanOut(w, st, steps[i]).0;
    forall j | 0 <= j < |steps| ensures StepCalls(after.log, steps[j]) == StepCalls(st.log, steps[j]) {
      NoPlainNoStep(st.log, after.log, steps[j]);
    }
  }

  lemma FanOutExtends(w: World, st: State, p: Pair)
    ensures st.log <= FanOut(w, st, p).0.log
  {
    hide FanMany, Targets;
    var ts := Targets(w.recipients(st.log), w.dmSteps(st.log));
    FanManyExtends(w, st, p, ts, |ts|);
  }

  lemma {:induction false} FoundationBudget(w: World, st: State, steps: seq<Pair>, i: nat, deadline: int)
    requires i <= |steps| && DistinctSlugs(steps) && Budget(steps, i, st.log) && st.status == Running
    ensures Budget(steps, |steps|, Foundation(w, st, steps, i, deadline).0.log)
    decreases |steps| - i
  {
    hide Attempts, Budget, DistinctSlugs;
    BudgetLoosens(steps, i, |steps|, st.log);
    if i < |steps| {
      StepBudget(w, st, steps, i);
      AttemptsStatus(w, st, steps[i], 0, Null);
      var (after, flow) := Attempts(w, st, steps[i], 0, Null);
      BudgetLoosens(steps, i + 1, |steps|, after.log);
      if !flow.Stop? {
        FoundationBudget(w, after, steps, i + 1, deadline);
      }
    }
  }

  lemma {:induction false} MaterializerBudget(w: World, st: State, steps: seq<Pair>, i: nat, deadline: int)
    requires i <= |steps| && DistinctSlugs(steps) && Budget(steps, i, st.log) && st.status == Running
    ensures Budget(steps, |steps|, Materializer(w, st, steps, i, deadline).0.log)
    decreases |steps| - i
  {
    hide Attempts, FanOut, Budget, DistinctSlugs;
    BudgetLoosens(steps, i, |steps|, st.log);
    if i < |steps| {
      FanOutBudget(w, st, steps, i);
      BudgetLoosens(steps, i, |steps|, FanOut(w, st, steps[i]).0.log);
      StepBudget(w, st, steps, i);
      AttemptsStatus(w, st, steps[i], 0, Null);
      var (after, flow) := Attempts(w, st, steps[i], 0, Null);
      BudgetLoosens(steps, i + 1, |steps|, after.log);
      if !flow.Stop? {
        MaterializerBudget(w, after, steps, i + 1, deadline);
      }
    }
  }

  /** Each step has at most four plain agent runs, in any run of either driver. */
  lemma FourCallsPerStep(w: World, steps: seq<Pair>, j: nat)
    requires DistinctSlugs(steps) && j < |steps|
    ensures StepCalls(RunFoundation(w, steps).0.log, steps[j]) <= 4
    ensures StepCalls(RunMaterializer(w, steps).0.log, steps[j]) <= 4
  {
    hide Foundation, Materializer, DistinctSlugs;
    assert Budget(steps, 0, START.log);
    FoundationBudget(w, START, steps, 0, w.clock([], 0) + FOUNDATION_LIMIT);
    MaterializerBudget(w, START, steps, 0, w.clock([], 0) + MATERIALIZER_LIMIT);
  }

  // ---------- the fan-out in its run ----------

  /** The run reaches its first fan-out with all earlier steps shipped and ends as the fan-out
      does, or it ends before without calling any agent of it. */
  ghost predicate FansOut(w: World, steps: seq<Pair>, reached: bool, at: State, after: State, e: Ending)
    requires FirstFanout(steps) < |steps|
  {
    var f := FirstFanout(steps);
    if reached then AtStep(steps, f, at) && (after, e) == FanOut(w, at, steps[f])
    else e != Finished(AllDone, None) && OnlySlugs(after.log, SlugsBefore(steps, f))
  }

  lemma {:induction false} MaterializerFansOut(w: World, st: State, steps: seq<Pair>, i: nat, deadline: int)
    returns (reached: bool, at: State)
    requires i <= FirstFanout(steps) < |steps| && DistinctSlugs(steps) && AtStep(steps, i, st) && st.status == Running
    ensures var (after, e) := Materializer(w, st, steps, i, deadline); FansOut(w, steps, reached, at, after, e)
    decreases |steps| - i
  {
    hide Attempts, FanOut, Opening, FirstAttemptsOpen, DistinctSlugs, PairEvents;
    var f := FirstFanout(steps);
    SlugsBeforeGrows(steps, i, f);
    reached, at := false, st;
    if w.clock(st.log, i + 1) <= deadline {
      if steps[i].isFanout {
        reached := true;
      } else {
        SlugsBeforeGrows(steps, i + 1, f);
        ShippedAdvances(w, st, steps, i);
        AttemptsStatus(w, st, steps[i], 0, Null);
        var (after, flow) := Attempts(w, st, steps[i], 0, Null);
        if flow.Shipped? {
          reached, at := MaterializerFansOut(w, after, steps, i + 1, deadline);
        }
      }
    }
  }

  /** The fan-out's exactness, in its run: a materializer run over a list with a fan-out either ends
      before it, incomplete and without calling its actor, or ends with it, every earlier step shipped
      and, unless it escapes, exactly as the logged answers of its targets say. */
  lemma RunFansOutExactly(w: World, steps: seq<Pair>) returns (reached: bool, at: State, starts: seq<nat>)
    requires DistinctSlugs(steps) && FirstFanout(steps) < |steps|
    ensures var (m, e) := RunMaterializer(w, steps);
            var p := steps[FirstFanout(steps)];
            if reached then
              && AtStep(steps, FirstFanout(steps), at) && (m, e) == FanOut(w, at, p)
              && (e != Escaped ==> FannedOutExactly(w, at, p, m, e, starts))
            else
              && e != Finished(AllDone, None)
              && forall k :: 0 <= k < |m.log| ==> m.log[k].call.slug != p.actor
  {
    hide Materializer, FanOut, FannedOutExactly, AtStep, DistinctSlugs;
    AtTheStart(steps);
    reached, at := MaterializerFansOut(w, START, steps, 0, w.clock([], 0) + MATERIALIZER_LIMIT);
    var f := FirstFanout(steps);
    ActorIsNotVerdict(steps, f);
    starts := FanOutIsExact(w, at, steps[f]);
    SlugsBeforeLacks(steps, f, f);
  }

  lemma ActorIsNotVerdict(steps: seq<Pair>, i: nat)
    requires DistinctSlugs(steps) && i < |steps|
    ensures steps[i].actor != steps[i].verdict
  {
  }
}
