/** Linear terms, and the only thing that is assumed of the Cassowary solver: once it has
    accepted a list of terms, its assignment satisfies the required ones. */
module Kiwi {
  import opened Geometry
  import Dsl

  datatype Dim = X | Y | W | H

  /** A value for each of the four variables of every element. */
  type Layout = string -> Rect

  datatype Lin =
    | Const(k: real)
    | Var(elem: string, dim: Dim)
    | Add(left: Lin, right: Lin)
    | Sub(left: Lin, right: Lin)
    | Scale(factor: real, body: Lin)

  datatype Rel = Ge | Le | Eq

  datatype Priority = Dsl(strength: Dsl.Strength) | UltraWeak

  datatype Term = Term(lhs: Lin, rel: Rel, rhs: Lin, priority: Priority)

  function Coordinate(r: Rect, d: Dim): real {
    match d case X => r.x case Y => r.y case W => r.w case H => r.h
  }

  function Times(f: real, v: real): (r: real)
    ensures f >= 0.0 && v >= 0.0 ==> r >= 0.0
  {
    f * v
  }

  function Eval(e: Lin, at: Layout): real {
    match e
    case Const(k) => k
    case Var(elem, dim) => Coordinate(at(elem), dim)
    case Add(a, b) => Eval(a, at) + Eval(b, at)
    case Sub(a, b) => Eval(a, at) - Eval(b, at)
    case Scale(f, b) => Times(f, Eval(b, at))
  }

  /** The sum of absolute coefficients, times the per-variable error `e`. */
  function Drift(l: Lin, e: real): (d: real)
    requires e >= 0.0
    ensures d >= 0.0
  {
    match l
    case Const(_) => 0.0
    case Var(_, _) => e
    case Add(a, b) => Drift(a, e) + Drift(b, e)
    case Sub(a, b) => Drift(a, e) + Drift(b, e)
    case Scale(f, b) => Times(Abs(f), Drift(b, e))
  }

  /** The term holds once each side may be off by its drift. */
  predicate HoldsWithin(t: Term, at: Layout, e: real)
    requires e >= 0.0
  {
    var gap := Eval(t.lhs, at) - Eval(t.rhs, at);
    var slack := Drift(t.lhs, e) + Drift(t.rhs, e);
    match t.rel
    case Ge => gap >= -slack
    case Le => gap <= slack
    case Eq => -slack <= gap <= slack
  }

  predicate Holds(t: Term, at: Layout) {
    match t.rel
    case Ge => Eval(t.lhs, at) >= Eval(t.rhs, at)
    case Le => Eval(t.lhs, at) <= Eval(t.rhs, at)
    case Eq => Eval(t.lhs, at) == Eval(t.rhs, at)
  }

  predicate IsRequired(t: Term) { t.priority == Dsl(Dsl.Required) }

  lemma {:induction false} NoErrorNoDrift(l: Lin)
    ensures Drift(l, 0.0) == 0.0
  {
    match l
    case Const(_) =>
    case Var(_, _) =>
    case Add(a, b) => NoErrorNoDrift(a); NoErrorNoDrift(b);
    case Sub(a, b) => NoErrorNoDrift(a); NoErrorNoDrift(b);
    case Scale(_, b) => NoErrorNoDrift(b);
  }

  lemma ExactIsZeroSlack(t: Term, at: Layout)
    ensures HoldsWithin(t, at, 0.0) <==> Holds(t, at)
  {
    NoErrorNoDrift(t.lhs);
    NoErrorNoDrift(t.rhs);
  }

  /** The two layouts differ by at most `e` in every coordinate. */
  ghost predicate Near(a: Layout, b: Layout, e: real) {
    forall n, d :: -e <= Coordinate(a(n), d) - Coordinate(b(n), d) <= e
  }

  lemma NearAt(a: Layout, b: Layout, e: real, n: string, d: Dim)
    requires Near(a, b, e)
    ensures -e <= Coordinate(a(n), d) - Coordinate(b(n), d) <= e
  {
  }

  lemma TimesSub(f: real, u: real, v: real)
    ensures Times(f, u) - Times(f, v) == Times(f, u - v)
  {
  }

  lemma TimesNegate(f: real, u: real)
    ensures Times(-f, u) == -Times(f, u) && Times(f, -u) == -Times(f, u)
  {
    assert (-f + f) * u == -f * u + f * u;
    assert f * (-u + u) == f * -u + f * u;
  }

  lemma TimesMonotone(f: real, u: real, v: real)
    requires f >= 0.0 && u <= v
    ensures Times(f, u) <= Times(f, v)
  {
    assert f * (v - u) >= 0.0;
  }

  lemma ScaleError(f: real, u: real, v: real, bound: real)
    requires -bound <= u - v <= bound
    ensures -Times(Abs(f), bound) <= Times(f, u) - Times(f, v) <= Times(Abs(f), bound)
  {
    hide Times;
    var d := u - v;
    TimesSub(f, u, v);
    TimesMonotone(Abs(f), d, bound);
    TimesMonotone(Abs(f), -bound, d);
    TimesNegate(Abs(f), bound);
    TimesNegate(f, d);
  }

  lemma {:induction false} EvalDrifts(l: Lin, a: Layout, b: Layout, e: real)
    requires e >= 0.0 && Near(a, b, e)
    ensures -Drift(l, e) <= Eval(l, a) - Eval(l, b) <= Drift(l, e)
  {
    hide Times, Near, Abs, Coordinate;
    match l
    case Const(_) =>
    case Var(n, d) => NearAt(a, b, e, n, d);
    case Add(p, q) => EvalDrifts(p, a, b, e); EvalDrifts(q, a, b, e);
    case Sub(p, q) => EvalDrifts(p, a, b, e); EvalDrifts(q, a, b, e);
    case Scale(f, p) =>
      EvalDrifts(p, a, b, e);
      ScaleError(f, Eval(p, a), Eval(p, b), Drift(p, e));
  }

  /** A term that holds before a small move holds within its coefficients' drift after it. */
  lemma NearlyHolds(t: Term, exact: Layout, moved: Layout, e: real)
    requires e >= 0.0 && Near(moved, exact, e) && Holds(t, exact)
    ensures HoldsWithin(t, moved, e)
  {
    EvalDrifts(t.lhs, moved, exact, e);
    EvalDrifts(t.rhs, moved, exact, e);
  }

  lemma RoundingIsNear(at: Layout)
    ensures Near(n => RoundRect(at(n)), at, ROUNDING)
  {
    var rounded: Layout := n => RoundRect(at(n));
    forall n, d ensures -ROUNDING <= Coordinate(rounded(n), d) - Coordinate(at(n), d) <= ROUNDING {
      Round4Error(Coordinate(at(n), d));
    }
  }

  // ---------- the solver as an oracle ----------

  datatype AddResult = Added | Unsatisfiable | BadStrength

  /** `add` answers one addConstraint call, given what was accepted before it;
      `assign` is the assignment read after updateVariables. */
  datatype Solver = Solver(add: (seq<Term>, Term) -> AddResult, assign: seq<Term> -> Layout)

  /** The list was built by accepted calls alone. */
  ghost predicate Accepted(k: Solver, ts: seq<Term>) {
    ts == [] || (Accepted(k, ts[..|ts| - 1]) && k.add(ts[..|ts| - 1], ts[|ts| - 1]) == Added)
  }

  ghost predicate SatisfiesRequired(ts: seq<Term>, at: Layout) {
    forall t :: t in ts && IsRequired(t) ==> Holds(t, at)
  }

  /** The contract: an accepted list is solved with every required term satisfied. */
  ghost predicate Sound(k: Solver) {
    forall ts :: Accepted(k, ts) ==> SatisfiesRequired(ts, k.assign(ts))
  }

  /** The second contract: a term is refused only when the required terms have no common
      solution any more. */
  ghost predicate Complete(k: Solver) {
    forall ts, t, at :: Accepted(k, ts) && SatisfiesRequired(ts + [t], at) ==> k.add(ts, t) == Added
  }

  datatype Batch = Batch(accepted: seq<Term>, verdict: AddResult)

  /** addConstraint over a list, stopping at the first refusal. */
  function AddAll(k: Solver, accepted: seq<Term>, ts: seq<Term>): Batch
    decreases |ts|
  {
    if ts == [] then Batch(accepted, Added)
    else
      var r := k.add(accepted, ts[0]);
      if r == Added then AddAll(k, accepted + [ts[0]], ts[1..]) else Batch(accepted, r)
  }

  lemma {:induction false} AddAllAccepts(k: Solver, accepted: seq<Term>, ts: seq<Term>)
    requires Accepted(k, accepted)
    ensures var b := AddAll(k, accepted, ts);
            Accepted(k, b.accepted) && (b.verdict == Added ==> b.accepted == accepted + ts)
    decreases |ts|
  {
    if ts != [] && k.add(accepted, ts[0]) == Added {
      var longer := accepted + [ts[0]];
      assert longer[..|longer| - 1] == accepted;
      AddAllAccepts(k, longer, ts[1..]);
      assert longer + ts[1..] == accepted + ts;
    }
  }

  lemma {:induction false} AddAllKeeps(k: Solver, accepted: seq<Term>, ts: seq<Term>)
    ensures forall t :: t in accepted ==> t in AddAll(k, accepted, ts).accepted
    decreases |ts|
  {
    if ts != [] && k.add(accepted, ts[0]) == Added {
      AddAllKeeps(k, accepted + [ts[0]], ts[1..]);
    }
  }

  /** With both contracts a list some layout satisfies is accepted as a whole. */
  lemma {:induction false} SatisfiableIsAdded(k: Solver, accepted: seq<Term>, ts: seq<Term>, at: Layout)
    requires Complete(k) && Accepted(k, accepted) && SatisfiesRequired(accepted + ts, at)
    ensures AddAll(k, accepted, ts).verdict == Added
    decreases |ts|
  {
    hide Holds;
    if ts != [] {
      var longer := accepted + [ts[0]];
      assert longer[..|longer| - 1] == accepted;
      assert longer + ts[1..] == accepted + ts;
      assert forall t :: t in longer ==> t in accepted + ts;
      assert SatisfiesRequired(longer, at);
      SatisfiableIsAdded(k, longer, ts[1..], at);
    }
  }

  const ORIGIN: Layout := _ => Rect(0.0, 0.0, 0.0, 0.0)

  /** The contract can be met: refuse every required term the all-zero layout breaks. */
  function ZeroSolver(): Solver {
    Solver((_, t) => if IsRequired(t) && !Holds(t, ORIGIN) then Unsatisfiable else Added, _ => ORIGIN)
  }

  lemma {:induction false} ZeroSolverAccepted(ts: seq<Term>)
    requires Accepted(ZeroSolver(), ts)
    ensures SatisfiesRequired(ts, ORIGIN)
  {
    if ts != [] {
      ZeroSolverAccepted(ts[..|ts| - 1]);
      assert ts == ts[..|ts| - 1] + [ts[|ts| - 1]];
    }
  }

  lemma SoundSolverExists()
    ensures Sound(ZeroSolver())
  {
    forall ts | Accepted(ZeroSolver(), ts) ensures SatisfiesRequired(ts, ZeroSolver().assign(ts)) {
      ZeroSolverAccepted(ts);
    }
  }

  ghost predicate Satisfiable(ts: seq<Term>) { exists at :: SatisfiesRequired(ts, at) }

  /** Both contracts can be met together: decide satisfiability outright. */
  ghost function ExactSolver(): Solver {
    Solver((ts, t) => if Satisfiable(ts + [t]) then Added else Unsatisfiable,
           ts => SomeSolution(ts))
  }

  ghost function SomeSolution(ts: seq<Term>): (at: Layout)
    ensures Satisfiable(ts) ==> SatisfiesRequired(ts, at)
  {
    if Satisfiable(ts) then
      var at: Layout :| SatisfiesRequired(ts, at);
      at
    else ORIGIN
  }

  lemma {:induction false} ExactAcceptsSatisfiable(ts: seq<Term>)
    requires Accepted(ExactSolver(), ts)
    ensures Satisfiable(ts)
  {
    if ts == [] {
      assert SatisfiesRequired(ts, ORIGIN);
    } else {
      assert ts == ts[..|ts| - 1] + [ts[|ts| - 1]];
    }
  }

  lemma ContractsAreCompatible()
    ensures Sound(ExactSolver()) && Complete(ExactSolver())
  {
    forall ts | Accepted(ExactSolver(), ts) ensures SatisfiesRequired(ts, ExactSolver().assign(ts)) {
      ExactAcceptsSatisfiable(ts);
    }
  }
}
