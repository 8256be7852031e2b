/** `solve`: reference check, linear phase, rounding, validators. */
module LayoutSolver {
  import opened Common
  import opened Geometry
  import opened Kiwi
  import opened Translate
  import D = Dsl
  import V = Validators

  datatype Intrinsics = Intrinsics(
    minWidth: real, minHeight: real, maxWidth: Option<real>, maxHeight: Option<real>,
    preferredWidth: Option<real>, preferredHeight: Option<real>)

  const NO_INTRINSICS := Intrinsics(0.0, 0.0, None, None, None, None)

  /** `zones` with the rectangle its iteration order starts with, when there is one. */
  datatype Problem = Problem(
    spec: D.Spec, zones: Zones, firstZone: Option<Rect>, intrinsics: map<string, Intrinsics>,
    content: V.Json, palette: V.Palette)

  datatype Escape = KeyError | SolverRefused

  datatype Outcome =
    | Answer(valid: bool, positions: V.Positions, conflicts: seq<V.Conflict>)
    | Escaped(cause: Escape)

  const REQUIRED := Dsl(D.Required)

  // ---------- terms added before the first constraint ----------

  function Floors(name: string): seq<Term> {
    [Term(Var(name, W), Ge, Const(0.0), REQUIRED), Term(Var(name, H), Ge, Const(0.0), REQUIRED)]
  }

  function SizeTerms(name: string, i: Intrinsics): seq<Term> {
    (if i.minWidth > 0.0 then [Term(Var(name, W), Ge, Const(i.minWidth), REQUIRED)] else [])
    + (if i.minHeight > 0.0 then [Term(Var(name, H), Ge, Const(i.minHeight), REQUIRED)] else [])
    + (if i.maxWidth.Some? then [Term(Var(name, W), Le, Const(i.maxWidth.value), REQUIRED)] else [])
    + (if i.maxHeight.Some? then [Term(Var(name, H), Le, Const(i.maxHeight.value), REQUIRED)] else [])
    + (if i.preferredWidth.Some? then [Term(Var(name, W), Eq, Const(i.preferredWidth.value), Dsl(D.Medium))] else [])
    + (if i.preferredHeight.Some? then [Term(Var(name, H), Eq, Const(i.preferredHeight.value), Dsl(D.Medium))] else [])
  }

  function OriginTerms(name: string, z: Rect): seq<Term> {
    [Term(Var(name, X), Eq, Const(z.x), UltraWeak), Term(Var(name, Y), Eq, Const(z.y), UltraWeak)]
  }

  function AllFloors(names: seq<string>): seq<Term> {
    if names == [] then [] else AllFloors(names[..|names| - 1]) + Floors(names[|names| - 1])
  }

  function AllSizes(names: seq<string>, intr: map<string, Intrinsics>): seq<Term> {
    if names == [] then []
    else
      var n := names[|names| - 1];
      AllSizes(names[..|names| - 1], intr) + SizeTerms(n, if n in intr then intr[n] else NO_INTRINSICS)
  }

  function AllOrigins(names: seq<string>, z: Rect): seq<Term> {
    if names == [] then [] else AllOrigins(names[..|names| - 1], z) + OriginTerms(names[|names| - 1], z)
  }

  function Preamble(p: Problem): seq<Term> {
    AllFloors(p.spec.elements) + AllSizes(p.spec.elements, p.intrinsics)
    + (if p.firstZone.Some? then AllOrigins(p.spec.elements, p.firstZone.value) else [])
  }

  lemma {:induction false} FloorsIncluded(names: seq<string>, name: string)
    requires name in names
    ensures forall t :: t in Floors(name) ==> t in AllFloors(names)
  {
    if names[|names| - 1] != name {
      FloorsIncluded(names[..|names| - 1], name);
    }
  }

  // ---------- linear phase ----------

  datatype Linear = Linear(accepted: seq<Term>, conflicts: seq<V.Conflict>, dead: bool)

  function Absorb(k: Solver, st: Linear, idx: nat, t: Translation): Linear {
    match t
    case MissingKey => st.(dead := true)
    case UnknownReference => st.(conflicts := st.conflicts + [V.Conflict(idx, V.LinearPhase, V.BadTerm)])
    case Terms(ts) =>
      var b := AddAll(k, st.accepted, ts);
      match b.verdict
      case Added => st.(accepted := b.accepted)
      case Unsatisfiable =>
        Linear(b.accepted, st.conflicts + [V.Conflict(idx, V.LinearPhase, V.Unsatisfiable)], false)
      case BadStrength =>
        Linear(b.accepted, st.conflicts + [V.Conflict(idx, V.LinearPhase, V.BadTerm)], false)
  }

  /** The linear phase over the first `n` constraints. */
  function LinearFold(k: Solver, p: Problem, n: nat, start: seq<Term>): Linear
    requires n <= |p.spec.constraints| && p.spec.WellFormed()
  {
    if n == 0 then Linear(start, [], false)
    else
      var st := LinearFold(k, p, n - 1, start);
      var c := p.spec.constraints[n - 1];
      if st.dead || !c.Linear() then st
      else Absorb(k, st, n - 1, ToKiwi(c, p.spec.ElementSet(), p.zones))
  }

  function Rounded(at: Layout, names: set<string>): V.Positions {
    map n | n in names :: RoundRect(at(n))
  }

  function Prevalidation(errs: seq<D.RefError>): seq<V.Conflict> {
    seq(|errs|, i requires 0 <= i < |errs| => V.Conflict(-1, V.Prevalidate, V.BadReference(errs[i])))
  }

  function SettingFor(p: Problem, positions: V.Positions): V.Setting {
    V.Setting(positions, p.zones, p.content, p.palette)
  }

  lemma ValidatorsCheckable(p: Problem, positions: V.Positions)
    requires p.spec.WellFormed() && D.RefErrors(p.spec) == [] && positions.Keys == p.spec.ElementSet()
    ensures forall i :: 0 <= i < |p.spec.constraints| && !p.spec.constraints[i].Linear() ==>
              V.Checkable(p.spec.constraints[i], SettingFor(p, positions))
  {
    hide D.RefErrors;
    D.NoErrorsMeansResolved(p.spec);
    forall i | 0 <= i < |p.spec.constraints| && !p.spec.constraints[i].Linear()
      ensures V.Placed(p.spec.constraints[i], positions)
    {
      var c := p.spec.constraints[i];
      assert forall n :: n in D.ElementRefs(c) ==> n in positions;
      if c.NoOverlapWithZone? || c.GridAlign? {
        assert D.ElementRefs(c)[0] == c.element;
      }
    }
  }

  /** The whole solve as a value. */
  function SolveSpec(k: Solver, p: Problem): Outcome
    requires p.spec.WellFormed()
  {
    var errs := D.RefErrors(p.spec);
    if errs != [] then Answer(false, map[], Prevalidation(errs))
    else
      var pre := AddAll(k, [], Preamble(p));
      if pre.verdict != Added then Escaped(SolverRefused)
      else
        var lin := LinearFold(k, p, |p.spec.constraints|, pre.accepted);
        if lin.dead then Escaped(KeyError)
        else if lin.conflicts != [] then Answer(false, map[], lin.conflicts)
        else
          var positions := Rounded(k.assign(lin.accepted), p.spec.ElementSet());
          ValidatorsCheckable(p, positions);
          var found := V.CheckAll(p.spec.constraints, |p.spec.constraints|, SettingFor(p, positions));
          if found.MissingKey? then Escaped(KeyError)
          else Answer(found.conflicts == [], positions, found.conflicts)
  }

  method AddTerms(k: Solver, accepted: seq<Term>, ts: seq<Term>) returns (out: seq<Term>, verdict: AddResult)
    ensures Batch(out, verdict) == AddAll(k, accepted, ts)
  {
    out, verdict := accepted, Added;
    for i := 0 to |ts|
      invariant verdict == Added
      invariant AddAll(k, accepted, ts) == AddAll(k, out, ts[i..])
    {
      verdict := k.add(out, ts[i]);
      if verdict != Added {
        return;
      }
      out := out + [ts[i]];
      assert ts[i..][1..] == ts[i + 1..];
    }
  }

  method Solve(k: Solver, p: Problem) returns (o: Outcome)
    requires p.spec.WellFormed()
    ensures o == SolveSpec(k, p)
  {
    hide ToKiwi, D.RefErrors, V.CheckAll, Preamble, D.Constraint.WellFormed, D.Constraint.Linear;
    var errs := D.ValidateReferences(p.spec);
    if errs != [] {
      return Answer(false, map[], Prevalidation(errs));
    }
    var accepted, verdict := AddTerms(k, [], Preamble(p));
    if verdict != Added {
      return Escaped(SolverRefused);
    }
    ghost var start := accepted;
    var conflicts: seq<V.Conflict> := [];
    var cs := p.spec.constraints;
    for idx := 0 to |cs|
      invariant LinearFold(k, p, idx, start) == Linear(accepted, conflicts, false)
    {
      if cs[idx].Linear() {
        var t := ToKiwi(cs[idx], p.spec.ElementSet(), p.zones);
        match t {
          case MissingKey =>
            DeadStays(k, p, idx + 1, |cs|, start);
            return Escaped(KeyError);
          case UnknownReference =>
            conflicts := conflicts + [V.Conflict(idx, V.LinearPhase, V.BadTerm)];
          case Terms(ts) =>
            accepted, verdict := AddTerms(k, accepted, ts);
            match verdict {
              case Added =>
              case Unsatisfiable => conflicts := conflicts + [V.Conflict(idx, V.LinearPhase, V.Unsatisfiable)];
              case BadStrength => conflicts := conflicts + [V.Conflict(idx, V.LinearPhase, V.BadTerm)];
            }
        }
      }
    }
    if conflicts != [] {
      return Answer(false, map[], conflicts);
    }
    var positions := Rounded(k.assign(accepted), p.spec.ElementSet());
    ValidatorsCheckable(p, positions);
    var found := V.RunValidators(cs, SettingFor(p, positions));
    if found.MissingKey? {
      return Escaped(KeyError);
    }
    o := Answer(found.conflicts == [], positions, found.conflicts);
  }

  lemma {:induction false} DeadStays(k: Solver, p: Problem, m: nat, n: nat, start: seq<Term>)
    requires m <= n <= |p.spec.constraints| && p.spec.WellFormed()
    requires LinearFold(k, p, m, start).dead
    ensures LinearFold(k, p, n, start).dead
    decreases n
  {
    if m < n {
      DeadStays(k, p, m, n - 1, start);
    }
  }
}
