/** What a caller may rely on after `solve`. */
module SolverGuarantees {
  import opened Common
  import opened Geometry
  import opened Kiwi
  import opened Translate
  import opened LayoutSolver
  import D = Dsl
  import V = Validators

  /** The rounded positions as a layout. */
  function LayoutOf(positions: V.Positions): Layout {
    n => if n in positions then positions[n] else Rect(0.0, 0.0, 0.0, 0.0)
  }

  // ---------- one phase, one verdict ----------

  lemma {:induction false} LinearConflictsOnly(k: Solver, p: Problem, n: nat, start: seq<Term>)
    requires n <= |p.spec.constraints| && p.spec.WellFormed()
    ensures forall f :: f in LinearFold(k, p, n, start).conflicts ==>
              f.phase == V.LinearPhase && 0 <= f.index < n && p.spec.constraints[f.index].Linear()
  {
    hide ToKiwi, D.Constraint.WellFormed;
    if n > 0 {
      LinearConflictsOnly(k, p, n - 1, start);
    }
  }

  /** An answer is valid exactly when it lists no conflict, its conflicts all come from one
      phase, and positions are missing exactly when the validators were never reached. */
  lemma VerdictIsCoherent(k: Solver, p: Problem)
    requires p.spec.WellFormed()
    ensures var o := SolveSpec(k, p);
            o.Answer? ==>
              && (o.valid <==> o.conflicts == [])
              && (forall f, g :: f in o.conflicts && g in o.conflicts ==> f.phase == g.phase)
              && (o.positions == map[] <==> o.conflicts != [] && o.conflicts[0].phase != V.ValidatorPhase)
  {
    hide ToKiwi, D.Constraint.WellFormed, D.RefErrors, LinearFold, V.CheckAll, Preamble;
    var errs := D.RefErrors(p.spec);
    var o := SolveSpec(k, p);
    if errs == [] && o.Answer? {
      var pre := AddAll(k, [], Preamble(p));
      LinearConflictsOnly(k, p, |p.spec.constraints|, pre.accepted);
      var lin := LinearFold(k, p, |p.spec.constraints|, pre.accepted);
      if lin.conflicts == [] {
        var positions := Rounded(k.assign(lin.accepted), p.spec.ElementSet());
        ValidatorsCheckable(p, positions);
        V.OnlyValidatorConflicts(p.spec.constraints, |p.spec.constraints|, SettingFor(p, positions));
        assert p.spec.elements[0] in positions;
      }
    }
  }

  // ---------- what the accepted list contains ----------

  lemma {:induction false} FoldKeeps(k: Solver, p: Problem, n: nat, start: seq<Term>)
    requires n <= |p.spec.constraints| && p.spec.WellFormed() && Accepted(k, start)
    ensures var lin := LinearFold(k, p, n, start);
            Accepted(k, lin.accepted) && forall t :: t in start ==> t in lin.accepted
  {
    hide ToKiwi, D.Constraint.WellFormed, Accepted;
    if n > 0 {
      FoldKeeps(k, p, n - 1, start);
      var st := LinearFold(k, p, n - 1, start);
      var c := p.spec.constraints[n - 1];
      if !st.dead && c.Linear() {
        var t := ToKiwi(c, p.spec.ElementSet(), p.zones);
        if t.Terms? {
          AddAllAccepts(k, st.accepted, t.ts);
          AddAllKeeps(k, st.accepted, t.ts);
        }
      }
    }
  }

  /** Without a conflict every linear constraint was translated and all its terms accepted. */
  lemma {:induction false} FoldIncludes(k: Solver, p: Problem, n: nat, start: seq<Term>, i: nat)
    requires i < n <= |p.spec.constraints| && p.spec.WellFormed() && Accepted(k, start)
    requires p.spec.constraints[i].Linear()
    ensures var lin := LinearFold(k, p, n, start);
            !lin.dead && lin.conflicts == [] ==>
              var tr := ToKiwi(p.spec.constraints[i], p.spec.ElementSet(), p.zones);
              tr.Terms? && forall t :: t in tr.ts ==> t in lin.accepted
  {
    hide ToKiwi, D.Constraint.WellFormed, Accepted;
    FoldKeeps(k, p, n - 1, start);
    var st := LinearFold(k, p, n - 1, start);
    var c := p.spec.constraints[n - 1];
    if i < n - 1 {
      FoldIncludes(k, p, n - 1, start, i);
    }
    if !st.dead && c.Linear() {
      var t := ToKiwi(c, p.spec.ElementSet(), p.zones);
      if t.Terms? {
        AddAllAccepts(k, st.accepted, t.ts);
        AddAllKeeps(k, st.accepted, t.ts);
      }
    }
  }

  /** A successful linear phase: the exact layout before rounding. */
  function ExactLayout(k: Solver, p: Problem): Layout
    requires p.spec.WellFormed()
  {
    k.assign(LinearFold(k, p, |p.spec.constraints|, AddAll(k, [], Preamble(p)).accepted).accepted)
  }

  /** The solver got as far as reading positions. */
  predicate Positioned(k: Solver, p: Problem)
    requires p.spec.WellFormed()
  {
    var o := SolveSpec(k, p);
    o.Answer? && o.positions != map[]
  }

  lemma PositionedFacts(k: Solver, p: Problem)
    requires p.spec.WellFormed() && Positioned(k, p)
    ensures var pre := AddAll(k, [], Preamble(p));
            var lin := LinearFold(k, p, |p.spec.constraints|, pre.accepted);
            && D.RefErrors(p.spec) == [] && pre.verdict == Added && !lin.dead && lin.conflicts == []
            && Accepted(k, pre.accepted) && pre.accepted == Preamble(p)
            && SolveSpec(k, p).positions == Rounded(ExactLayout(k, p), p.spec.ElementSet())
  {
    hide ToKiwi, D.Constraint.WellFormed, D.RefErrors, LinearFold, V.CheckAll, Preamble;
    AddAllAccepts(k, [], Preamble(p));
  }

  /** Before rounding, a linear constraint of strength required reads exactly as written. */
  lemma RequiredHoldsExactly(k: Solver, p: Problem, i: nat)
    requires Sound(k) && p.spec.WellFormed() && Positioned(k, p)
    requires i < |p.spec.constraints| && p.spec.constraints[i].Linear() && p.spec.constraints[i].strength == D.Required
    ensures Reading(p.spec.constraints[i], ExactLayout(k, p), p.zones, 0.0)
  {
    hide ToKiwi, Reading, LinearFold, Preamble, D.Constraint.WellFormed, SolveSpec, HoldsWithin, Holds;
    PositionedFacts(k, p);
    var n, start := |p.spec.constraints|, AddAll(k, [], Preamble(p)).accepted;
    var c, at := p.spec.constraints[i], ExactLayout(k, p);
    FoldKeeps(k, p, n, start);
    FoldIncludes(k, p, n, start, i);
    var ts := ToKiwi(c, p.spec.ElementSet(), p.zones).ts;
    var accepted := LinearFold(k, p, n, start).accepted;
    assert SatisfiesRequired(accepted, at);
    forall t | t in ts && t.priority == Dsl(c.strength) ensures HoldsWithin(t, at, 0.0) {
      assert t in accepted && IsRequired(t);
      ExactIsZeroSlack(t, at);
    }
    assert OwnTermsHold(c, ts, at, 0.0);
    MeaningPreserved(c, p.spec.ElementSet(), p.zones, at, 0.0);
  }

  /** A reading looks only at declared elements. */
  lemma ReadingIsLocal(c: D.Constraint, elems: set<string>, zones: Zones, a: Layout, b: Layout, e: real)
    requires c.Linear() && c.WellFormed() && ToKiwi(c, elems, zones).Terms?
    requires forall n :: n in elems ==> a(n) == b(n)
    ensures Reading(c, a, zones, e) <==> Reading(c, b, zones, e)
  {
    hide Placed, Times, SideOf, Close, D.Stem, D.LastDot, AnchorRow, AnchorColumn, RowPlace, ColumnPlace,
      InsideTerms, AlignTerms, AnchorTerms, GapTerms, BoundTerms, RatioTerms;
  }

  /** The rounding bound: on the returned positions every required linear constraint reads as
      written, with each coordinate allowed half a unit of the fourth decimal. */
  lemma RequiredHoldsOnPositions(k: Solver, p: Problem, i: nat)
    requires Sound(k) && p.spec.WellFormed() && Positioned(k, p)
    requires i < |p.spec.constraints| && p.spec.constraints[i].Linear() && p.spec.constraints[i].strength == D.Required
    ensures Reading(p.spec.constraints[i], LayoutOf(SolveSpec(k, p).positions), p.zones, ROUNDING)
  {
    hide ToKiwi, Reading, LinearFold, Preamble, D.Constraint.WellFormed, SolveSpec, HoldsWithin, Holds, RoundRect;
    PositionedFacts(k, p);
    var n, start := |p.spec.constraints|, AddAll(k, [], Preamble(p)).accepted;
    var c, at, elems := p.spec.constraints[i], ExactLayout(k, p), p.spec.ElementSet();
    FoldKeeps(k, p, n, start);
    FoldIncludes(k, p, n, start, i);
    var ts := ToKiwi(c, elems, p.zones).ts;
    assert SatisfiesRequired(LinearFold(k, p, n, start).accepted, at);
    var rounded: Layout := m => RoundRect(at(m));
    RoundingIsNear(at);
    forall t | t in ts && t.priority == Dsl(c.strength) ensures HoldsWithin(t, rounded, ROUNDING) {
      assert IsRequired(t);
      NearlyHolds(t, at, rounded, ROUNDING);
    }
    assert OwnTermsHold(c, ts, rounded, ROUNDING);
    MeaningPreserved(c, elems, p.zones, rounded, ROUNDING);
    ReadingIsLocal(c, elems, p.zones, rounded, LayoutOf(SolveSpec(k, p).positions), ROUNDING);
  }

  /** Every required linear constraint reads as written on the positions, within the rounding. */
  ghost predicate RequiredHold(p: Problem, positions: V.Positions)
    requires p.spec.WellFormed()
  {
    forall i :: 0 <= i < |p.spec.constraints| && p.spec.constraints[i].Linear()
                && p.spec.constraints[i].strength == D.Required ==>
      Reading(p.spec.constraints[i], LayoutOf(positions), p.zones, ROUNDING)
  }

  /** Every validator passes, whatever its strength. */
  ghost predicate ValidatorsPass(p: Problem, positions: V.Positions) {
    forall i :: 0 <= i < |p.spec.constraints| && !p.spec.constraints[i].Linear() ==>
      V.Checkable(p.spec.constraints[i], SettingFor(p, positions))
      && V.Passes(p.spec.constraints[i], SettingFor(p, positions))
  }

  /** Main guarantee of a valid answer: required linear constraints hold within the rounding
      bound and validators hold as checked, whatever their strength; and an answer with
      positions is valid exactly when all its validators pass. */
  lemma ValidMeansSatisfied(k: Solver, p: Problem)
    requires Sound(k) && p.spec.WellFormed() && Positioned(k, p)
    ensures var o := SolveSpec(k, p);
            && RequiredHold(p, o.positions)
            && o.positions.Keys == p.spec.ElementSet()
            && (o.valid <==> ValidatorsPass(p, o.positions))
  {
    hide ToKiwi, Reading, LinearFold, Preamble, D.Constraint.WellFormed, RoundRect, V.Passes, V.CheckAll, V.Placed,
      D.RefErrors, ExactLayout;
    PositionedFacts(k, p);
    var o, cs := SolveSpec(k, p), p.spec.constraints;
    ValidatorsCheckable(p, o.positions);
    V.SilentIffAllPass(cs, |cs|, SettingFor(p, o.positions));
    forall i | 0 <= i < |cs| && cs[i].Linear() && cs[i].strength == D.Required
      ensures Reading(cs[i], LayoutOf(o.positions), p.zones, ROUNDING)
    {
      RequiredHoldsOnPositions(k, p, i);
    }
  }

  // ---------- the bounds spelled out ----------

  /** The bounds a reader can quote: 0.0001 for inside, 0.00015 for a gap, 0.00005(1 + r) for
      a size ratio r. */
  lemma QuotedBounds(k: Solver, p: Problem, i: nat)
    requires Sound(k) && p.spec.WellFormed() && Positioned(k, p)
    requires i < |p.spec.constraints| && p.spec.constraints[i].Linear() && p.spec.constraints[i].strength == D.Required
    ensures var c, at := p.spec.constraints[i], LayoutOf(SolveSpec(k, p).positions);
            && (c.Inside? ==>
                  && c.zone in p.zones
                  && at(c.element).Right() <= p.zones[c.zone].Right() + 0.0001
                  && at(c.element).Bottom() <= p.zones[c.zone].Bottom() + 0.0001
                  && at(c.element).x >= p.zones[c.zone].x - 0.0001
                  && at(c.element).y >= p.zones[c.zone].y - 0.0001)
            && (c.VerticalGap? ==> at(c.below).y - at(c.above).Bottom() >= c.min - 0.00015)
            && (c.HorizontalGap? ==> at(c.right).x - at(c.left).Right() >= c.min - 0.00015)
            && (c.SizeRatio? ==>
                  Coordinate(at(D.Stem(c.larger)), SideOf(c.larger)) >=
                  Times(c.minRatio, Coordinate(at(D.Stem(c.smaller)), SideOf(c.smaller)))
                  - 0.00005 * (1.0 + c.minRatio))
  {
    hide ToKiwi, LinearFold, Preamble, SolveSpec, Positioned, Sound, Placed, D.Stem, SideOf, AnchorRow, AnchorColumn;
    RequiredHoldsOnPositions(k, p, i);
    var c := p.spec.constraints[i];
    if c.SizeRatio? {
      assert Times(c.minRatio, ROUNDING) == 0.00005 * c.minRatio;
    }
  }

  // ---------- size hints ----------

  /** The size hints of an element, with `e` to spare; a floor of zero or less is no hint. */
  predicate SizesOk(r: Rect, i: Intrinsics, e: real) {
    && (i.minWidth > 0.0 ==> r.w >= i.minWidth - e) && (i.minHeight > 0.0 ==> r.h >= i.minHeight - e)
    && (i.maxWidth.Some? ==> r.w <= i.maxWidth.value + e) && (i.maxHeight.Some? ==> r.h <= i.maxHeight.value + e)
  }

  lemma Bounded(ts: seq<Term>, at: Layout, name: string, d: Dim, rel: Rel, v: real)
    requires SatisfiesRequired(ts, at) && Term(Var(name, d), rel, Const(v), REQUIRED) in ts && rel != Eq
    ensures if rel == Ge then Coordinate(at(name), d) >= v else Coordinate(at(name), d) <= v
  {
    var t := Term(Var(name, d), rel, Const(v), REQUIRED);
    assert IsRequired(t) && Holds(t, at);
  }

  lemma SizesMean(name: string, i: Intrinsics, at: Layout, ts: seq<Term>)
    requires SatisfiesRequired(ts, at) && forall t :: t in SizeTerms(name, i) ==> t in ts
    ensures SizesOk(at(name), i, 0.0)
  {
    hide SatisfiesRequired;
    if i.minWidth > 0.0 {
      Bounded(ts, at, name, W, Ge, i.minWidth);
    }
    if i.minHeight > 0.0 {
      Bounded(ts, at, name, H, Ge, i.minHeight);
    }
    if i.maxWidth.Some? {
      Bounded(ts, at, name, W, Le, i.maxWidth.value);
    }
    if i.maxHeight.Some? {
      Bounded(ts, at, name, H, Le, i.maxHeight.value);
    }
  }

  lemma RoundingKeepsSizes(r: Rect, i: Intrinsics)
    requires SizesOk(r, i, 0.0) && r.w >= 0.0 && r.h >= 0.0
    ensures var q := RoundRect(r); SizesOk(q, i, ROUNDING) && q.w >= 0.0 && q.h >= 0.0
  {
    Round4Error(r.w);
    Round4Error(r.h);
  }

  lemma HintsHoldExactly(k: Solver, p: Problem, name: string)
    requires Sound(k) && p.spec.WellFormed() && Positioned(k, p) && name in p.spec.elements && name in p.intrinsics
    ensures SizesOk(ExactLayout(k, p)(name), p.intrinsics[name], 0.0)
  {
    hide ToKiwi, LinearFold, D.Constraint.WellFormed, SolveSpec, AllSizes, AllOrigins, AllFloors, SizeTerms, SizesOk,
      Holds, Positioned, Sound, Accepted;
    PositionedFacts(k, p);
    var n, start := |p.spec.constraints|, AddAll(k, [], Preamble(p)).accepted;
    FoldKeeps(k, p, n, start);
    SizesIncluded(p.spec.elements, p.intrinsics, name);
    var ts := LinearFold(k, p, n, start).accepted;
    SolvedAccepted(k, ts);
    SizesMean(name, p.intrinsics[name], ExactLayout(k, p), ts);
  }

  /** Every returned size is non-negative and within its hints, up to the rounding. */
  lemma HintsHoldOnPositions(k: Solver, p: Problem, name: string)
    requires Sound(k) && p.spec.WellFormed() && Positioned(k, p) && name in p.spec.elements
    ensures var ps := SolveSpec(k, p).positions;
            name in ps && ps[name].w >= 0.0 && ps[name].h >= 0.0
            && (name in p.intrinsics ==> SizesOk(ps[name], p.intrinsics[name], ROUNDING))
  {
    hide ExactLayout, Positioned, Sound, SolveSpec, D.Constraint.WellFormed, RoundRect, SizesOk, Preamble, LinearFold,
      D.RefErrors;
    PositionedFacts(k, p);
    HeightsAreNonNegative(k, p, name);
    var r := ExactLayout(k, p)(name);
    RoundingKeepsSizes(r, NO_INTRINSICS) by {
      NoHints(r);
    }
    if name in p.intrinsics {
      HintsHoldExactly(k, p, name);
      RoundingKeepsSizes(r, p.intrinsics[name]);
    }
  }

  lemma NoHints(r: Rect)
    ensures SizesOk(r, NO_INTRINSICS, 0.0)
  {
  }

  // ---------- chains of gaps ----------

  /** Neighbours of the chain are linked by required vertical gaps with a non-negative minimum. */
  ghost predicate GapChain(spec: D.Spec, chain: seq<string>) {
    && (forall e :: e in chain ==> e in spec.elements)
    && forall m :: 0 <= m < |chain| - 1 ==> Linked(spec, chain[m], chain[m + 1])
  }

  ghost predicate Linked(spec: D.Spec, above: string, below: string) {
    exists i :: 0 <= i < |spec.constraints| && IsLink(spec.constraints[i], above, below)
  }

  predicate IsLink(c: D.Constraint, above: string, below: string) {
    c.VerticalGap? && c.strength == D.Required && c.min >= 0.0 && c.above == above && c.below == below
  }

  lemma HeightsAreNonNegative(k: Solver, p: Problem, name: string)
    requires Sound(k) && p.spec.WellFormed() && Positioned(k, p) && name in p.spec.elements
    ensures ExactLayout(k, p)(name).w >= 0.0 && ExactLayout(k, p)(name).h >= 0.0
  {
    hide ToKiwi, LinearFold, D.Constraint.WellFormed, SolveSpec, AllSizes, AllOrigins, Holds,
      Positioned, Sound, Accepted;
    PositionedFacts(k, p);
    var n, start := |p.spec.constraints|, AddAll(k, [], Preamble(p)).accepted;
    FoldKeeps(k, p, n, start);
    FloorsIncluded(p.spec.elements, name);
    FloorsMean(name, ExactLayout(k, p), LinearFold(k, p, n, start).accepted) by {
      SolvedAccepted(k, LinearFold(k, p, n, start).accepted);
    }
  }

  lemma SolvedAccepted(k: Solver, ts: seq<Term>)
    requires Sound(k) && Accepted(k, ts)
    ensures SatisfiesRequired(ts, k.assign(ts))
  {
  }

  lemma FloorsMean(name: string, at: Layout, accepted: seq<Term>)
    requires SatisfiesRequired(accepted, at) && forall t :: t in Floors(name) ==> t in accepted
    ensures at(name).w >= 0.0 && at(name).h >= 0.0
  {
    var tw, th := Floors(name)[0], Floors(name)[1];
    assert tw in accepted && th in accepted;
    assert IsRequired(tw) && IsRequired(th);
    assert Holds(tw, at) && Holds(th, at);
  }

  lemma {:induction false} ChainDescends(k: Solver, p: Problem, chain: seq<string>, i: nat, j: nat)
    requires Sound(k) && p.spec.WellFormed() && Positioned(k, p) && GapChain(p.spec, chain)
    requires i < j < |chain|
    ensures ExactLayout(k, p)(chain[j]).y >= ExactLayout(k, p)(chain[i]).Bottom()
    decreases j
  {
    hide ExactLayout, Positioned, Sound, D.Constraint.WellFormed;
    assert Linked(p.spec, chain[j - 1], chain[j]);
    var m :| 0 <= m < |p.spec.constraints| && IsLink(p.spec.constraints[m], chain[j - 1], chain[j]);
    LinkedDescends(k, p, m);
    if i < j - 1 {
      ChainDescends(k, p, chain, i, j - 1);
      HeightsAreNonNegative(k, p, chain[j - 1]);
    }
  }

  lemma GapReading(c: D.Constraint, at: Layout, zones: Zones)
    requires c.VerticalGap? && c.WellFormed() && Reading(c, at, zones, 0.0)
    ensures at(c.below).y >= at(c.above).Bottom() + c.min
  {
    assert at(c.below).y - at(c.above).Bottom() >= c.min - 3.0 * 0.0;
  }

  lemma ConstraintWellFormed(spec: D.Spec, m: nat)
    requires spec.WellFormed() && m < |spec.constraints|
    ensures spec.constraints[m].WellFormed()
  {
    hide D.Constraint.WellFormed;
  }

  lemma LinkIsRequired(c: D.Constraint)
    requires c.VerticalGap? && IsLink(c, c.above, c.below)
    ensures c.Linear() && c.strength == D.Required && c.min >= 0.0
  {
  }

  lemma LinkedDescends(k: Solver, p: Problem, m: nat)
    requires Sound(k) && p.spec.WellFormed() && Positioned(k, p)
    requires m < |p.spec.constraints| && p.spec.constraints[m].VerticalGap?
    requires IsLink(p.spec.constraints[m], p.spec.constraints[m].above, p.spec.constraints[m].below)
    ensures ExactLayout(k, p)(p.spec.constraints[m].below).y >= ExactLayout(k, p)(p.spec.constraints[m].above).Bottom()
  {
    hide *;
    ConstraintWellFormed(p.spec, m);
    LinkIsRequired(p.spec.constraints[m]);
    RequiredHoldsExactly(k, p, m);
    GapReading(p.spec.constraints[m], ExactLayout(k, p), p.zones);
  }

  /** However long the chain, no two of its elements overlap after rounding, adjacent or not. */
  lemma ChainNeverOverlaps(k: Solver, p: Problem, chain: seq<string>, i: nat, j: nat)
    requires Sound(k) && p.spec.WellFormed() && Positioned(k, p) && GapChain(p.spec, chain)
    requires i < j < |chain|
    ensures var ps := SolveSpec(k, p).positions;
            chain[i] in ps && chain[j] in ps && !Overlap(ps[chain[i]], ps[chain[j]])
  {
    hide ExactLayout, Positioned, Sound, SolveSpec, D.Constraint.WellFormed, Round4, Preamble, LinearFold, D.RefErrors;
    PositionedFacts(k, p);
    ChainDescends(k, p, chain, i, j);
    var a, b := ExactLayout(k, p)(chain[i]), ExactLayout(k, p)(chain[j]);
    Round4Error(a.y);
    Round4Error(a.h);
    Round4Error(b.y);
  }

  /** So a no_overlap constraint over distinct elements of such a chain is never reported. */
  lemma ChainSatisfiesNoOverlap(k: Solver, p: Problem, chain: seq<string>, m: nat)
    requires Sound(k) && p.spec.WellFormed() && Positioned(k, p) && GapChain(p.spec, chain)
    requires m < |p.spec.constraints| && p.spec.constraints[m].NoOverlap?
    requires forall e :: e in p.spec.constraints[m].elements ==> e in chain
    requires forall u, v :: 0 <= u < v < |p.spec.constraints[m].elements| ==>
               p.spec.constraints[m].elements[u] != p.spec.constraints[m].elements[v]
    ensures forall f :: f in SolveSpec(k, p).conflicts ==> f.index != m
  {
    hide Sound, D.Constraint.WellFormed, Overlap, Preamble, LinearFold, D.RefErrors, GapChain, V.CheckAll,
      ExactLayout, V.Passes;
    PositionedFacts(k, p);
    var ps, cs := SolveSpec(k, p).positions, p.spec.constraints;
    var st := SettingFor(p, ps);
    ValidatorsCheckable(p, ps);
    ChainPasses(k, p, chain, m);
    V.CheckIsExact(cs[m], m, st);
    V.SilentValidatorUnreported(cs, |cs|, st, m);
  }

  lemma ChainPasses(k: Solver, p: Problem, chain: seq<string>, m: nat)
    requires Sound(k) && p.spec.WellFormed() && Positioned(k, p) && GapChain(p.spec, chain)
    requires m < |p.spec.constraints| && p.spec.constraints[m].NoOverlap?
    requires forall e :: e in p.spec.constraints[m].elements ==> e in chain
    requires forall u, v :: 0 <= u < v < |p.spec.constraints[m].elements| ==>
               p.spec.constraints[m].elements[u] != p.spec.constraints[m].elements[v]
    requires V.Checkable(p.spec.constraints[m], SettingFor(p, SolveSpec(k, p).positions))
    ensures V.Passes(p.spec.constraints[m], SettingFor(p, SolveSpec(k, p).positions))
  {
    hide Sound, D.Constraint.WellFormed, Overlap, SolveSpec, GapChain;
    var ps, els := SolveSpec(k, p).positions, p.spec.constraints[m].elements;
    forall i, j | 0 <= i < j < |els| ensures !Overlap(ps[els[i]], ps[els[j]]) {
      assert els[i] in els && els[j] in els;
      var u :| 0 <= u < |chain| && chain[u] == els[i];
      var v :| 0 <= v < |chain| && chain[v] == els[j];
      if u < v {
        ChainNeverOverlaps(k, p, chain, u, v);
      } else {
        ChainNeverOverlaps(k, p, chain, v, u);
        OverlapIsThickIntersection(ps[els[i]], ps[els[j]]);
      }
    }
  }

  // ---------- what escapes from solve ----------

  ghost predicate ZonesBound(p: Problem) { forall z :: z in p.spec.zones ==> z in p.zones }

  predicate OneDot(c: D.Constraint) { c.SizeRatio? ==> D.SingleDot(c.larger) && D.SingleDot(c.smaller) }

  /** What the caller of `solve` must see to: every declared zone is bound and every size-ratio
      operand has one dot. */
  ghost predicate LookupsCovered(p: Problem) {
    ZonesBound(p) && forall i :: 0 <= i < |p.spec.constraints| ==> OneDot(p.spec.constraints[i])
  }

  /** A size-ratio operand whose last-dot stem is no element. */
  predicate StemMissing(c: D.Constraint, elements: seq<string>)
    requires c.WellFormed()
  {
    c.SizeRatio? && (D.Stem(c.larger) !in elements || D.Stem(c.smaller) !in elements)
  }

  lemma MissingKeyIffStemMissing(p: Problem, i: nat)
    requires p.spec.WellFormed() && D.RefErrors(p.spec) == [] && ZonesBound(p)
    requires i < |p.spec.constraints| && p.spec.constraints[i].Linear()
    ensures ToKiwi(p.spec.constraints[i], p.spec.ElementSet(), p.zones) == MissingKey
            <==> StemMissing(p.spec.constraints[i], p.spec.elements)
  {
    hide ToKiwi, D.RefErrors, D.Stem, D.Constraint.WellFormed;
    LookupsSucceed(p.spec, i, p.zones);
  }

  /** The linear phase dies exactly at the first constraint with a missing stem. */
  lemma {:induction false} FoldDiesIffStemMissing(k: Solver, p: Problem, n: nat, start: seq<Term>)
    requires n <= |p.spec.constraints| && p.spec.WellFormed() && D.RefErrors(p.spec) == [] && ZonesBound(p)
    ensures LinearFold(k, p, n, start).dead <==>
            exists i :: 0 <= i < n && StemMissing(p.spec.constraints[i], p.spec.elements)
  {
    hide ToKiwi, D.Constraint.WellFormed, D.RefErrors, StemMissing, ZonesBound;
    if n > 0 {
      FoldDiesIffStemMissing(k, p, n - 1, start);
      var c := p.spec.constraints[n - 1];
      if c.Linear() {
        MissingKeyIffStemMissing(p, n - 1);
      } else {
        OnlyRatiosMiss(c, p.spec.elements);
      }
    }
  }

  lemma OnlyRatiosMiss(c: D.Constraint, elements: seq<string>)
    requires c.WellFormed() && !c.Linear()
    ensures !StemMissing(c, elements)
  {
  }

  lemma ZoneCheckFinds(p: Problem, positions: V.Positions, m: nat)
    requires p.spec.WellFormed() && D.RefErrors(p.spec) == [] && ZonesBound(p)
    requires m < |p.spec.constraints| && V.Checkable(p.spec.constraints[m], SettingFor(p, positions))
    ensures V.CheckOne(p.spec.constraints[m], m, SettingFor(p, positions)).Found?
  {
    hide D.RefErrors, V.ContrastConflicts, V.ColorOf, Overlap, V.OnGrid;
    var c := p.spec.constraints[m];
    if c.NoOverlapWithZone? {
      D.NoErrorsMeansResolved(p.spec);
      assert D.ZoneRefs(c)[0] == c.zone;
    }
  }

  lemma {:induction false} ChecksNeverMiss(p: Problem, positions: V.Positions, n: nat)
    requires n <= |p.spec.constraints| && p.spec.WellFormed() && D.RefErrors(p.spec) == [] && ZonesBound(p)
    requires forall i :: 0 <= i < |p.spec.constraints| && !p.spec.constraints[i].Linear() ==>
               V.Checkable(p.spec.constraints[i], SettingFor(p, positions))
    ensures V.CheckAll(p.spec.constraints, n, SettingFor(p, positions)).Found?
  {
    hide D.RefErrors, V.CheckOne, D.Spec.WellFormed, ZonesBound, V.Checkable, D.Constraint.Linear;
    if n > 0 {
      ChecksNeverMiss(p, positions, n - 1);
      if !p.spec.constraints[n - 1].Linear() {
        ZoneCheckFinds(p, positions, n - 1);
      }
    }
  }

  /** With the zones bound, and the sizes and floors accepted, solve raises KeyError exactly when
      some ratio operand's last-dot stem is not an element. */
  lemma KeyErrorIffStemMissing(k: Solver, p: Problem)
    requires p.spec.WellFormed() && D.RefErrors(p.spec) == [] && ZonesBound(p)
    requires AddAll(k, [], Preamble(p)).verdict == Added
    ensures SolveSpec(k, p) == Escaped(KeyError)
            <==> exists i :: 0 <= i < |p.spec.constraints| && StemMissing(p.spec.constraints[i], p.spec.elements)
    ensures SolveSpec(k, p) != Escaped(SolverRefused)
  {
    hide ToKiwi, D.Constraint.WellFormed, D.RefErrors, LinearFold, V.CheckAll, Preamble, ZonesBound, StemMissing;
    var pre := AddAll(k, [], Preamble(p));
    FoldDiesIffStemMissing(k, p, |p.spec.constraints|, pre.accepted);
    var lin := LinearFold(k, p, |p.spec.constraints|, pre.accepted);
    var positions := Rounded(k.assign(lin.accepted), p.spec.ElementSet());
    ValidatorsCheckable(p, positions);
    ChecksNeverMiss(p, positions, |p.spec.constraints|);
  }

  /** One dot in every operand rules that out; then only refused size hints can escape. */
  lemma NoLookupFails(k: Solver, p: Problem)
    requires p.spec.WellFormed() && LookupsCovered(p)
    ensures SolveSpec(k, p) != Escaped(KeyError)
    ensures SolveSpec(k, p).Escaped? ==>
              D.RefErrors(p.spec) == [] && AddAll(k, [], Preamble(p)).verdict != Added
  {
    hide ToKiwi, D.Constraint.WellFormed, D.RefErrors, LinearFold, V.CheckAll, Preamble, ZonesBound, StemMissing;
    if D.RefErrors(p.spec) == [] && AddAll(k, [], Preamble(p)).verdict == Added {
      KeyErrorIffStemMissing(k, p);
      forall i | 0 <= i < |p.spec.constraints| ensures !StemMissing(p.spec.constraints[i], p.spec.elements) {
        OneDotIsNotMissing(p, i);
      }
    }
  }

  lemma OneDotIsNotMissing(p: Problem, i: nat)
    requires p.spec.WellFormed() && D.RefErrors(p.spec) == []
    requires i < |p.spec.constraints| && OneDot(p.spec.constraints[i])
    ensures !StemMissing(p.spec.constraints[i], p.spec.elements)
  {
    hide D.RefErrors, D.SingleDot, D.Stem, D.Head;
    var c := p.spec.constraints[i];
    if c.SizeRatio? {
      D.SplitsAgree(c.larger);
      D.SplitsAgree(c.smaller);
      D.NoErrorsMeansResolved(p.spec);
      assert D.ElementRefs(c)[0] == D.Head(c.larger) && D.ElementRefs(c)[1] == D.Head(c.smaller);
    }
  }

  lemma {:induction false} SizesIncluded(names: seq<string>, intr: map<string, Intrinsics>, name: string)
    requires name in names && name in intr
    ensures forall t :: t in SizeTerms(name, intr[name]) ==> t in AllSizes(names, intr)
  {
    hide SizeTerms;
    if names[|names| - 1] != name {
      SizesIncluded(names[..|names| - 1], intr, name);
    }
  }

  /** A ceiling below zero or below the floor, in either direction. */
  predicate Contradictory(i: Intrinsics) {
    || (i.maxWidth.Some? && i.maxWidth.value < Max(0.0, i.minWidth))
    || (i.maxHeight.Some? && i.maxHeight.value < Max(0.0, i.minHeight))
  }

  lemma ContradictionsDoNotFit(r: Rect, i: Intrinsics)
    requires SizesOk(r, i, 0.0) && r.w >= 0.0 && r.h >= 0.0
    ensures !Contradictory(i)
  {
  }

  /** Whatever the solver accepts before the first constraint has hints that fit. */
  lemma AddedHintsFit(k: Solver, p: Problem, name: string)
    requires Sound(k) && p.spec.WellFormed() && AddAll(k, [], Preamble(p)).verdict == Added
    requires name in p.spec.elements && name in p.intrinsics
    ensures !Contradictory(p.intrinsics[name])
  {
    hide Sound, Accepted, AllFloors, AllOrigins, AllSizes, Floors, SizeTerms, SatisfiesRequired, D.Spec.WellFormed,
      SizesOk, Contradictory;
    EmptyAccepted(k);
    AddAllAccepts(k, [], Preamble(p));
    var ts := AddAll(k, [], Preamble(p)).accepted;
    SolvedAccepted(k, ts);
    FloorsIncluded(p.spec.elements, name);
    SizesIncluded(p.spec.elements, p.intrinsics, name);
    FloorsMean(name, k.assign(ts), ts);
    SizesMean(name, p.intrinsics[name], k.assign(ts), ts);
    ContradictionsDoNotFit(k.assign(ts)(name), p.intrinsics[name]);
  }

  /** Contradictory size hints are not reported as a conflict: the refusal escapes from `solve`,
      because those terms are added outside its error handling. */
  lemma ContradictoryHintsEscape(k: Solver, p: Problem, name: string)
    requires Sound(k) && p.spec.WellFormed() && D.RefErrors(p.spec) == []
    requires name in p.spec.elements && name in p.intrinsics && Contradictory(p.intrinsics[name])
    ensures SolveSpec(k, p) == Escaped(SolverRefused)
  {
    hide D.RefErrors, LinearFold, V.CheckAll, Sound, Preamble, Contradictory, D.Spec.WellFormed;
    if AddAll(k, [], Preamble(p)).verdict == Added {
      AddedHintsFit(k, p, name);
    }
  }

  /** Every element at the origin, at its smallest admissible size. */
  function Smallest(intr: map<string, Intrinsics>): Layout {
    n => if n in intr then Rect(0.0, 0.0, Max(0.0, intr[n].minWidth), Max(0.0, intr[n].minHeight))
         else Rect(0.0, 0.0, 0.0, 0.0)
  }

  lemma SmallestIsProper(name: string, intr: map<string, Intrinsics>)
    ensures Smallest(intr)(name).w >= 0.0 && Smallest(intr)(name).h >= 0.0
  {
  }

  lemma ProperMeetsFloors(name: string, at: Layout)
    requires at(name).w >= 0.0 && at(name).h >= 0.0
    ensures SatisfiesRequired(Floors(name), at)
  {
    var ts := Floors(name);
    assert Holds(ts[0], at) && Holds(ts[1], at);
  }

  lemma {:induction false} SmallestMeetsFloors(names: seq<string>, intr: map<string, Intrinsics>)
    ensures SatisfiesRequired(AllFloors(names), Smallest(intr))
  {
    hide Floors, Smallest, Holds;
    if names != [] {
      SmallestMeetsFloors(names[..|names| - 1], intr);
      SmallestIsProper(names[|names| - 1], intr);
      ProperMeetsFloors(names[|names| - 1], Smallest(intr));
    }
  }

  lemma SmallestMeetsSize(name: string, intr: map<string, Intrinsics>)
    requires name in intr ==> !Contradictory(intr[name])
    ensures SatisfiesRequired(SizeTerms(name, if name in intr then intr[name] else NO_INTRINSICS), Smallest(intr))
  {
  }

  lemma {:induction false} SmallestMeetsSizes(names: seq<string>, intr: map<string, Intrinsics>)
    requires forall n :: n in names && n in intr ==> !Contradictory(intr[n])
    ensures SatisfiesRequired(AllSizes(names, intr), Smallest(intr))
  {
    hide SizeTerms, Smallest, Contradictory, Holds;
    if names != [] {
      var last := names[|names| - 1];
      SmallestMeetsSizes(names[..|names| - 1], intr);
      SmallestMeetsSize(last, intr);
    }
  }

  lemma {:induction false} OriginsAreSoft(names: seq<string>, z: Rect, at: Layout)
    ensures SatisfiesRequired(AllOrigins(names, z), at)
  {
    if names != [] {
      OriginsAreSoft(names[..|names| - 1], z, at);
    }
  }

  /** Hints that fit are all accepted. */
  lemma FittingHintsAreAdded(k: Solver, p: Problem)
    requires Complete(k) && forall n :: n in p.spec.elements && n in p.intrinsics ==> !Contradictory(p.intrinsics[n])
    ensures AddAll(k, [], Preamble(p)).verdict == Added
  {
    hide AllFloors, AllOrigins, AllSizes, Contradictory, Smallest, Complete, Accepted, Holds;
    var at := Smallest(p.intrinsics);
    SmallestMeetsFloors(p.spec.elements, p.intrinsics);
    SmallestMeetsSizes(p.spec.elements, p.intrinsics);
    if p.firstZone.Some? {
      OriginsAreSoft(p.spec.elements, p.firstZone.value, at);
    }
    EmptyAccepted(k);
    assert [] + Preamble(p) == Preamble(p);
    SatisfiableIsAdded(k, [], Preamble(p), at);
  }

  ghost predicate HintsContradict(p: Problem) {
    exists n :: n in p.spec.elements && n in p.intrinsics && Contradictory(p.intrinsics[n])
  }

  /** All that escapes from solve, after a clean reference check with the zones bound: a refusal
      exactly when some element's hints contradict each other, and otherwise a KeyError exactly
      when some ratio operand's last-dot stem is not an element. */
  lemma EscapesExactly(k: Solver, p: Problem)
    requires Sound(k) && Complete(k) && p.spec.WellFormed() && D.RefErrors(p.spec) == [] && ZonesBound(p)
    ensures SolveSpec(k, p) == Escaped(SolverRefused) <==> HintsContradict(p)
    ensures SolveSpec(k, p) == Escaped(KeyError) <==>
            !HintsContradict(p)
            && exists i :: 0 <= i < |p.spec.constraints| && StemMissing(p.spec.constraints[i], p.spec.elements)
  {
    hide D.RefErrors, SolveSpec, Preamble, StemMissing, ZonesBound, Sound, Complete, Contradictory, D.Spec.WellFormed;
    if HintsContradict(p) {
      var n :| n in p.spec.elements && n in p.intrinsics && Contradictory(p.intrinsics[n]);
      ContradictoryHintsEscape(k, p, n);
    } else {
      FittingHintsAreAdded(k, p);
      KeyErrorIffStemMissing(k, p);
    }
  }

  lemma EmptyAccepted(k: Solver)
    ensures Accepted(k, [])
  {
  }
}
