/** How much height a chain of vertical gaps needs, and what happens when its zone has less. */
module ChainHeights {
  import opened Common
  import opened Geometry
  import opened Kiwi
  import opened Translate
  import opened LayoutSolver
  import opened SolverGuarantees
  import D = Dsl
  import V = Validators

  /** A required vertical gap between the two elements. */
  predicate IsGap(c: D.Constraint, above: string, below: string) {
    c.VerticalGap? && c.strength == D.Required && c.above == above && c.below == below
  }

  /** The element is at least `v` high: by a size hint, a required minimum size, or for nothing. */
  ghost predicate HeightFloor(p: Problem, name: string, v: real) {
    || v <= 0.0
    || (name in p.intrinsics && v <= p.intrinsics[name].minHeight)
    || exists i :: 0 <= i < |p.spec.constraints| && DemandsHeight(p.spec.constraints[i], name, v)
  }

  predicate DemandsHeight(c: D.Constraint, name: string, v: real) {
    c.MinSize? && c.strength == D.Required && c.element == name && c.minHeight.Some? && v <= c.minHeight.value
  }

  /** A chain of elements, the gap constraints that link neighbours, and a height floor for each. */
  datatype Chain = Chain(names: seq<string>, gaps: seq<nat>, floors: seq<real>) {
    ghost predicate In(p: Problem) {
      && |names| == |floors| == |gaps| + 1
      && (forall m :: 0 <= m < |names| ==> names[m] in p.spec.elements && HeightFloor(p, names[m], floors[m]))
      && forall m :: 0 <= m < |gaps| ==> Linked(p, m)
    }

    predicate Linked(p: Problem, m: nat)
      requires m < |gaps| && |names| == |gaps| + 1
    {
      gaps[m] < |p.spec.constraints| && IsGap(p.spec.constraints[gaps[m]], names[m], names[m + 1])
    }
  }

  /** Floors and gap minima of everything above element `n`. */
  ghost function Above(p: Problem, chain: Chain, n: nat): real
    requires chain.In(p) && n < |chain.names|
  {
    if n == 0 then 0.0
    else
      assert chain.Linked(p, n - 1);
      Above(p, chain, n - 1) + chain.floors[n - 1] + p.spec.constraints[chain.gaps[n - 1]].min
  }

  /** What the whole chain needs. */
  ghost function Need(p: Problem, chain: Chain): real
    requires chain.In(p)
  {
    Above(p, chain, |chain.names| - 1) + chain.floors[|chain.names| - 1]
  }

  lemma GapHolds(k: Solver, p: Problem, m: nat, above: string, below: string)
    requires Sound(k) && p.spec.WellFormed() && Positioned(k, p)
    requires m < |p.spec.constraints| && IsGap(p.spec.constraints[m], above, below)
    ensures ExactLayout(k, p)(below).y >= ExactLayout(k, p)(above).Bottom() + p.spec.constraints[m].min
  {
    hide Sound, Positioned, ExactLayout, Reading, D.Constraint.WellFormed;
    ConstraintWellFormed(p.spec, m);
    RequiredHoldsExactly(k, p, m);
    GapReading(p.spec.constraints[m], ExactLayout(k, p), p.zones);
  }

  lemma MinSizeReading(c: D.Constraint, at: Layout, zones: Zones)
    requires c.MinSize? && c.WellFormed() && Reading(c, at, zones, 0.0) && c.minHeight.Some?
    ensures at(c.element).h >= c.minHeight.value
  {
  }

  lemma HintReading(r: Rect, i: Intrinsics)
    requires SizesOk(r, i, 0.0) && r.h >= 0.0
    ensures r.h >= i.minHeight
  {
  }

  lemma FloorHolds(k: Solver, p: Problem, name: string, v: real)
    requires Sound(k) && p.spec.WellFormed() && Positioned(k, p) && name in p.spec.elements && HeightFloor(p, name, v)
    ensures ExactLayout(k, p)(name).h >= v
  {
    hide Sound, Positioned, ExactLayout, Reading, D.Constraint.WellFormed, SizesOk;
    HeightsAreNonNegative(k, p, name);
    if v > 0.0 {
      if name in p.intrinsics && v <= p.intrinsics[name].minHeight {
        HintsHoldExactly(k, p, name);
        HintReading(ExactLayout(k, p)(name), p.intrinsics[name]);
      } else {
        var i :| 0 <= i < |p.spec.constraints| && DemandsHeight(p.spec.constraints[i], name, v);
        ConstraintWellFormed(p.spec, i);
        RequiredHoldsExactly(k, p, i);
        MinSizeReading(p.spec.constraints[i], ExactLayout(k, p), p.zones);
      }
    }
  }

  /** Element `n` lies at least as far down as the floors and gaps above it add up to. */
  lemma {:induction false} ChainDepth(k: Solver, p: Problem, chain: Chain, n: nat)
    requires Sound(k) && p.spec.WellFormed() && Positioned(k, p) && chain.In(p) && n < |chain.names|
    ensures ExactLayout(k, p)(chain.names[n]).y >= ExactLayout(k, p)(chain.names[0]).y + Above(p, chain, n)
  {
    hide Sound, Positioned, ExactLayout, D.Constraint.WellFormed, HeightFloor, D.Spec.WellFormed;
    if n > 0 {
      ChainDepth(k, p, chain, n - 1);
      assert chain.Linked(p, n - 1);
      GapHolds(k, p, chain.gaps[n - 1], chain.names[n - 1], chain.names[n]);
      FloorHolds(k, p, chain.names[n - 1], chain.floors[n - 1]);
    }
  }

  predicate MustBeIn(c: D.Constraint, name: string, zone: string) {
    c.Inside? && c.strength == D.Required && c.element == name && c.zone == zone
  }

  lemma InsideHolds(k: Solver, p: Problem, i: nat, name: string, zone: string)
    requires Sound(k) && p.spec.WellFormed() && Positioned(k, p)
    requires i < |p.spec.constraints| && MustBeIn(p.spec.constraints[i], name, zone)
    ensures zone in p.zones
    ensures ExactLayout(k, p)(name).y >= p.zones[zone].y
    ensures ExactLayout(k, p)(name).Bottom() <= p.zones[zone].Bottom()
  {
    hide Sound, Positioned, ExactLayout, D.Constraint.WellFormed, Reading;
    ConstraintWellFormed(p.spec, i);
    RequiredHoldsExactly(k, p, i);
    InsideReading(p.spec.constraints[i], ExactLayout(k, p), p.zones);
  }

  lemma InsideReading(c: D.Constraint, at: Layout, zones: Zones)
    requires c.Inside? && c.WellFormed() && Reading(c, at, zones, 0.0)
    ensures c.zone in zones && at(c.element).y >= zones[c.zone].y && at(c.element).Bottom() <= zones[c.zone].Bottom()
  {
  }

  /** A chain whose ends must both lie in one zone fits it, whenever there are positions at all. */
  lemma PositionedChainFits(k: Solver, p: Problem, chain: Chain, zone: string, i: nat, j: nat)
    requires Sound(k) && p.spec.WellFormed() && Positioned(k, p) && chain.In(p)
    requires i < |p.spec.constraints| && MustBeIn(p.spec.constraints[i], chain.names[0], zone)
    requires j < |p.spec.constraints| && MustBeIn(p.spec.constraints[j], chain.names[|chain.names| - 1], zone)
    ensures zone in p.zones && Need(p, chain) <= p.zones[zone].h
  {
    hide Sound, Positioned, ExactLayout, D.Constraint.WellFormed, HeightFloor, D.Spec.WellFormed, Above;
    var last := |chain.names| - 1;
    ChainDepth(k, p, chain, last);
    FloorHolds(k, p, chain.names[last], chain.floors[last]);
    InsideHolds(k, p, i, chain.names[0], zone);
    InsideHolds(k, p, j, chain.names[last], zone);
  }

  /** So a chain that needs more height than its zone has is never positioned, and never valid. */
  lemma TooTallIsNeverPositioned(k: Solver, p: Problem, chain: Chain, zone: string, i: nat, j: nat)
    requires Sound(k) && p.spec.WellFormed() && chain.In(p)
    requires i < |p.spec.constraints| && MustBeIn(p.spec.constraints[i], chain.names[0], zone)
    requires j < |p.spec.constraints| && MustBeIn(p.spec.constraints[j], chain.names[|chain.names| - 1], zone)
    requires zone in p.zones && Need(p, chain) > p.zones[zone].h
    ensures !Positioned(k, p) && !(SolveSpec(k, p).Answer? && SolveSpec(k, p).valid)
  {
    hide Sound, D.Constraint.WellFormed, HeightFloor, D.Spec.WellFormed, Need, SolveSpec;
    VerdictIsCoherent(k, p);
    if Positioned(k, p) {
      PositionedChainFits(k, p, chain, zone, i, j);
    }
  }
}
