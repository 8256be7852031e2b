/** From the constraint language to linear terms, and what each linear form means on the page. */
module Translate {
  import opened Common
  import opened Geometry
  import opened Kiwi
  import D = Dsl

  type Zones = map<string, Rect>

  datatype Translation = Terms(ts: seq<Term>) | MissingKey | UnknownReference

  // ---------- translation ----------

  function V(elem: string, d: Dim): Lin { Var(elem, d) }

  function Doubled(pos: Lin, size: Lin): Lin { Add(Scale(2.0, pos), size) }

  /** Position and size of a reference along x: zones shadow elements. */
  function RefX(ref: string, elems: set<string>, zones: Zones): Option<(Lin, Lin)> {
    if ref in zones then Some((Const(zones[ref].x), Const(zones[ref].w)))
    else if ref in elems then Some((V(ref, X), V(ref, W)))
    else None
  }

  function RefY(ref: string, elems: set<string>, zones: Zones): Option<(Lin, Lin)> {
    if ref in zones then Some((Const(zones[ref].y), Const(zones[ref].h)))
    else if ref in elems then Some((V(ref, Y), V(ref, H)))
    else None
  }

  function InsideTerms(el: string, z: Rect, s: Priority): seq<Term> {
    [Term(V(el, X), Ge, Const(z.x), s),
     Term(V(el, Y), Ge, Const(z.y), s),
     Term(Add(V(el, X), V(el, W)), Le, Const(z.x + z.w), s),
     Term(Add(V(el, Y), V(el, H)), Le, Const(z.y + z.h), s)]
  }

  function GapTerms(first: string, second: string, pos: Dim, size: Dim, min: real, preferred: Option<real>, s: Priority)
    : seq<Term>
  {
    [Term(V(second, pos), Ge, Add(Add(V(first, pos), V(first, size)), Const(min)), s)]
    + (if preferred.Some?
       then [Term(Sub(Sub(V(second, pos), V(first, pos)), V(first, size)), Eq, Const(preferred.value), Dsl(D.Weak))]
       else [])
  }

  function BoundTerms(el: string, rel: Rel, w: Option<real>, h: Option<real>, s: Priority): seq<Term> {
    (if w.Some? then [Term(V(el, W), rel, Const(w.value), s)] else [])
    + (if h.Some? then [Term(V(el, H), rel, Const(h.value), s)] else [])
  }

  function AlignTerms(place: Place, pos: Lin, size: Lin, refPos: Lin, refSize: Lin, s: Priority): seq<Term> {
    match place
    case Start => [Term(pos, Eq, refPos, s)]
    case End => [Term(Add(pos, size), Eq, Add(refPos, refSize), s)]
    case Middle => [Term(Doubled(pos, size), Eq, Doubled(refPos, refSize), s)]
  }

  function AnchorTerms(position: D.Anchor, el: string, margin: real,
                       rx: Lin, rw: Lin, ry: Lin, rh: Lin, s: Priority): seq<Term>
  {
    (if position in {D.TopLeft, D.TopCenter, D.TopRight}
     then [Term(V(el, Y), Eq, Add(ry, Const(margin)), s)] else [])
    + (if position in {D.MiddleLeft, D.Center, D.MiddleRight}
       then [Term(Doubled(V(el, Y), V(el, H)), Eq, Doubled(ry, rh), s)] else [])
    + (if position in {D.BottomLeft, D.BottomCenter, D.BottomRight}
       then [Term(Add(V(el, Y), V(el, H)), Eq, Sub(Add(ry, rh), Const(margin)), s)] else [])
    + (if position in {D.TopLeft, D.MiddleLeft, D.BottomLeft}
       then [Term(V(el, X), Eq, Add(rx, Const(margin)), s)] else [])
    + (if position in {D.TopCenter, D.Center, D.BottomCenter}
       then [Term(Doubled(V(el, X), V(el, W)), Eq, Doubled(rx, rw), s)] else [])
    + (if position in {D.TopRight, D.MiddleRight, D.BottomRight}
       then [Term(Add(V(el, X), V(el, W)), Eq, Sub(Add(rx, rw), Const(margin)), s)] else [])
  }

  function SideOf(accessor: string): Dim
    requires '.' in accessor
  {
    if D.Property(accessor) == "width" then W else H
  }

  function RatioTerms(larger: string, smaller: string, minRatio: real, s: Priority): seq<Term>
    requires '.' in larger && '.' in smaller
  {
    [Term(V(D.Stem(larger), SideOf(larger)), Ge, Scale(minRatio, V(D.Stem(smaller), SideOf(smaller))), s)]
  }

  function Share(side: real, percent: real): real { side * (percent / 100.0) }

  /** One linear constraint as kiwi terms, or the exception the translation raises. */
  function ToKiwi(c: D.Constraint, elems: set<string>, zones: Zones): Translation
    requires c.Linear() && c.WellFormed()
  {
    var s := Dsl(c.strength);
    match c
    case Inside(_, el, zone) =>
      if zone !in zones || el !in elems then MissingKey else Terms(InsideTerms(el, zones[zone], s))
    case VerticalGap(_, above, below, min, preferred) =>
      if above !in elems || below !in elems then MissingKey
      else Terms(GapTerms(above, below, Y, H, min, preferred, s))
    case HorizontalGap(_, left, right, min, preferred) =>
      if left !in elems || right !in elems then MissingKey
      else Terms(GapTerms(left, right, X, W, min, preferred, s))
    case MinSize(_, el, w, h) =>
      if el !in elems && (w.Some? || h.Some?) then MissingKey else Terms(BoundTerms(el, Ge, w, h, s))
    case MaxSize(_, el, w, h) =>
      if el !in elems && (w.Some? || h.Some?) then MissingKey else Terms(BoundTerms(el, Le, w, h, s))
    case MaxWidthPercent(_, el, zone, percent) =>
      if zone !in zones || el !in elems then MissingKey
      else Terms([Term(V(el, W), Le, Const(Share(zones[zone].w, percent)), s)])
    case MaxHeightPercent(_, el, zone, percent) =>
      if zone !in zones || el !in elems then MissingKey
      else Terms([Term(V(el, H), Le, Const(Share(zones[zone].h, percent)), s)])
    case HorizontalAlign(_, el, align, reference) =>
      var r := RefX(reference, elems, zones);
      if r.None? then UnknownReference
      else if el !in elems then MissingKey
      else Terms(AlignTerms(ColumnPlace(align), V(el, X), V(el, W), r.value.0, r.value.1, s))
    case VerticalAlign(_, el, align, reference) =>
      var r := RefY(reference, elems, zones);
      if r.None? then UnknownReference
      else if el !in elems then MissingKey
      else Terms(AlignTerms(RowPlace(align), V(el, Y), V(el, H), r.value.0, r.value.1, s))
    case AnchorTo(_, el, position, reference, margin) =>
      var rx, ry := RefX(reference, elems, zones), RefY(reference, elems, zones);
      if rx.None? || ry.None? then UnknownReference
      else if el !in elems then MissingKey
      else Terms(AnchorTerms(position, el, margin, rx.value.0, rx.value.1, ry.value.0, ry.value.1, s))
    case SizeRatio(_, larger, smaller, minRatio) =>
      if D.Stem(larger) !in elems || D.Stem(smaller) !in elems then MissingKey
      else Terms(RatioTerms(larger, smaller, minRatio, s))
    case _ => Terms([])
  }

  // ---------- geometric reading ----------

  /** Where along one axis two boxes are made to agree. */
  datatype Place = Start | Middle | End

  function ColumnPlace(a: D.HAlign): Place {
    match a case Left => Start case HCenter => Middle case Right => End
  }

  function RowPlace(a: D.VAlign): Place {
    match a case Top => Start case VMiddle => Middle case Bottom => End
  }

  /** A nine-way anchor is a row and a column. */
  function AnchorRow(a: D.Anchor): Place {
    match a
    case TopLeft => Start case TopCenter => Start case TopRight => Start
    case MiddleLeft => Middle case Center => Middle case MiddleRight => Middle
    case BottomLeft => End case BottomCenter => End case BottomRight => End
  }

  function AnchorColumn(a: D.Anchor): Place {
    match a
    case TopLeft => Start case MiddleLeft => Start case BottomLeft => Start
    case TopCenter => Middle case Center => Middle case BottomCenter => Middle
    case TopRight => End case MiddleRight => End case BottomRight => End
  }

  /** The interval [pos, pos + size] sits at `place` of [refPos, refPos + refSize], `margin`
      inwards from the edge, when the element's coordinates may be off by `e` and the
      reference's by `f`. Centres ignore the margin. */
  predicate Placed(place: Place, pos: real, size: real, refPos: real, refSize: real, margin: real, e: real, f: real) {
    match place
    case Start => Close(pos, refPos + margin, e + f)
    case Middle => Close(pos + size / 2.0, refPos + refSize / 2.0, 1.5 * e + 1.5 * f)
    case End => Close(pos + size, refPos + refSize - margin, 2.0 * e + 2.0 * f)
  }

  function RefRect(ref: string, at: Layout, zones: Zones): Rect { if ref in zones then zones[ref] else at(ref) }

  /** Zones are constants; only an element used as a reference carries an error. */
  function RefError(ref: string, zones: Zones, e: real): real { if ref in zones then 0.0 else e }

  /** What a linear constraint says about the boxes, when every coordinate may be off by `e`.
      With `e == 0` this is the exact reading. */
  predicate Reading(c: D.Constraint, at: Layout, zones: Zones, e: real)
    requires c.Linear() && c.WellFormed()
  {
    match c
    case Inside(_, el, zone) =>
      && zone in zones
      && at(el).x >= zones[zone].x - e
      && at(el).y >= zones[zone].y - e
      && at(el).Right() <= zones[zone].Right() + 2.0 * e
      && at(el).Bottom() <= zones[zone].Bottom() + 2.0 * e
    case VerticalGap(_, above, below, min, _) => at(below).y - at(above).Bottom() >= min - 3.0 * e
    case HorizontalGap(_, left, right, min, _) => at(right).x - at(left).Right() >= min - 3.0 * e
    case MinSize(_, el, w, h) =>
      && (w.Some? ==> at(el).w >= w.value - e)
      && (h.Some? ==> at(el).h >= h.value - e)
    case MaxSize(_, el, w, h) =>
      && (w.Some? ==> at(el).w <= w.value + e)
      && (h.Some? ==> at(el).h <= h.value + e)
    case MaxWidthPercent(_, el, zone, percent) =>
      zone in zones && 100.0 * (at(el).w - e) <= Times(percent, zones[zone].w)
    case MaxHeightPercent(_, el, zone, percent) =>
      zone in zones && 100.0 * (at(el).h - e) <= Times(percent, zones[zone].h)
    case HorizontalAlign(_, el, align, reference) =>
      var r, q := at(el), RefRect(reference, at, zones);
      Placed(ColumnPlace(align), r.x, r.w, q.x, q.w, 0.0, e, RefError(reference, zones, e))
    case VerticalAlign(_, el, align, reference) =>
      var r, q := at(el), RefRect(reference, at, zones);
      Placed(RowPlace(align), r.y, r.h, q.y, q.h, 0.0, e, RefError(reference, zones, e))
    case AnchorTo(_, el, position, reference, margin) =>
      var r, q := at(el), RefRect(reference, at, zones);
      && Placed(AnchorColumn(position), r.x, r.w, q.x, q.w, margin, e, RefError(reference, zones, e))
      && Placed(AnchorRow(position), r.y, r.h, q.y, q.h, margin, e, RefError(reference, zones, e))
    case SizeRatio(_, larger, smaller, minRatio) =>
      Coordinate(at(D.Stem(larger)), SideOf(larger)) + e >=
      Times(minRatio, Coordinate(at(D.Stem(smaller)), SideOf(smaller))) - Times(minRatio, e)
    case _ => true
  }

  /** The soft gap preference, when the constraint carries one. */
  function Preference(c: D.Constraint): Option<real> {
    if c.VerticalGap? || c.HorizontalGap? then c.preferred else None
  }

  function GapOf(c: D.Constraint, at: Layout): real {
    if c.VerticalGap? then at(c.below).y - at(c.above).Bottom()
    else if c.HorizontalGap? then at(c.right).x - at(c.left).Right()
    else 0.0
  }

  /** The terms emitted at the constraint's own strength hold. */
  ghost predicate OwnTermsHold(c: D.Constraint, ts: seq<Term>, at: Layout, e: real)
    requires e >= 0.0
  {
    forall t :: t in ts && t.priority == Dsl(c.strength) ==> HoldsWithin(t, at, e)
  }

  ghost predicate AllHold(ts: seq<Term>, at: Layout, e: real)
    requires e >= 0.0
  {
    forall t :: t in ts ==> HoldsWithin(t, at, e)
  }

  lemma SumShape(p: Lin, q: Lin, at: Layout, e: real)
    requires e >= 0.0
    ensures Eval(Add(p, q), at) == Eval(p, at) + Eval(q, at)
    ensures Eval(Sub(p, q), at) == Eval(p, at) - Eval(q, at)
    ensures Drift(Add(p, q), e) == Drift(Sub(p, q), e) == Drift(p, e) + Drift(q, e)
  {
  }

  lemma DoubledShape(p: Lin, q: Lin, at: Layout, e: real)
    requires e >= 0.0
    ensures Eval(Doubled(p, q), at) == 2.0 * Eval(p, at) + Eval(q, at)
    ensures Drift(Doubled(p, q), e) == 2.0 * Drift(p, e) + Drift(q, e)
  {
    SumShape(Scale(2.0, p), q, at, e);
    assert Eval(Scale(2.0, p), at) == Times(2.0, Eval(p, at));
    assert Drift(Scale(2.0, p), e) == Times(Abs(2.0), Drift(p, e));
  }

  lemma VarShape(el: string, d: Dim, at: Layout, e: real)
    requires e >= 0.0
    ensures Eval(V(el, d), at) == Coordinate(at(el), d) && Drift(V(el, d), e) == e
  {
  }

  lemma ConstShape(k: real, at: Layout, e: real)
    requires e >= 0.0
    ensures Eval(Const(k), at) == k && Drift(Const(k), e) == 0.0
  {
  }

  lemma InsideMeaning(el: string, z: Rect, s: Priority, at: Layout, e: real)
    requires e >= 0.0
    ensures AllHold(InsideTerms(el, z, s), at, e) <==>
            && at(el).x >= z.x - e && at(el).y >= z.y - e
            && at(el).Right() <= z.Right() + 2.0 * e && at(el).Bottom() <= z.Bottom() + 2.0 * e
  {
    var ts := InsideTerms(el, z, s);
    SumShape(V(el, X), V(el, W), at, e);
    SumShape(V(el, Y), V(el, H), at, e);
    assert AllHold(ts, at, e) <==>
           HoldsWithin(ts[0], at, e) && HoldsWithin(ts[1], at, e)
           && HoldsWithin(ts[2], at, e) && HoldsWithin(ts[3], at, e);
  }

  lemma AlignMeaning(place: Place, el: string, pos: Dim, size: Dim, rp: Lin, rs: Lin,
                     s: Priority, at: Layout, e: real, f: real)
    requires e >= 0.0 && Drift(rp, e) == Drift(rs, e) == f
    ensures AllHold(AlignTerms(place, V(el, pos), V(el, size), rp, rs, s), at, e) <==>
            Placed(place, Coordinate(at(el), pos), Coordinate(at(el), size), Eval(rp, at), Eval(rs, at), 0.0, e, f)
  {
    hide Eval, Drift, Times, Coordinate;
    var ts := AlignTerms(place, V(el, pos), V(el, size), rp, rs, s);
    var p, q := V(el, pos), V(el, size);
    VarShape(el, pos, at, e);
    match place {
      case Start =>
      case Middle => VarShape(el, size, at, e); DoubledShape(p, q, at, e); DoubledShape(rp, rs, at, e);
      case End => VarShape(el, size, at, e); SumShape(p, q, at, e); SumShape(rp, rs, at, e);
    }
    assert AllHold(ts, at, e) <==> HoldsWithin(ts[0], at, e);
  }

  /** One axis of an anchor. */
  function AnchorTerm(place: Place, el: string, pos: Dim, size: Dim, rp: Lin, rs: Lin, m: real, s: Priority): Term {
    match place
    case Start => Term(V(el, pos), Eq, Add(rp, Const(m)), s)
    case Middle => Term(Doubled(V(el, pos), V(el, size)), Eq, Doubled(rp, rs), s)
    case End => Term(Add(V(el, pos), V(el, size)), Eq, Sub(Add(rp, rs), Const(m)), s)
  }

  lemma AnchoredTerm(place: Place, el: string, pos: Dim, size: Dim, rp: Lin, rs: Lin, m: real, s: Priority, t: Term,
                     at: Layout, e: real, f: real)
    requires e >= 0.0 && Drift(rp, e) == Drift(rs, e) == f
    requires t == AnchorTerm(place, el, pos, size, rp, rs, m, s)
    ensures HoldsWithin(t, at, e) <==>
            Placed(place, Coordinate(at(el), pos), Coordinate(at(el), size), Eval(rp, at), Eval(rs, at), m, e, f)
  {
    hide Eval, Drift, Times, Coordinate, HoldsWithin;
    var p, q := V(el, pos), V(el, size);
    VarShape(el, pos, at, e);
    match place {
      case Start =>
        ConstShape(m, at, e);
        SumShape(rp, Const(m), at, e);
        EqShape(p, Add(rp, Const(m)), s, at, e);
      case Middle =>
        VarShape(el, size, at, e);
        DoubledShape(p, q, at, e);
        DoubledShape(rp, rs, at, e);
        EqShape(Doubled(p, q), Doubled(rp, rs), s, at, e);
      case End =>
        VarShape(el, size, at, e);
        ConstShape(m, at, e);
        SumShape(p, q, at, e);
        SumShape(rp, rs, at, e);
        SumShape(Add(rp, rs), Const(m), at, e);
        EqShape(Add(p, q), Sub(Add(rp, rs), Const(m)), s, at, e);
    }
  }

  lemma EqShape(l: Lin, r: Lin, s: Priority, at: Layout, e: real)
    requires e >= 0.0
    ensures HoldsWithin(Term(l, Eq, r, s), at, e) <==> Close(Eval(l, at), Eval(r, at), Drift(l, e) + Drift(r, e))
  {
    hide Eval, Drift;
  }

  /** The nine positions come down to one vertical and one horizontal equation. */
  lemma AnchorIsTwoTerms(position: D.Anchor, el: string, m: real, rx: Lin, rw: Lin, ry: Lin, rh: Lin, s: Priority)
    ensures AnchorTerms(position, el, m, rx, rw, ry, rh, s) ==
            [AnchorTerm(AnchorRow(position), el, Y, H, ry, rh, m, s),
             AnchorTerm(AnchorColumn(position), el, X, W, rx, rw, m, s)]
  {
  }

  lemma AnchorMeaning(position: D.Anchor, el: string, m: real, rx: Lin, rw: Lin, ry: Lin, rh: Lin, s: Priority,
                      at: Layout, e: real, f: real)
    requires e >= 0.0 && Drift(rx, e) == Drift(rw, e) == Drift(ry, e) == Drift(rh, e) == f
    ensures AllHold(AnchorTerms(position, el, m, rx, rw, ry, rh, s), at, e) <==>
            && Placed(AnchorColumn(position), Coordinate(at(el), X), Coordinate(at(el), W),
                      Eval(rx, at), Eval(rw, at), m, e, f)
            && Placed(AnchorRow(position), Coordinate(at(el), Y), Coordinate(at(el), H),
                      Eval(ry, at), Eval(rh, at), m, e, f)
  {
    hide AnchorTerms, AnchorTerm, AnchorRow, AnchorColumn, Placed, HoldsWithin, Eval, Drift, Coordinate;
    AnchorIsTwoTerms(position, el, m, rx, rw, ry, rh, s);
    var row := AnchorTerm(AnchorRow(position), el, Y, H, ry, rh, m, s);
    var col := AnchorTerm(AnchorColumn(position), el, X, W, rx, rw, m, s);
    AnchoredTerm(AnchorRow(position), el, Y, H, ry, rh, m, s, row, at, e, f);
    AnchoredTerm(AnchorColumn(position), el, X, W, rx, rw, m, s, col, at, e, f);
  }

  lemma GapMeaning(first: string, second: string, pos: Dim, size: Dim, min: real, preferred: Option<real>,
                   s: D.Strength, at: Layout, e: real)
    requires e >= 0.0
    ensures var gap := Coordinate(at(second), pos) - (Coordinate(at(first), pos) + Coordinate(at(first), size));
            (forall t :: t in GapTerms(first, second, pos, size, min, preferred, Dsl(s)) && t.priority == Dsl(s) ==>
              HoldsWithin(t, at, e))
            <==> gap >= min - 3.0 * e && (s == D.Weak && preferred.Some? ==> Close(gap, preferred.value, 3.0 * e))
  {
    hide Eval, Drift, Coordinate;
    var ts := GapTerms(first, second, pos, size, min, preferred, Dsl(s));
    var f, g, h := V(first, pos), V(second, pos), V(first, size);
    VarShape(first, pos, at, e);
    VarShape(second, pos, at, e);
    VarShape(first, size, at, e);
    ConstShape(min, at, e);
    SumShape(f, h, at, e);
    SumShape(Add(f, h), Const(min), at, e);
    assert ts[0].priority == Dsl(s);
    if preferred.Some? {
      ConstShape(preferred.value, at, e);
      SumShape(g, f, at, e);
      SumShape(Sub(g, f), h, at, e);
      assert ts[1] == Term(Sub(Sub(g, f), h), Eq, Const(preferred.value), Dsl(D.Weak));
    }
  }

  lemma BoundMeaning(el: string, rel: Rel, w: Option<real>, h: Option<real>, s: Priority, at: Layout, e: real)
    requires e >= 0.0 && rel != Eq
    ensures AllHold(BoundTerms(el, rel, w, h, s), at, e) <==>
            && (w.Some? ==> if rel == Ge then at(el).w >= w.value - e else at(el).w <= w.value + e)
            && (h.Some? ==> if rel == Ge then at(el).h >= h.value - e else at(el).h <= h.value + e)
  {
    var ts := BoundTerms(el, rel, w, h, s);
    var tw := Term(V(el, W), rel, Const(w.GetOr(0.0)), s);
    var th := Term(V(el, H), rel, Const(h.GetOr(0.0)), s);
    assert AllHold(ts, at, e) <==> (w.Some? ==> HoldsWithin(tw, at, e)) && (h.Some? ==> HoldsWithin(th, at, e)) by {
      assert w.Some? ==> tw in ts;
      assert h.Some? ==> th in ts;
      assert forall t :: t in ts ==> t == tw || t == th;
      assert w.None? && tw in ts ==> h.Some? && tw == th;
      assert h.None? && th in ts ==> w.Some? && tw == th;
    }
    ConstShape(w.GetOr(0.0), at, e);
    ConstShape(h.GetOr(0.0), at, e);
    VarShape(el, W, at, e);
    VarShape(el, H, at, e);
  }

  lemma PercentMeaning(el: string, d: Dim, side: real, percent: real, s: Priority, at: Layout, e: real)
    requires e >= 0.0
    ensures HoldsWithin(Term(V(el, d), Le, Const(Share(side, percent)), s), at, e) <==>
            100.0 * (Coordinate(at(el), d) - e) <= Times(percent, side)
  {
    assert Share(side, percent) == percent * side / 100.0;
    ConstShape(Share(side, percent), at, e);
    VarShape(el, d, at, e);
  }

  lemma RatioMeaning(larger: string, smaller: string, r: real, s: Priority, at: Layout, e: real)
    requires e >= 0.0 && r > 0.0 && '.' in larger && '.' in smaller
    ensures HoldsWithin(RatioTerms(larger, smaller, r, s)[0], at, e) <==>
            Coordinate(at(D.Stem(larger)), SideOf(larger)) + e >=
            Times(r, Coordinate(at(D.Stem(smaller)), SideOf(smaller))) - Times(r, e)
  {
    hide Times, Coordinate, SideOf;
    var l, m := V(D.Stem(larger), SideOf(larger)), V(D.Stem(smaller), SideOf(smaller));
    VarShape(D.Stem(larger), SideOf(larger), at, e);
    VarShape(D.Stem(smaller), SideOf(smaller), at, e);
    assert Eval(Scale(r, m), at) == Times(r, Eval(m, at));
    assert Drift(Scale(r, m), e) == Times(Abs(r), Drift(m, e)) && Abs(r) == r;
  }

  lemma OwnTermsUniform(c: D.Constraint, ts: seq<Term>, at: Layout, e: real)
    requires e >= 0.0 && forall t :: t in ts ==> t.priority == Dsl(c.strength)
    ensures OwnTermsHold(c, ts, at, e) <==> AllHold(ts, at, e)
  {
  }

  /** Zones shadow elements, so a reference is either a constant box or four variables. */
  lemma ReferenceShape(ref: string, elems: set<string>, zones: Zones, at: Layout, e: real)
    requires e >= 0.0 && (ref in zones || ref in elems)
    ensures var q, f := RefRect(ref, at, zones), RefError(ref, zones, e);
            var rx, ry := RefX(ref, elems, zones).value, RefY(ref, elems, zones).value;
            && Eval(rx.0, at) == q.x && Eval(rx.1, at) == q.w && Eval(ry.0, at) == q.y && Eval(ry.1, at) == q.h
            && Drift(rx.0, e) == Drift(rx.1, e) == Drift(ry.0, e) == Drift(ry.1, e) == f
  {
  }

  /** The compiler is right: the terms a linear constraint emits at its own strength hold,
      up to a coordinate error `e`, exactly when the boxes are where the constraint says.
      The one exception is written out: at weak strength the soft gap preference shares the
      constraint's strength, and then it counts as well. */
  lemma MeaningPreserved(c: D.Constraint, elems: set<string>, zones: Zones, at: Layout, e: real)
    requires c.Linear() && c.WellFormed() && e >= 0.0
    requires ToKiwi(c, elems, zones).Terms?
    ensures OwnTermsHold(c, ToKiwi(c, elems, zones).ts, at, e) <==>
            && Reading(c, at, zones, e)
            && (c.strength == D.Weak && Preference(c).Some? ==> Close(GapOf(c, at), Preference(c).value, 3.0 * e))
  {
    hide HoldsWithin, Placed, InsideTerms, AlignTerms, BoundTerms, AnchorTerms, RefX, RefY;
    var ts := ToKiwi(c, elems, zones).ts;
    var s := Dsl(c.strength);
    match c
    case VerticalGap(_, above, below, min, preferred) =>
      GapMeaning(above, below, Y, H, min, preferred, c.strength, at, e);
    case HorizontalGap(_, left, right, min, preferred) =>
      GapMeaning(left, right, X, W, min, preferred, c.strength, at, e);
    case _ =>
      LinearMeaning(c, elems, zones, at, e);
  }

  lemma OneTerm(t: Term, at: Layout, e: real)
    requires e >= 0.0
    ensures AllHold([t], at, e) <==> HoldsWithin(t, at, e)
  {
    assert t in [t];
  }

  lemma PrioritiesAreOwn(c: D.Constraint, elems: set<string>, zones: Zones)
    requires c.Linear() && c.WellFormed() && !c.VerticalGap? && !c.HorizontalGap?
    requires ToKiwi(c, elems, zones).Terms?
    ensures forall t :: t in ToKiwi(c, elems, zones).ts ==> t.priority == Dsl(c.strength)
  {
    hide RefX, RefY, AnchorRow, AnchorColumn;
    if c.AnchorTo? {
      var rx, ry := RefX(c.reference, elems, zones).value, RefY(c.reference, elems, zones).value;
      AnchorIsTwoTerms(c.position, c.element, c.margin, rx.0, rx.1, ry.0, ry.1, Dsl(c.strength));
    }
  }

  lemma LinearMeaning(c: D.Constraint, elems: set<string>, zones: Zones, at: Layout, e: real)
    requires c.Linear() && c.WellFormed() && e >= 0.0 && !c.VerticalGap? && !c.HorizontalGap?
    requires ToKiwi(c, elems, zones).Terms?
    ensures OwnTermsHold(c, ToKiwi(c, elems, zones).ts, at, e) <==> Reading(c, at, zones, e)
  {
    hide HoldsWithin, Placed, AnchorTerms, AnchorRow, AnchorColumn, Share, Times;
    var ts := ToKiwi(c, elems, zones).ts;
    var s := Dsl(c.strength);
    PrioritiesAreOwn(c, elems, zones);
    OwnTermsUniform(c, ts, at, e);
    match c
    case Inside(_, el, zone) => InsideMeaning(el, zones[zone], s, at, e);
    case MinSize(_, el, w, h) => BoundMeaning(el, Ge, w, h, s, at, e);
    case MaxSize(_, el, w, h) => BoundMeaning(el, Le, w, h, s, at, e);
    case MaxWidthPercent(_, el, zone, percent) =>
      PercentMeaning(el, W, zones[zone].w, percent, s, at, e);
      OneTerm(ts[0], at, e);
    case MaxHeightPercent(_, el, zone, percent) =>
      PercentMeaning(el, H, zones[zone].h, percent, s, at, e);
      OneTerm(ts[0], at, e);
    case SizeRatio(_, larger, smaller, r) =>
      RatioMeaning(larger, smaller, r, s, at, e);
      OneTerm(ts[0], at, e);
    case HorizontalAlign(_, el, align, reference) =>
      ReferenceShape(reference, elems, zones, at, e);
      var r := RefX(reference, elems, zones).value;
      AlignMeaning(ColumnPlace(align), el, X, W, r.0, r.1, s, at, e, RefError(reference, zones, e));
    case VerticalAlign(_, el, align, reference) =>
      ReferenceShape(reference, elems, zones, at, e);
      var r := RefY(reference, elems, zones).value;
      AlignMeaning(RowPlace(align), el, Y, H, r.0, r.1, s, at, e, RefError(reference, zones, e));
    case AnchorTo(_, el, position, reference, margin) =>
      ReferenceShape(reference, elems, zones, at, e);
      var rx, ry := RefX(reference, elems, zones).value, RefY(reference, elems, zones).value;
      AnchorMeaning(position, el, margin, rx.0, rx.1, ry.0, ry.1, s, at, e, RefError(reference, zones, e));
    case _ =>
  }

  // ---------- lookups ----------

  /** Once the references check out and every declared zone is bound, the only lookup that can
      still fail is a size-ratio operand whose two splits name different elements. */
  lemma LookupsSucceed(spec: D.Spec, i: nat, zones: Zones)
    requires spec.WellFormed() && i < |spec.constraints| && spec.constraints[i].Linear()
    requires D.RefErrors(spec) == []
    requires forall z :: z in spec.zones ==> z in zones
    ensures var c := spec.constraints[i];
            var t := ToKiwi(c, spec.ElementSet(), zones);
            && (t.Terms? <==> (c.SizeRatio? ==>
                  D.Stem(c.larger) in spec.elements && D.Stem(c.smaller) in spec.elements))
            && !t.UnknownReference?
  {
    hide InsideTerms, AlignTerms, BoundTerms, AnchorTerms, GapTerms, RatioTerms, D.RefErrors;
    D.NoErrorsMeansResolved(spec);
    var c := spec.constraints[i];
    assert forall n :: n in D.ElementRefs(c) ==> n in spec.ElementSet();
    assert forall n :: n in D.ZoneRefs(c) ==> n in zones;
    if c.VerticalGap? {
      assert D.ElementRefs(c)[0] == c.above && D.ElementRefs(c)[1] == c.below;
    } else if c.HorizontalGap? {
      assert D.ElementRefs(c)[0] == c.left && D.ElementRefs(c)[1] == c.right;
    } else if !c.SizeRatio? {
      assert D.ElementRefs(c)[0] == c.element;
      if !c.MinSize? && !c.MaxSize? {
        assert |D.ZoneRefs(c)| == 1 && D.ZoneRefs(c)[0] in zones;
      }
    }
  }

  /** With one dot in each operand the translation always succeeds. */
  lemma SingleDotsTranslate(spec: D.Spec, i: nat, zones: Zones)
    requires spec.WellFormed() && i < |spec.constraints| && spec.constraints[i].Linear()
    requires D.RefErrors(spec) == []
    requires forall z :: z in spec.zones ==> z in zones
    requires spec.constraints[i].SizeRatio? ==>
               D.SingleDot(spec.constraints[i].larger) && D.SingleDot(spec.constraints[i].smaller)
    ensures ToKiwi(spec.constraints[i], spec.ElementSet(), zones).Terms?
  {
    LookupsSucceed(spec, i, zones);
    var c := spec.constraints[i];
    if c.SizeRatio? {
      D.SplitsAgree(c.larger);
      D.SplitsAgree(c.smaller);
      D.NoErrorsMeansResolved(spec);
      assert D.ElementRefs(c)[0] == D.Head(c.larger) && D.ElementRefs(c)[1] == D.Head(c.smaller);
    }
  }

  /** Any accessor with a second dot slips past the reference check and then fails in the solver. */
  lemma TwoDotsFail(s: string)
    requires D.Accessor(s) && !D.SingleDot(s)
    ensures var c := D.SizeRatio(D.Required, s, s, 1.0);
            var spec := D.Spec([D.Head(s)], [], [c], None);
            spec.WellFormed() && D.RefErrors(spec) == [] && ToKiwi(c, spec.ElementSet(), map[]) == MissingKey
  {
    hide D.RefErrors, D.Head, D.SingleDot, D.ReferencesResolve, D.LastDot, ToKiwi;
    var c := D.SizeRatio(D.Required, s, s, 1.0);
    var spec := D.Spec([D.Head(s)], [], [c], None);
    D.NoErrorsMeansResolved(spec);
    OneRatioResolves(s);
    D.SplitsAgree(s);
    StemMissing(c, s, {D.Head(s)});
    assert spec.ElementSet() == {D.Head(s)};
  }

  lemma OneRatioResolves(s: string)
    requires D.Accessor(s)
    ensures D.ReferencesResolve(D.Spec([D.Head(s)], [], [D.SizeRatio(D.Required, s, s, 1.0)], None))
  {
    hide D.Head, D.Accessor;
  }

  lemma StemMissing(c: D.Constraint, s: string, elems: set<string>)
    requires c.SizeRatio? && c.WellFormed() && c.larger == s && D.Stem(s) !in elems
    ensures ToKiwi(c, elems, map[]) == MissingKey
  {
    hide D.Stem;
  }

  /** The comments let an alignment or anchor refer to another element; the reference check
      never does, unless that name is declared as a zone as well. */
  lemma ElementReferenceRejected(spec: D.Spec, i: nat)
    requires i < |spec.constraints|
    requires var c := spec.constraints[i];
             (c.AnchorTo? || c.HorizontalAlign? || c.VerticalAlign?) && c.reference !in spec.zones
    ensures D.UnknownZone(i, spec.constraints[i].reference) in D.RefErrors(spec)
  {
    var c := spec.constraints[i];
    assert D.ZoneRefs(c)[0] == c.reference;
    D.ErrorsAreExact(spec, D.UnknownZone(i, c.reference));
  }
}
