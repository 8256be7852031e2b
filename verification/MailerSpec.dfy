/** A mailer specification in inches, and the inch-to-pixel frame it is drawn in. */
module MailerSpecs {
  import opened Common
  import opened Geometry

  /** A rectangle given by size and distance from edges of its parent, in inches. */
  datatype RectIn = RectIn(
    w: Option<real>, h: Option<real>, wFullFace: bool, hFullFace: bool,
    fromLeft: Option<real>, fromRight: Option<real>, fromTop: Option<real>, fromBottom: Option<real>)

  datatype ZoneDef = ZoneDef(name: string, kind: string, rectIn: RectIn, aliases: seq<string>)

  /** `panelZones` keeps the order of the stored mapping. */
  datatype FaceDef = FaceDef(name: string, zones: seq<ZoneDef>, panelZones: seq<(string, seq<ZoneDef>)>)

  datatype ExplicitGlue = ExplicitGlue(w: real, h: real, fromLeft: real, atBottom: bool)

  /** An empty `naming` stands for a missing one. */
  datatype Folding = Folding(
    naming: string, panelCount: int, foldXs: seq<real>, foldYs: seq<real>,
    glueWidth: Option<real>, gutterHalf: Option<real>, openingEdges: seq<string>,
    explicitGlue: Option<ExplicitGlue>)

  datatype Category = Postcard | SelfMailer | OtherCategory

  datatype MailerSpec = MailerSpec(
    category: Category, bleedW: Option<real>, bleedH: Option<real>, trimW: real, trimH: real,
    safeInset: Option<real>, legacyZones: seq<(string, RectIn)>, folding: Option<Folding>,
    faces: seq<FaceDef>, dpi: nat)
  {
    /** Canvas size: a missing or zero bleed falls back to the trim. */
    function CanvasW(): real { Truthy(bleedW, trimW) }

    function CanvasH(): real { Truthy(bleedH, trimH) }

    function MarginX(): real { (CanvasW() - trimW) / 2.0 }

    function MarginY(): real { (CanvasH() - trimH) / 2.0 }

    function Canvas(): Rect { ToPixels(CanvasW(), CanvasH(), dpi, 0.0, 0.0) }

    /** The trim rectangle panels, gutters and glue strips are laid out in. */
    function TrimFrame(): Rect { ToPixels(trimW, trimH, dpi, MarginX(), MarginY()) }

    /** The rectangle published under the zone name `trim`. */
    function TrimZone(): Rect {
      if Given(bleedW) && Given(bleedH) then TrimFrame() else Rect(0.0, 0.0, Canvas().w, Canvas().h)
    }

    function FoldXs(): seq<real> { if folding.Some? then folding.value.foldXs else [] }

    function FoldYs(): seq<real> { if folding.Some? then folding.value.foldYs else [] }
  }

  /** Python's truthiness of an optional float. */
  predicate Given(v: Option<real>) { v.Some? && v.value != 0.0 }

  function Truthy(v: Option<real>, default: real): real { if Given(v) then v.value else default }

  /** Inches to pixels. */
  function Px(inches: real, dpi: nat): real { inches * dpi as real }

  function ToPixels(w: real, h: real, dpi: nat, x: real, y: real): Rect {
    Rect(Px(x, dpi), Px(y, dpi), Px(w, dpi), Px(h, dpi))
  }

  lemma PxAdd(a: real, b: real, dpi: nat)
    ensures Px(a + b, dpi) == Px(a, dpi) + Px(b, dpi)
    ensures Px(a - b, dpi) == Px(a, dpi) - Px(b, dpi)
    ensures Px(0.0, dpi) == 0.0
  {
  }

  lemma PxStrict(a: real, b: real, dpi: nat)
    requires dpi > 0 && a < b
    ensures Px(a, dpi) < Px(b, dpi)
  {
    var d := dpi as real;
    assert d > 0.0;
    assert (b - a) * d > 0.0;
  }

  lemma PxOrder(a: real, b: real, dpi: nat)
    requires dpi > 0
    ensures Px(a, dpi) <= Px(b, dpi) <==> a <= b
    ensures Px(a, dpi) < Px(b, dpi) <==> a < b
  {
    hide Px;
    if a < b {
      PxStrict(a, b, dpi);
    } else if b < a {
      PxStrict(b, a, dpi);
    }
  }

  /** Pixels back to inches, as the binder does for panel rectangles. */
  lemma PxInverse(a: real, dpi: nat)
    requires dpi > 0
    ensures Px(a, dpi) / dpi as real == a
  {
  }

  /** Inches rectangles nest exactly when their pixel images do. */
  lemma PixelsPreserveWithin(a: Rect, b: Rect, dpi: nat)
    requires dpi > 0
    ensures Within(ToPixels(a.w, a.h, dpi, a.x, a.y), ToPixels(b.w, b.h, dpi, b.x, b.y)) <==> Within(a, b)
  {
    hide Px;
    PxOrder(b.x, a.x, dpi);
    PxOrder(b.y, a.y, dpi);
    PxAdd(a.x, a.w, dpi);
    PxAdd(b.x, b.w, dpi);
    PxAdd(a.y, a.h, dpi);
    PxAdd(b.y, b.h, dpi);
    PxOrder(a.x + a.w, b.x + b.w, dpi);
    PxOrder(a.y + a.h, b.y + b.h, dpi);
  }

  /** The published trim zone is the frame panels use exactly when both bleeds are given, or
      the missing ones leave no margin. */
  lemma TrimZoneIsFrame(spec: MailerSpec)
    requires spec.dpi > 0
    ensures spec.TrimZone() == spec.TrimFrame() <==>
            (Given(spec.bleedW) && Given(spec.bleedH)) || (spec.MarginX() == 0.0 && spec.MarginY() == 0.0)
  {
    hide Px;
    PxAdd(0.0, 0.0, spec.dpi);
    PxOrder(spec.MarginX(), 0.0, spec.dpi);
    PxOrder(0.0, spec.MarginX(), spec.dpi);
    PxOrder(spec.MarginY(), 0.0, spec.dpi);
    PxOrder(0.0, spec.MarginY(), spec.dpi);
  }

  /** The trim frame lies in the canvas exactly when the canvas is no smaller than the trim. */
  lemma TrimInCanvas(spec: MailerSpec)
    requires spec.dpi > 0
    ensures Within(spec.TrimFrame(), spec.Canvas()) <==> spec.trimW <= spec.CanvasW() && spec.trimH <= spec.CanvasH()
  {
    hide Px;
    PixelsPreserveWithin(Rect(spec.MarginX(), spec.MarginY(), spec.trimW, spec.trimH),
                         Rect(0.0, 0.0, spec.CanvasW(), spec.CanvasH()), spec.dpi);
  }

  // ---------- sorting fold positions ----------

  function Insert(v: real, s: seq<real>): seq<real> {
    if s == [] || v <= s[0] then [v] + s else [s[0]] + Insert(v, s[1..])
  }

  /** `sorted(...)`. */
  function Sort(s: seq<real>): seq<real> {
    if s == [] then [] else Insert(s[0], Sort(s[1..]))
  }

  predicate Ascending(s: seq<real>) { forall i, j :: 0 <= i < j < |s| ==> s[i] <= s[j] }

  lemma {:induction false} InsertAdds(v: real, s: seq<real>)
    ensures multiset(Insert(v, s)) == multiset(s) + multiset{v}
  {
    if s != [] && v > s[0] {
      InsertAdds(v, s[1..]);
      assert s == [s[0]] + s[1..];
    }
  }

  lemma HeadAscends(v: real, t: seq<real>)
    requires Ascending(t) && forall j :: 0 <= j < |t| ==> v <= t[j]
    ensures Ascending([v] + t)
  {
  }

  lemma {:induction false} InsertSorts(v: real, s: seq<real>)
    requires Ascending(s)
    ensures Ascending(Insert(v, s))
  {
    if s != [] && v > s[0] {
      var t := Insert(v, s[1..]);
      InsertSorts(v, s[1..]);
      InsertAdds(v, s[1..]);
      forall j | 0 <= j < |t| ensures s[0] <= t[j] {
        assert t[j] in multiset(t);
        assert t[j] in s[1..] || t[j] == v;
      }
      HeadAscends(s[0], t);
    }
  }

  lemma {:induction false} SortSorts(s: seq<real>)
    ensures Ascending(Sort(s)) && multiset(Sort(s)) == multiset(s) && |Sort(s)| == |s|
  {
    if s != [] {
      SortSorts(s[1..]);
      InsertSorts(s[0], Sort(s[1..]));
      InsertAdds(s[0], Sort(s[1..]));
      assert s == [s[0]] + s[1..];
      assert |multiset(Sort(s))| == |Sort(s)|;
    }
  }
}
