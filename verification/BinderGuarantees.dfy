/** Geometry that holds of every binding, and the sync script's fold check. */
module BinderGuarantees {
  import opened Common
  import opened Geometry
  import opened MailerSpecs
  import opened Panels
  import opened Binder

  // ---------- fold gutters ----------

  lemma GutterSpan(spec: MailerSpec, half: real, s: Split, fold: real)
    ensures var g := GutterRect(spec, half, s, fold);
            && Low(g, s) == Px(Margin(spec, s) + fold, spec.dpi) - Px(half, spec.dpi)
            && High(g, s) == Px(Margin(spec, s) + fold, spec.dpi) + Px(half, spec.dpi)
            && Low(g, s) + Thickness(g, s) / 2.0 == Px(Margin(spec, s) + fold, spec.dpi)
            && Thickness(g, s) == 2.0 * Px(half, spec.dpi)
  {
    hide Px;
    var m := Margin(spec, s);
    PxAdd(m + fold, half, spec.dpi);
    PxAdd(half, half, spec.dpi);
    assert 2.0 * half == half + half;
  }

  /** Gutter `i` is centred exactly on the edge panels `i` and `i + 1` share. */
  lemma GutterCentredOnSharedEdge(spec: MailerSpec, half: real, s: Split, i: nat)
    requires i < |Folds(spec, s)|
    ensures |Sort(Folds(spec, s))| == |Folds(spec, s)|
    ensures var g := GutterRect(spec, half, s, Sort(Folds(spec, s))[i]);
            && Low(g, s) + Thickness(g, s) / 2.0 == High(PanelRect(spec, s, i), s)
            && Low(g, s) + Thickness(g, s) / 2.0 == Low(PanelRect(spec, s, i + 1), s)
  {
    hide Px, PanelRect, GutterRect, Low, High, Thickness;
    SortSorts(Folds(spec, s));
    GutterSpan(spec, half, s, Sort(Folds(spec, s))[i]);
    PanelSpan(spec, s, i);
    PanelSpan(spec, s, i + 1);
  }

  /** Two gutters keep clear of each other exactly when their folds are a gutter width apart. */
  lemma GuttersDisjointIffSpaced(spec: MailerSpec, half: real, s: Split, f: real, g: real)
    requires spec.dpi > 0
    ensures High(GutterRect(spec, half, s, f), s) <= Low(GutterRect(spec, half, s, g), s) <==> g - f >= 2.0 * half
  {
    hide Px, GutterRect, Low, High, Thickness;
    GutterSpan(spec, half, s, f);
    GutterSpan(spec, half, s, g);
    var m := Margin(spec, s);
    PxAdd(m + f, half, spec.dpi);
    PxAdd(m + g, half, spec.dpi);
    PxOrder(m + f + half, m + g - half, spec.dpi);
  }

  /** A gutter lies in the trim exactly when its fold is half a gutter from both edges. */
  lemma GutterInTrimIffInset(spec: MailerSpec, half: real, s: Split, fold: real)
    requires spec.dpi > 0
    ensures Within(GutterRect(spec, half, s, fold), spec.TrimFrame()) <==> half <= fold <= Extent(spec, s) - half
  {
    hide Px;
    var x, y := spec.MarginX(), spec.MarginY();
    if s == AlongX {
      PixelsPreserveWithin(Rect(x + fold - half, y, 2.0 * half, spec.trimH),
                           Rect(x, y, spec.trimW, spec.trimH), spec.dpi);
    } else {
      PixelsPreserveWithin(Rect(x, y + fold - half, spec.trimW, 2.0 * half),
                           Rect(x, y, spec.trimW, spec.trimH), spec.dpi);
    }
  }

  // ---------- containment through the frames ----------

  lemma ToPixelsRoundTrip(r: Rect, dpi: nat)
    requires dpi > 0
    ensures var d := dpi as real; ToPixels(r.w / d, r.h / d, dpi, r.x / d, r.y / d) == r
  {
    var d := dpi as real;
    assert r.x / d * d == r.x && r.y / d * d == r.y && r.w / d * d == r.w && r.h / d * d == r.h;
  }

  /** A panel-local zone lands inside its panel exactly when its size plus anchor offset fits
      the panel in inches. */
  lemma PanelZoneInPanelIffFits(panel: Rect, dpi: nat, r: RectIn)
    requires dpi > 0
    ensures Within(PanelZoneRect(panel, dpi, r), panel) <==> Fits(r, panel.w / dpi as real, panel.h / dpi as real)
  {
    hide Px, Fits, Place;
    var d := dpi as real;
    var pw, ph, x, y := panel.w / d, panel.h / d, panel.x / d, panel.y / d;
    var local := Place(r, pw, ph);
    ToPixelsRoundTrip(panel, dpi);
    PixelsPreserveWithin(Rect(x + local.x, y + local.y, local.w, local.h), Rect(x, y, pw, ph), dpi);
    ShiftKeepsWithin(local, pw, ph, x, y);
    PlacedWithinIffFits(r, pw, ph);
  }

  lemma ShiftKeepsWithin(local: Rect, pw: real, ph: real, x: real, y: real)
    ensures Within(Rect(x + local.x, y + local.y, local.w, local.h), Rect(x, y, pw, ph)) <==>
            Within(local, Rect(0.0, 0.0, pw, ph))
  {
  }

  /** A postcard zone lands inside the canvas exactly when it fits the canvas in inches. */
  lemma PostcardZoneInCanvasIffFits(spec: MailerSpec, face: string, z: ZoneDef)
    requires spec.dpi > 0
    ensures Within(PostcardZone(spec, face, z).rect, spec.Canvas()) <==> Fits(z.rectIn, spec.CanvasW(), spec.CanvasH())
  {
    hide Px, Fits, Place;
    PixelsPreserveWithin(Place(z.rectIn, spec.CanvasW(), spec.CanvasH()),
                         Rect(0.0, 0.0, spec.CanvasW(), spec.CanvasH()), spec.dpi);
    PlacedWithinIffFits(z.rectIn, spec.CanvasW(), spec.CanvasH());
  }

  /** Distances are measured from the edge that names them, the near edge first. */
  predicate AtDistance(inner: Rect, outer: Rect, r: RectIn, dpi: nat) {
    && (if r.fromLeft.Some? then inner.x - outer.x == Px(r.fromLeft.value, dpi)
        else if r.fromRight.Some? then outer.Right() - inner.Right() == Px(r.fromRight.value, dpi)
        else inner.x == outer.x)
    && (if r.fromTop.Some? then inner.y - outer.y == Px(r.fromTop.value, dpi)
        else if r.fromBottom.Some? then outer.Bottom() - inner.Bottom() == Px(r.fromBottom.value, dpi)
        else inner.y == outer.y)
  }

  predicate OfSize(inner: Rect, outer: Rect, r: RectIn, dpi: nat) {
    && inner.w == (if r.wFullFace then outer.w else Px(r.w.GetOr(0.0), dpi))
    && inner.h == (if r.hFullFace then outer.h else Px(r.h.GetOr(0.0), dpi))
  }

  lemma PlacedOnFrame(x: real, y: real, w: real, h: real, r: RectIn, dpi: nat)
    ensures var p := Place(r, w, h);
            var inner, outer := ToPixels(p.w, p.h, dpi, x + p.x, y + p.y), ToPixels(w, h, dpi, x, y);
            AtDistance(inner, outer, r, dpi) && OfSize(inner, outer, r, dpi)
  {
    hide Px;
    var p := Place(r, w, h);
    PxAdd(x, p.x, dpi);
    PxAdd(y, p.y, dpi);
    PxAdd(w - p.w, r.fromRight.GetOr(0.0), dpi);
    PxAdd(w, p.w, dpi);
    PxAdd(h - p.h, r.fromBottom.GetOr(0.0), dpi);
    PxAdd(h, p.h, dpi);
  }

  /** After both frame changes a panel-local zone has its size, and sits at its own distances
      from its panel's edges. */
  lemma PanelZoneKeepsDistances(panel: Rect, dpi: nat, r: RectIn)
    requires dpi > 0
    ensures AtDistance(PanelZoneRect(panel, dpi, r), panel, r, dpi)
            && OfSize(PanelZoneRect(panel, dpi, r), panel, r, dpi)
  {
    hide Px, Place, AtDistance, OfSize;
    var d := dpi as real;
    ToPixelsRoundTrip(panel, dpi);
    PlacedOnFrame(panel.x / d, panel.y / d, panel.w / d, panel.h / d, r, dpi);
  }

  /** So does a postcard zone on the canvas. */
  lemma PostcardZoneKeepsDistances(spec: MailerSpec, face: string, z: ZoneDef)
    ensures var rect := PostcardZone(spec, face, z).rect;
            AtDistance(rect, spec.Canvas(), z.rectIn, spec.dpi) && OfSize(rect, spec.Canvas(), z.rectIn, spec.dpi)
  {
    hide Px, Place, AtDistance, OfSize;
    PlacedOnFrame(0.0, 0.0, spec.CanvasW(), spec.CanvasH(), z.rectIn, spec.dpi);
  }

  /** And a legacy zone, which is turned into pixels before it is placed. */
  lemma LegacyZoneKeepsDistances(spec: MailerSpec, r: RectIn)
    requires !r.wFullFace && !r.hFullFace
    ensures LegacyRect(r, spec.Canvas(), spec.dpi).Some? <==> r.w.Some? && r.h.Some?
    ensures var z := LegacyRect(r, spec.Canvas(), spec.dpi);
            z.Some? ==> AtDistance(z.value, spec.Canvas(), r, spec.dpi) && OfSize(z.value, spec.Canvas(), r, spec.dpi)
  {
    hide Px;
    PxAdd(0.0, 0.0, spec.dpi);
  }

  /** The whole nest: zone in panel, panel in trim, trim in canvas. */
  lemma ZonesNest(spec: MailerSpec, s: Split, i: nat, r: RectIn)
    requires spec.dpi > 0 && FoldsInTrim(spec, s) && i <= |Folds(spec, s)|
    requires 0.0 <= spec.trimW <= spec.CanvasW() && 0.0 <= spec.trimH <= spec.CanvasH()
    requires var p := PanelRect(spec, s, i); Fits(r, p.w / spec.dpi as real, p.h / spec.dpi as real)
    ensures var p := PanelRect(spec, s, i);
            var zone := PanelZoneRect(p, spec.dpi, r);
            Within(zone, p) && Within(p, spec.TrimFrame())
            && Within(zone, spec.TrimFrame()) && Within(zone, spec.Canvas())
  {
    hide PanelRect, PanelZoneRect, Fits, FoldsInTrim, MailerSpec.TrimFrame, MailerSpec.Canvas;
    var p := PanelRect(spec, s, i);
    var zone := PanelZoneRect(p, spec.dpi, r);
    PanelZoneInPanelIffFits(p, spec.dpi, r);
    PanelInTrim(spec, s, i);
    TrimInCanvas(spec);
    WithinTransitive(zone, p, spec.TrimFrame());
    WithinTransitive(zone, spec.TrimFrame(), spec.Canvas());
  }

  /** A panel's safe area lies in the panel exactly when the inset is not negative and no
      larger than the panel itself. */
  lemma SafeInPanelIffInsetFits(p: Rect, inset: real)
    requires p.w >= 0.0 && p.h >= 0.0
    ensures Within(Shrunk(p, inset), p) <==> 0.0 <= inset <= p.w && inset <= p.h
  {
  }

  /** A glue strip lies in the trim exactly when it is no thicker than the sheet. */
  lemma GlueInTrimIffThin(spec: MailerSpec, glue: real, edge: string)
    requires spec.dpi > 0 && GlueStrip(spec, glue, edge).Some?
    ensures Within(GlueStrip(spec, glue, edge).value.rect, spec.TrimFrame()) <==>
            glue <= (if edge == "top" || edge == "bottom" then spec.trimH else spec.trimW)
  {
    hide Px;
    var x, y, w, h := spec.MarginX(), spec.MarginY(), spec.trimW, spec.trimH;
    var trim := Rect(x, y, w, h);
    if edge == "top" {
      PixelsPreserveWithin(Rect(x, y, w, glue), trim, spec.dpi);
    } else if edge == "bottom" {
      PixelsPreserveWithin(Rect(x, y + h - glue, w, glue), trim, spec.dpi);
    } else if edge == "left_outer" {
      PixelsPreserveWithin(Rect(x, y, glue, h), trim, spec.dpi);
    } else {
      PixelsPreserveWithin(Rect(x + w - glue, y, glue, h), trim, spec.dpi);
    }
  }

  /** Each strip runs along the whole edge it is named after, `glue` inches deep. */
  lemma GlueHugsItsEdge(spec: MailerSpec, glue: real)
    ensures var t, g := spec.TrimFrame(), Px(glue, spec.dpi);
            && GlueStrip(spec, glue, "top").value.rect == Rect(t.x, t.y, t.w, g)
            && GlueStrip(spec, glue, "bottom").value.rect == Rect(t.x, t.Bottom() - g, t.w, g)
            && GlueStrip(spec, glue, "left_outer").value.rect == Rect(t.x, t.y, g, t.h)
            && GlueStrip(spec, glue, "right_outer").value.rect == Rect(t.Right() - g, t.y, g, t.h)
  {
    hide Px;
    PxAdd(spec.MarginY() + spec.trimH, glue, spec.dpi);
    PxAdd(spec.MarginY(), spec.trimH, spec.dpi);
    PxAdd(spec.MarginX() + spec.trimW, glue, spec.dpi);
    PxAdd(spec.MarginX(), spec.trimW, spec.dpi);
  }

  /** The explicit strip has its own size, keeps its distance from the trim's left edge, and lies
      against the trim's bottom or top edge. */
  lemma ExplicitGlueHugsItsEdge(spec: MailerSpec, g: ExplicitGlue)
    ensures var r, t := ExplicitStrip(spec, g).rect, spec.TrimFrame();
            && r.w == Px(g.w, spec.dpi) && r.h == Px(g.h, spec.dpi) && r.x - t.x == Px(g.fromLeft, spec.dpi)
            && (if g.atBottom then r.Bottom() == t.Bottom() else r.y == t.y)
  {
    hide Px;
    PxAdd(spec.MarginX(), g.fromLeft, spec.dpi);
    PxAdd(spec.MarginY() + spec.trimH, g.h, spec.dpi);
    PxAdd(spec.MarginY(), spec.trimH, spec.dpi);
  }

  /** A postcard's safe area, computed in inches, is the trim frame inset in pixels on all sides. */
  lemma PostcardSafeIsInset(spec: MailerSpec, face: string)
    ensures var s, t, inset := PostcardSafe(spec, face).rect, spec.TrimFrame(), SafeInsetPx(spec);
            s.x - t.x == inset && s.y - t.y == inset
            && t.Right() - s.Right() == inset && t.Bottom() - s.Bottom() == inset
  {
    hide Px;
    var v := spec.safeInset.GetOr(0.0);
    PxAdd(spec.MarginX(), v, spec.dpi);
    PxAdd(spec.MarginY(), v, spec.dpi);
    PxAdd(v, v, spec.dpi);
    PxAdd(spec.trimW, 2.0 * v, spec.dpi);
    PxAdd(spec.trimH, 2.0 * v, spec.dpi);
  }

  // ---------- panels in the zone map ----------

  lemma {:induction false} PanelRegionListed(spec: MailerSpec, face: string, ps: seq<NamedRect>, i: nat)
    requires i < |ps|
    ensures forall r :: r in PanelRegions(spec, face, ps[i]) ==> r in AllPanelRegions(spec, face, ps)
  {
    hide PanelRegions;
    if i < |ps| - 1 {
      PanelRegionListed(spec, face, ps[..|ps| - 1], i);
    }
  }

  lemma {:induction false} FaceListed(spec: MailerSpec, faces: seq<FaceDef>, f: FaceDef)
    requires spec.dpi > 0 && spec.category == SelfMailer && f in faces
    ensures forall r :: r in SelfMailerFace(spec, f) ==> r in FaceZones(spec, faces)
  {
    hide SelfMailerFace;
    if faces[|faces| - 1] != f {
      FaceListed(spec, faces[..|faces| - 1], f);
    }
  }

  lemma RegionResolves(spec: MailerSpec, r: Region)
    requires spec.dpi > 0 && CollisionFree(Writes(spec)) && r in Regions(spec)
    ensures r.name in Zones(spec) && Zones(spec)[r.name] == r.rect
  {
    hide Regions, Writes, Zones, CollisionFree;
    var i :| 0 <= i < |Regions(spec)| && Regions(spec)[i] == r;
    assert RegionWrites(r)[0] == (r.name, r.rect);
    CollisionFreeResolves(spec, i, (r.name, r.rect));
  }

  /** Without name collisions an alias of a face's region resolves to that region's rectangle under
      the face's name, an underscore and the alias; an alias of a region without a face, as it is. */
  lemma AliasResolves(spec: MailerSpec, r: Region, alias: string)
    requires spec.dpi > 0 && CollisionFree(Writes(spec)) && r in Regions(spec) && alias in r.aliases
    ensures var name := if r.face.Some? && r.face.value != "" then r.face.value + "_" + alias else alias;
            name in Zones(spec) && Zones(spec)[name] == r.rect
  {
    hide Regions, Writes, Zones, CollisionFree;
    var i :| 0 <= i < |Regions(spec)| && Regions(spec)[i] == r;
    var j :| 0 <= j < |r.aliases| && r.aliases[j] == alias;
    assert RegionWrites(r)[1 + j] == (AliasName(r.face, alias), r.rect);
    CollisionFreeResolves(spec, i, (AliasName(r.face, alias), r.rect));
  }

  /** On a self-mailer without name collisions the i-th panel's name resolves to the i-th panel
      of the fold geometry, and its safe area to that panel inset on all sides. */
  lemma PanelNamesResolve(spec: MailerSpec, f: FaceDef, i: nat)
    requires spec.dpi > 0 && CollisionFree(Writes(spec)) && spec.category == SelfMailer && f in spec.faces
    requires Axis(spec).Some? && (f.name == OUTSIDE || f.name == INSIDE) && i <= |Folds(spec, Axis(spec).value)|
    ensures |FacePanels(spec, f.name)| == |Folds(spec, Axis(spec).value)| + 1
    ensures var name, rect := FacePanels(spec, f.name)[i].name, PanelRect(spec, Axis(spec).value, i);
            && name in Zones(spec) && Zones(spec)[name] == rect
            && name + "_safe" in Zones(spec) && Zones(spec)[name + "_safe"] == Shrunk(rect, SafeInsetPx(spec))
  {
    hide FacePanels, PanelRect, CollisionFree, Writes, Zones, AllPanelZones,
      AllPanelRegions, GlueAndFolds, Folds, Shrunk;
    FacesShareRectangles(spec);
    var ps := FacePanels(spec, f.name);
    PanelRegionListed(spec, f.name, ps, i);
    FaceListed(spec, spec.faces, f);
    var regions := PanelRegions(spec, f.name, ps[i]);
    assert regions[0] in AllPanelRegions(spec, f.name, ps) && regions[1] in AllPanelRegions(spec, f.name, ps);
    RegionResolves(spec, regions[0]);
    RegionResolves(spec, regions[1]);
  }

  // ---------- gutters in the zone map ----------

  lemma {:induction false} RegionsWritesConcat(a: seq<Region>, b: seq<Region>)
    ensures RegionsWrites(a + b) == RegionsWrites(a) + RegionsWrites(b)
  {
    hide RegionWrites;
    if b == [] {
      assert a + b == a;
    } else {
      assert (a + b)[..|a + b| - 1] == a + b[..|b| - 1];
      RegionsWritesConcat(a, b[..|b| - 1]);
    }
  }

  lemma {:induction false} AliasFreeWrites(rs: seq<Region>)
    requires forall r :: r in rs ==> r.aliases == []
    ensures |RegionsWrites(rs)| == |rs|
    ensures forall i :: 0 <= i < |rs| ==> RegionsWrites(rs)[i] == (rs[i].name, rs[i].rect)
  {
    if rs != [] {
      var last := rs[|rs| - 1];
      AliasFreeWrites(rs[..|rs| - 1]);
      assert last in rs;
      assert RegionWrites(last) == [(last.name, last.rect)];
    }
  }

  lemma GutterNamesDiffer(i: nat, j: nat)
    requires i != j
    ensures GutterName(i) != GutterName(j)
  {
    if GutterName(i) == GutterName(j) {
      SameTail("fold_gutter_", Numeral(i + 1), Numeral(j + 1));
      NumeralInjective(i + 1, j + 1);
    }
  }

  predicate Foldable(spec: MailerSpec) { spec.category == SelfMailer && spec.folding.Some? && spec.dpi > 0 }

  function Half(spec: MailerSpec): real
    requires spec.folding.Some?
  {
    GutterHalf(spec.folding.value)
  }

  /** The last things written are the gutters, vertical folds first. */
  lemma WritesEndWithGutters(spec: MailerSpec) returns (front: seq<Write>)
    requires Foldable(spec)
    ensures Writes(spec) == front
            + RegionsWrites(Gutters(spec, Half(spec), AlongX)) + RegionsWrites(Gutters(spec, Half(spec), AlongY))
  {
    hide RegionsWrites, Gutters, FaceZones, BarePanels, Strips, BaseWrites, LegacyWrites, AllPanels;
    var f := spec.folding.value;
    var gx, gy := Gutters(spec, Half(spec), AlongX), Gutters(spec, Half(spec), AlongY);
    var head := (if spec.faces != [] then FaceZones(spec, spec.faces) else BarePanels(spec, AllPanels(spec)))
                + (Strips(spec, GlueWidth(f), f.openingEdges)
                   + (if f.explicitGlue.Some? then [ExplicitStrip(spec, f.explicitGlue.value)] else []));
    assert Regions(spec) == head + gx + gy;
    RegionsWritesConcat(head + gx, gy);
    RegionsWritesConcat(head, gx);
    front := BaseWrites(spec) + LegacyWrites(spec, spec.legacyZones) + RegionsWrites(head);
  }

  lemma GutterWrites(spec: MailerSpec, s: Split)
    requires Foldable(spec)
    ensures var folds := Sort(Folds(spec, s));
            var ws := RegionsWrites(Gutters(spec, Half(spec), s));
            |ws| == |folds| == |Folds(spec, s)| &&
            forall i :: 0 <= i < |folds| ==> ws[i] == (GutterName(i), GutterRect(spec, Half(spec), s, folds[i]))
  {
    hide GutterRect, GutterName;
    SortSorts(Folds(spec, s));
    AliasFreeWrites(Gutters(spec, Half(spec), s));
  }

  /** What `fold_gutter_i` resolves to: folds along y win over folds along x. */
  function BoundGutter(spec: MailerSpec, i: nat): Rect
    requires Foldable(spec) && (i < |spec.FoldXs()| || i < |spec.FoldYs()|)
  {
    SortSorts(spec.FoldXs());
    SortSorts(spec.FoldYs());
    if i < |spec.FoldYs()| then GutterRect(spec, Half(spec), AlongY, Sort(spec.FoldYs())[i])
    else GutterRect(spec, Half(spec), AlongX, Sort(spec.FoldXs())[i])
  }

  /** Whatever else the specification names, the gutter names are written last and resolve. */
  lemma GutterResolves(spec: MailerSpec, i: nat)
    requires Foldable(spec) && (i < |spec.FoldXs()| || i < |spec.FoldYs()|)
    ensures GutterName(i) in Zones(spec) && Zones(spec)[GutterName(i)] == BoundGutter(spec, i)
  {
    hide RegionsWrites, Gutters, Writes, Regions, GutterRect, GutterName, Sort, Replay;
    var front := WritesEndWithGutters(spec);
    GutterWrites(spec, AlongX);
    GutterWrites(spec, AlongY);
    var ws := Writes(spec);
    var wx := RegionsWrites(Gutters(spec, Half(spec), AlongX));
    var wy := RegionsWrites(Gutters(spec, Half(spec), AlongY));
    var k := if i < |wy| then |front| + |wx| + i else |front| + i;
    forall j | k < j < |ws| ensures ws[j].0 != ws[k].0 {
      if j >= |front| + |wx| {
        GutterNamesDiffer(i, j - |front| - |wx|);
      } else {
        GutterNamesDiffer(i, j - |front|);
      }
    }
    SurvivingWriteResolves(ws, k);
  }

  // ---------- the sync script's fold check ----------

  datatype FoldFailure = MissingGutter(index: nat) | OffCentre(index: nat)

  const TOLERANCE_IN := 0.01

  /** Centre of a gutter in canvas inches, along the split. */
  function CentreIn(g: Rect, s: Split, dpi: nat): real
    requires dpi > 0
  {
    (Low(g, s) + Thickness(g, s) / 2.0) / dpi as real
  }

  function FoldFailureAt(spec: MailerSpec, zones: ZoneMap, s: Split, i: nat): seq<FoldFailure>
    requires spec.dpi > 0 && i < |Sort(Folds(spec, s))|
  {
    if GutterName(i) !in zones then [MissingGutter(i + 1)]
    else if !Close(CentreIn(zones[GutterName(i)], s, spec.dpi), Margin(spec, s) + Sort(Folds(spec, s))[i], TOLERANCE_IN)
    then [OffCentre(i + 1)]
    else []
  }

  function FoldFailures(spec: MailerSpec, zones: ZoneMap, s: Split, n: nat): seq<FoldFailure>
    requires spec.dpi > 0 && n <= |Sort(Folds(spec, s))|
  {
    if n == 0 then [] else FoldFailures(spec, zones, s, n - 1) + FoldFailureAt(spec, zones, s, n - 1)
  }

  function AllFoldFailures(spec: MailerSpec, zones: ZoneMap): seq<FoldFailure>
    requires spec.dpi > 0
  {
    FoldFailures(spec, zones, AlongX, |Sort(spec.FoldXs())|) + FoldFailures(spec, zones, AlongY, |Sort(spec.FoldYs())|)
  }

  method CheckAxis(spec: MailerSpec, zones: ZoneMap, s: Split) returns (fails: seq<FoldFailure>)
    requires spec.dpi > 0
    ensures fails == FoldFailures(spec, zones, s, |Sort(Folds(spec, s))|)
  {
    hide GutterName, CentreIn, Close, Sort, Folds, Margin;
    fails := [];
    var folds := Sort(Folds(spec, s));
    for i := 0 to |folds|
      invariant fails == FoldFailures(spec, zones, s, i)
    {
      if GutterName(i) !in zones {
        fails := fails + [MissingGutter(i + 1)];
      } else if !Close(CentreIn(zones[GutterName(i)], s, spec.dpi), Margin(spec, s) + folds[i], TOLERANCE_IN) {
        fails := fails + [OffCentre(i + 1)];
      }
    }
  }

  method CheckFolds(spec: MailerSpec, zones: ZoneMap) returns (fails: seq<FoldFailure>)
    requires spec.dpi > 0
    ensures fails == AllFoldFailures(spec, zones)
  {
    hide FoldFailures, Sort;
    var vertical := CheckAxis(spec, zones, AlongX);
    var horizontal := CheckAxis(spec, zones, AlongY);
    fails := vertical + horizontal;
  }

  lemma {:induction false} NoFailuresIffNoneAt(spec: MailerSpec, zones: ZoneMap, s: Split, n: nat)
    requires spec.dpi > 0 && n <= |Sort(Folds(spec, s))|
    ensures FoldFailures(spec, zones, s, n) == [] <==> forall i :: 0 <= i < n ==> FoldFailureAt(spec, zones, s, i) == []
  {
    hide FoldFailureAt, Sort;
    if n > 0 {
      NoFailuresIffNoneAt(spec, zones, s, n - 1);
    }
  }

  lemma OwnGutterIsCentred(spec: MailerSpec, s: Split, fold: real)
    requires Foldable(spec)
    ensures CentreIn(GutterRect(spec, Half(spec), s, fold), s, spec.dpi) == Margin(spec, s) + fold
  {
    hide Px, GutterRect, Low, Thickness;
    GutterSpan(spec, Half(spec), s, fold);
    PxInverse(Margin(spec, s) + fold, spec.dpi);
  }

  /** Seen along x, a gutter of a horizontal fold is centred on the middle of the trim. */
  lemma CrossGutterIsCentred(spec: MailerSpec, fold: real)
    requires Foldable(spec)
    ensures CentreIn(GutterRect(spec, Half(spec), AlongY, fold), AlongX, spec.dpi) == spec.MarginX() + spec.trimW / 2.0
  {
    hide Px;
    var g := GutterRect(spec, Half(spec), AlongY, fold);
    PxAdd(spec.MarginX(), spec.trimW / 2.0, spec.dpi);
    PxAdd(spec.trimW / 2.0, spec.trimW / 2.0, spec.dpi);
    assert spec.trimW / 2.0 + spec.trimW / 2.0 == spec.trimW;
    assert g.x + g.w / 2.0 == Px(spec.MarginX() + spec.trimW / 2.0, spec.dpi);
    PxInverse(spec.MarginX() + spec.trimW / 2.0, spec.dpi);
  }

  /** Folds declared along both axes share gutter names; the x check then measures the wrong
      gutter, and passes only if the fold happens to be in the middle of the sheet. */
  predicate CrossedFoldsCentred(spec: MailerSpec) {
    SortSorts(spec.FoldXs());
    forall i :: 0 <= i < |spec.FoldXs()| && i < |spec.FoldYs()| ==>
      Close(spec.trimW / 2.0, Sort(spec.FoldXs())[i], TOLERANCE_IN)
  }

  lemma FailureAtX(spec: MailerSpec, i: nat)
    requires Foldable(spec) && i < |spec.FoldXs()| == |Sort(spec.FoldXs())|
    ensures FoldFailureAt(spec, Zones(spec), AlongX, i) == [] <==>
            (i < |spec.FoldYs()| ==> Close(spec.trimW / 2.0, Sort(spec.FoldXs())[i], TOLERANCE_IN))
  {
    hide Zones, GutterRect, CentreIn, GutterName, Sort;
    GutterResolves(spec, i);
    SortSorts(spec.FoldYs());
    if i < |spec.FoldYs()| {
      CrossGutterIsCentred(spec, Sort(spec.FoldYs())[i]);
    } else {
      OwnGutterIsCentred(spec, AlongX, Sort(spec.FoldXs())[i]);
    }
  }

  lemma FailureAtY(spec: MailerSpec, i: nat)
    requires Foldable(spec) && i < |spec.FoldYs()| == |Sort(spec.FoldYs())|
    ensures FoldFailureAt(spec, Zones(spec), AlongY, i) == []
  {
    hide Zones, GutterRect, CentreIn, GutterName, Sort;
    GutterResolves(spec, i);
    OwnGutterIsCentred(spec, AlongY, Sort(spec.FoldYs())[i]);
  }

  /** The sync script's fold check passes on the binder's own zones exactly when no crossed
      fold is off centre; with folds on one axis it always passes. */
  lemma SyncFoldCheckExact(spec: MailerSpec)
    requires Foldable(spec)
    ensures AllFoldFailures(spec, Zones(spec)) == [] <==> CrossedFoldsCentred(spec)
    ensures spec.FoldXs() == [] || spec.FoldYs() == [] ==> AllFoldFailures(spec, Zones(spec)) == []
  {
    hide Zones, FoldFailureAt, Sort, Close, FoldFailures;
    var xs, ys := spec.FoldXs(), spec.FoldYs();
    SortSorts(xs);
    SortSorts(ys);
    NoFailuresIffNoneAt(spec, Zones(spec), AlongX, |xs|);
    NoFailuresIffNoneAt(spec, Zones(spec), AlongY, |ys|);
    forall i | 0 <= i < |xs|
      ensures FoldFailureAt(spec, Zones(spec), AlongX, i) == [] <==>
              (i < |ys| ==> Close(spec.trimW / 2.0, Sort(xs)[i], TOLERANCE_IN))
    {
      FailureAtX(spec, i);
    }
    forall i | 0 <= i < |ys| ensures FoldFailureAt(spec, Zones(spec), AlongY, i) == [] {
      FailureAtY(spec, i);
    }
  }
}
