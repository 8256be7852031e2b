/** `bind_spec_zones`: every zone name a scaffold can refer to, bound to a pixel rectangle. */
module Binder {
  import opened Common
  import opened Geometry
  import opened MailerSpecs
  import opened Panels

  type ZoneMap = map<string, Rect>
  type Write = (string, Rect)

  // ---------- rectangles given from edges ----------

  /** `_resolve_rect_in`: parent-local position and size, in inches. */
  function Place(r: RectIn, parentW: real, parentH: real): Rect {
    var w := if r.wFullFace then parentW else r.w.GetOr(0.0);
    var h := if r.hFullFace then parentH else r.h.GetOr(0.0);
    var x := if r.fromLeft.Some? then r.fromLeft.value
             else if r.fromRight.Some? then parentW - w - r.fromRight.value else 0.0;
    var y := if r.fromTop.Some? then r.fromTop.value
             else if r.fromBottom.Some? then parentH - h - r.fromBottom.value else 0.0;
    Rect(x, y, w, h)
  }

  /** `_zone_dict_to_rect`: a legacy zone on the canvas, unless it is only a label. */
  function LegacyRect(z: RectIn, canvas: Rect, dpi: nat): Option<Rect> {
    if z.w.None? || z.h.None? then None
    else
      var w, h := Px(z.w.value, dpi), Px(z.h.value, dpi);
      var y := if z.fromTop.Some? then Px(z.fromTop.value, dpi)
               else if z.fromBottom.Some? then canvas.h - h - Px(z.fromBottom.value, dpi) else 0.0;
      var x := if z.fromLeft.Some? then Px(z.fromLeft.value, dpi)
               else if z.fromRight.Some? then canvas.w - w - Px(z.fromRight.value, dpi) else 0.0;
      Some(Rect(x, y, w, h))
  }

  /** Size plus anchor offset fit the parent, on one axis. */
  predicate FitsAxis(size: real, near: Option<real>, far: Option<real>, parent: real) {
    if near.Some? then 0.0 <= near.value && near.value + size <= parent
    else if far.Some? then 0.0 <= far.value && far.value + size <= parent
    else size <= parent
  }

  predicate Fits(r: RectIn, parentW: real, parentH: real) {
    && FitsAxis(if r.wFullFace then parentW else r.w.GetOr(0.0), r.fromLeft, r.fromRight, parentW)
    && FitsAxis(if r.hFullFace then parentH else r.h.GetOr(0.0), r.fromTop, r.fromBottom, parentH)
  }

  lemma PlacedWithinIffFits(r: RectIn, parentW: real, parentH: real)
    ensures Within(Place(r, parentW, parentH), Rect(0.0, 0.0, parentW, parentH)) <==> Fits(r, parentW, parentH)
  {
  }

  // ---------- glue strips and fold gutters ----------

  function GlueWidth(f: Folding): real { Truthy(f.glueWidth, 0.25) }

  function GutterHalf(f: Folding): real { Truthy(f.gutterHalf, 0.125) }

  function Derived(name: string, kind: string, rect: Rect, face: Option<string>): Region {
    Region(name, kind, rect, face, None, [])
  }

  function GlueStrip(spec: MailerSpec, glue: real, edge: string): Option<Region> {
    var x, y := spec.MarginX(), spec.MarginY();
    if edge == "top" then
      Some(Derived("glue_zone_top", "glue", ToPixels(spec.trimW, glue, spec.dpi, x, y), Some(OUTSIDE)))
    else if edge == "bottom" then
      Some(Derived("glue_zone_bottom", "glue",
           ToPixels(spec.trimW, glue, spec.dpi, x, y + spec.trimH - glue), Some(OUTSIDE)))
    else if edge == "left_outer" then
      Some(Derived("glue_zone_left", "glue", ToPixels(glue, spec.trimH, spec.dpi, x, y), Some(OUTSIDE)))
    else if edge == "right_outer" then
      Some(Derived("glue_zone_right", "glue",
           ToPixels(glue, spec.trimH, spec.dpi, x + spec.trimW - glue, y), Some(OUTSIDE)))
    else None
  }

  function Strips(spec: MailerSpec, glue: real, edges: seq<string>): seq<Region> {
    if edges == [] then []
    else
      var last := GlueStrip(spec, glue, edges[|edges| - 1]);
      Strips(spec, glue, edges[..|edges| - 1]) + (if last.Some? then [last.value] else [])
  }

  function ExplicitStrip(spec: MailerSpec, g: ExplicitGlue): Region {
    var y := if g.atBottom then spec.MarginY() + spec.trimH - g.h else spec.MarginY();
    Derived("glue_zone_explicit", "glue", ToPixels(g.w, g.h, spec.dpi, spec.MarginX() + g.fromLeft, y), Some(OUTSIDE))
  }

  function GutterName(i: nat): string { "fold_gutter_" + Numeral(i + 1) }

  /** The band straddling a fold at `fold` inches. */
  function GutterRect(spec: MailerSpec, half: real, s: Split, fold: real): Rect {
    if s == AlongX then ToPixels(2.0 * half, spec.trimH, spec.dpi, spec.MarginX() + fold - half, spec.MarginY())
    else ToPixels(spec.trimW, 2.0 * half, spec.dpi, spec.MarginX(), spec.MarginY() + fold - half)
  }

  function Gutters(spec: MailerSpec, half: real, s: Split): seq<Region> {
    var folds := Sort(Folds(spec, s));
    seq(|folds|, i requires 0 <= i < |folds| =>
      Derived(GutterName(i), "fold_gutter", GutterRect(spec, half, s, folds[i]), None))
  }

  function GlueAndFolds(spec: MailerSpec): seq<Region> {
    if spec.folding.None? then []
    else
      var f := spec.folding.value;
      Strips(spec, GlueWidth(f), f.openingEdges)
      + (if f.explicitGlue.Some? then [ExplicitStrip(spec, f.explicitGlue.value)] else [])
      + Gutters(spec, GutterHalf(f), AlongX)
      + Gutters(spec, GutterHalf(f), AlongY)
  }

  method AddStrips(spec: MailerSpec, glue: real, edges: seq<string>) returns (out: seq<Region>)
    ensures out == Strips(spec, glue, edges)
  {
    hide GlueStrip;
    out := [];
    for k := 0 to |edges|
      invariant out == Strips(spec, glue, edges[..k])
    {
      assert edges[..k + 1][..k] == edges[..k];
      var strip := GlueStrip(spec, glue, edges[k]);
      if strip.Some? {
        out := out + [strip.value];
      }
    }
    assert edges[..|edges|] == edges;
  }

  method AddGutters(spec: MailerSpec, half: real, s: Split) returns (out: seq<Region>)
    ensures out == Gutters(spec, half, s)
  {
    hide GutterRect, GutterName;
    out := [];
    var folds := Sort(Folds(spec, s));
    for i := 0 to |folds|
      invariant out == Gutters(spec, half, s)[..i]
    {
      out := out + [Derived(GutterName(i), "fold_gutter", GutterRect(spec, half, s, folds[i]), None)];
    }
  }

  method DeriveGlueAndFolds(spec: MailerSpec) returns (out: seq<Region>)
    ensures out == GlueAndFolds(spec)
  {
    hide Strips, ExplicitStrip, Gutters;
    out := [];
    if spec.folding.Some? {
      var f := spec.folding.value;
      out := AddStrips(spec, GlueWidth(f), f.openingEdges);
      if f.explicitGlue.Some? {
        out := out + [ExplicitStrip(spec, f.explicitGlue.value)];
      }
      var vertical := AddGutters(spec, GutterHalf(f), AlongX);
      var horizontal := AddGutters(spec, GutterHalf(f), AlongY);
      out := out + vertical + horizontal;
    }
  }

  // ---------- faces ----------

  function FaceRegion(spec: MailerSpec, face: string): Region {
    Derived(face + "_face", "face", Rect(0.0, 0.0, spec.Canvas().w, spec.Canvas().h), Some(face))
  }

  function PostcardSafe(spec: MailerSpec, face: string): Region {
    var inset := spec.safeInset.GetOr(0.0);
    Derived(face + "_safe", "safe",
            ToPixels(spec.trimW - 2.0 * inset, spec.trimH - 2.0 * inset, spec.dpi,
                     spec.MarginX() + inset, spec.MarginY() + inset),
            Some(face))
  }

  function PostcardZone(spec: MailerSpec, face: string, z: ZoneDef): Region {
    var r := Place(z.rectIn, spec.CanvasW(), spec.CanvasH());
    Region(face + "_" + z.name, z.kind, ToPixels(r.w, r.h, spec.dpi, r.x, r.y), Some(face), None, z.aliases)
  }

  function PostcardZones(spec: MailerSpec, face: string, zs: seq<ZoneDef>): seq<Region> {
    seq(|zs|, i requires 0 <= i < |zs| => PostcardZone(spec, face, zs[i]))
  }

  function PostcardFace(spec: MailerSpec, f: FaceDef): seq<Region> {
    [FaceRegion(spec, f.name), PostcardSafe(spec, f.name)] + PostcardZones(spec, f.name, f.zones)
  }

  function Shrunk(r: Rect, inset: real): Rect {
    Rect(r.x + inset, r.y + inset, Max(0.0, r.w - 2.0 * inset), Max(0.0, r.h - 2.0 * inset))
  }

  function SafeInsetPx(spec: MailerSpec): real { Px(spec.safeInset.GetOr(0.0), spec.dpi) }

  /** A panel and its safe area. */
  function PanelRegions(spec: MailerSpec, face: string, p: NamedRect): seq<Region> {
    [Derived(p.name, "panel", p.rect, Some(face)),
     Region(p.name + "_safe", "safe", Shrunk(p.rect, SafeInsetPx(spec)), Some(face), Some(p.name), [])]
  }

  function AllPanelRegions(spec: MailerSpec, face: string, ps: seq<NamedRect>): seq<Region> {
    if ps == [] then []
    else AllPanelRegions(spec, face, ps[..|ps| - 1]) + PanelRegions(spec, face, ps[|ps| - 1])
  }

  /** A panel-local zone on the canvas: pixels to panel inches, placed, and back to pixels. */
  function PanelZoneRect(panel: Rect, dpi: nat, r: RectIn): Rect
    requires dpi > 0
  {
    var d := dpi as real;
    var local := Place(r, panel.w / d, panel.h / d);
    ToPixels(local.w, local.h, dpi, panel.x / d + local.x, panel.y / d + local.y)
  }

  function PanelZone(spec: MailerSpec, face: string, p: NamedRect, z: ZoneDef): Region
    requires spec.dpi > 0
  {
    Region(face + "_" + z.name, z.kind, PanelZoneRect(p.rect, spec.dpi, z.rectIn), Some(face), Some(p.name), z.aliases)
  }

  function PanelZones(spec: MailerSpec, face: string, p: NamedRect, zs: seq<ZoneDef>): seq<Region>
    requires spec.dpi > 0
  {
    seq(|zs|, i requires 0 <= i < |zs| => PanelZone(spec, face, p, zs[i]))
  }

  /** The panel of that name; the last one written, as in a mapping. */
  function PanelNamed(ps: seq<NamedRect>, name: string): Option<NamedRect> {
    if ps == [] then None
    else if ps[|ps| - 1].name == name then Some(ps[|ps| - 1])
    else PanelNamed(ps[..|ps| - 1], name)
  }

  /** Zones of panels the face does not have are skipped. */
  function AllPanelZones(spec: MailerSpec, face: string, ps: seq<NamedRect>, pzs: seq<(string, seq<ZoneDef>)>)
    : seq<Region>
    requires spec.dpi > 0
  {
    if pzs == [] then []
    else
      var last := pzs[|pzs| - 1];
      var p := PanelNamed(ps, last.0);
      AllPanelZones(spec, face, ps, pzs[..|pzs| - 1])
      + (if p.Some? then PanelZones(spec, face, p.value, last.1) else [])
  }

  function SelfMailerFace(spec: MailerSpec, f: FaceDef): seq<Region>
    requires spec.dpi > 0
  {
    var ps := FacePanels(spec, f.name);
    [FaceRegion(spec, f.name)] + AllPanelRegions(spec, f.name, ps) + AllPanelZones(spec, f.name, ps, f.panelZones)
  }

  function FaceZones(spec: MailerSpec, faces: seq<FaceDef>): seq<Region>
    requires spec.dpi > 0
  {
    if faces == [] then []
    else
      var f := faces[|faces| - 1];
      FaceZones(spec, faces[..|faces| - 1])
      + (if spec.category == Postcard then PostcardFace(spec, f) else SelfMailerFace(spec, f))
  }

  /** Panels of a self-mailer whose faces are not described yet. */
  function BarePanels(spec: MailerSpec, all: seq<(string, seq<NamedRect>)>): seq<Region> {
    if all == [] then []
    else
      var last := all[|all| - 1];
      BarePanels(spec, all[..|all| - 1])
      + seq(|last.1|, i requires 0 <= i < |last.1| => Derived(last.1[i].name, "panel", last.1[i].rect, Some(last.0)))
  }

  /** All regions, in the order they are projected into the zone map. */
  function Regions(spec: MailerSpec): seq<Region>
    requires spec.dpi > 0
  {
    if spec.category == Postcard && spec.faces != [] then FaceZones(spec, spec.faces)
    else if spec.category == SelfMailer && spec.faces != [] then FaceZones(spec, spec.faces) + GlueAndFolds(spec)
    else if spec.category == SelfMailer && spec.folding.Some? then
      BarePanels(spec, AllPanels(spec)) + GlueAndFolds(spec)
    else []
  }

  // ---------- the flat zone map ----------

  function AliasName(face: Option<string>, alias: string): string {
    if face.Some? && face.value != "" then face.value + "_" + alias else alias
  }

  function RegionWrites(r: Region): seq<Write> {
    [(r.name, r.rect)]
    + seq(|r.aliases|, i requires 0 <= i < |r.aliases| => (AliasName(r.face, r.aliases[i]), r.rect))
  }

  function RegionsWrites(rs: seq<Region>): seq<Write> {
    if rs == [] then [] else RegionsWrites(rs[..|rs| - 1]) + RegionWrites(rs[|rs| - 1])
  }

  function LegacyWrites(spec: MailerSpec, zs: seq<(string, RectIn)>): seq<Write> {
    if zs == [] then []
    else
      var r := LegacyRect(zs[|zs| - 1].1, spec.Canvas(), spec.dpi);
      LegacyWrites(spec, zs[..|zs| - 1]) + (if r.Some? then [(zs[|zs| - 1].0, r.value)] else [])
  }

  function BaseWrites(spec: MailerSpec): seq<Write> {
    [("canvas", spec.Canvas()), ("trim", spec.TrimZone())]
    + (if spec.safeInset.Some? then [("safe_zone", Shrunk(spec.TrimZone(), Px(spec.safeInset.value, spec.dpi)))]
       else [])
  }

  /** The ordered writes: base zones, legacy zones, then regions with their aliases. */
  function Writes(spec: MailerSpec): seq<Write>
    requires spec.dpi > 0
  {
    BaseWrites(spec) + LegacyWrites(spec, spec.legacyZones) + RegionsWrites(Regions(spec))
  }

  function Replay(ws: seq<Write>): ZoneMap {
    if ws == [] then map[] else Replay(ws[..|ws| - 1])[ws[|ws| - 1].0 := ws[|ws| - 1].1]
  }

  /** The zone map of a binding. */
  function Zones(spec: MailerSpec): ZoneMap
    requires spec.dpi > 0
  {
    Replay(Writes(spec))
  }

  lemma ReplayOne(ws: seq<Write>, w: Write)
    ensures Replay(ws + [w]) == Replay(ws)[w.0 := w.1]
  {
    assert (ws + [w])[..|ws|] == ws;
  }

  /** `zones[...] = rect`, once per write. */
  method Apply(zones0: ZoneMap, ghost done: seq<Write>, ws: seq<Write>) returns (zones: ZoneMap)
    requires zones0 == Replay(done)
    ensures zones == Replay(done + ws)
  {
    hide Replay;
    zones := zones0;
    assert done + ws[..0] == done;
    for i := 0 to |ws|
      invariant zones == Replay(done + ws[..i])
    {
      ReplayOne(done + ws[..i], ws[i]);
      assert done + ws[..i + 1] == done + ws[..i] + [ws[i]];
      zones := zones[ws[i].0 := ws[i].1];
    }
    assert done + ws[..|ws|] == done + ws;
  }

  method AddPanelRegions(spec: MailerSpec, face: string, ps: seq<NamedRect>) returns (out: seq<Region>)
    ensures out == AllPanelRegions(spec, face, ps)
  {
    hide Shrunk, SafeInsetPx;
    out := [];
    for i := 0 to |ps|
      invariant out == AllPanelRegions(spec, face, ps[..i])
    {
      assert ps[..i + 1][..i] == ps[..i];
      out := out + [Derived(ps[i].name, "panel", ps[i].rect, Some(face))]
             + [Region(ps[i].name + "_safe", "safe", Shrunk(ps[i].rect, SafeInsetPx(spec)),
                      Some(face), Some(ps[i].name), [])];
    }
    assert ps[..|ps|] == ps;
  }

  method AddPanelZones(spec: MailerSpec, face: string, ps: seq<NamedRect>, pzs: seq<(string, seq<ZoneDef>)>)
    returns (out: seq<Region>)
    requires spec.dpi > 0
    ensures out == AllPanelZones(spec, face, ps, pzs)
  {
    hide PanelNamed, PanelZoneRect;
    out := [];
    for i := 0 to |pzs|
      invariant out == AllPanelZones(spec, face, ps, pzs[..i])
    {
      assert pzs[..i + 1][..i] == pzs[..i];
      var p := PanelNamed(ps, pzs[i].0);
      if p.None? {
        continue;
      }
      ghost var before := out;
      var zs := pzs[i].1;
      for k := 0 to |zs|
        invariant out == before + PanelZones(spec, face, p.value, zs)[..k]
      {
        out := out + [PanelZone(spec, face, p.value, zs[k])];
      }
      assert PanelZones(spec, face, p.value, zs)[..|zs|] == PanelZones(spec, face, p.value, zs);
    }
    assert pzs[..|pzs|] == pzs;
  }

  method AddPostcardFace(spec: MailerSpec, f: FaceDef) returns (out: seq<Region>)
    ensures out == PostcardFace(spec, f)
  {
    hide FaceRegion, PostcardSafe, PostcardZone;
    out := [FaceRegion(spec, f.name)];
    out := out + [PostcardSafe(spec, f.name)];
    for k := 0 to |f.zones|
      invariant out == PostcardFace(spec, f)[..2 + k]
    {
      out := out + [PostcardZone(spec, f.name, f.zones[k])];
    }
  }

  /** `_derive_face_zones_postcard`. */
  method DeriveFaceZonesPostcard(spec: MailerSpec) returns (out: seq<Region>)
    requires spec.dpi > 0 && spec.category == Postcard
    ensures out == FaceZones(spec, spec.faces)
  {
    hide PostcardFace;
    out := [];
    for i := 0 to |spec.faces|
      invariant out == FaceZones(spec, spec.faces[..i])
    {
      assert spec.faces[..i + 1][..i] == spec.faces[..i];
      var face := AddPostcardFace(spec, spec.faces[i]);
      out := out + face;
    }
    assert spec.faces[..|spec.faces|] == spec.faces;
  }

  method AddSelfMailerFace(spec: MailerSpec, f: FaceDef) returns (out: seq<Region>)
    requires spec.dpi > 0
    ensures out == SelfMailerFace(spec, f)
  {
    hide FacePanels, AllPanelRegions, AllPanelZones, FaceRegion;
    var ps := FacePanels(spec, f.name);
    var panels := AddPanelRegions(spec, f.name, ps);
    var zones := AddPanelZones(spec, f.name, ps, f.panelZones);
    out := [FaceRegion(spec, f.name)] + panels + zones;
  }

  /** `_derive_face_zones_self_mailer`. */
  method DeriveFaceZonesSelfMailer(spec: MailerSpec) returns (out: seq<Region>)
    requires spec.dpi > 0 && spec.category != Postcard
    ensures out == FaceZones(spec, spec.faces)
  {
    hide SelfMailerFace;
    out := [];
    for i := 0 to |spec.faces|
      invariant out == FaceZones(spec, spec.faces[..i])
    {
      assert spec.faces[..i + 1][..i] == spec.faces[..i];
      var face := AddSelfMailerFace(spec, spec.faces[i]);
      out := out + face;
    }
    assert spec.faces[..|spec.faces|] == spec.faces;
  }

  method DeriveBarePanels(spec: MailerSpec) returns (out: seq<Region>)
    ensures out == BarePanels(spec, AllPanels(spec))
  {
    hide AllPanels;
    out := [];
    var all := DerivePanels(spec);
    for i := 0 to |all|
      invariant out == BarePanels(spec, all[..i])
    {
      assert all[..i + 1][..i] == all[..i];
      var ps := all[i].1;
      ghost var before := out;
      ghost var mine := seq(|ps|, k requires 0 <= k < |ps| => Derived(ps[k].name, "panel", ps[k].rect, Some(all[i].0)));
      for k := 0 to |ps|
        invariant out == before + mine[..k]
      {
        out := out + [Derived(ps[k].name, "panel", ps[k].rect, Some(all[i].0))];
      }
      assert out == before + mine;
    }
    assert all[..|all|] == all;
  }

  method DeriveRegions(spec: MailerSpec) returns (regions: seq<Region>)
    requires spec.dpi > 0
    ensures regions == Regions(spec)
  {
    hide FaceZones, GlueAndFolds, BarePanels, AllPanels;
    regions := [];
    if spec.category == Postcard && spec.faces != [] {
      regions := DeriveFaceZonesPostcard(spec);
    } else if spec.category == SelfMailer && spec.faces != [] {
      var faces := DeriveFaceZonesSelfMailer(spec);
      var folds := DeriveGlueAndFolds(spec);
      regions := faces + folds;
    } else if spec.category == SelfMailer && spec.folding.Some? {
      var panels := DeriveBarePanels(spec);
      var folds := DeriveGlueAndFolds(spec);
      regions := panels + folds;
    }
  }

  method BindSpecZones(spec: MailerSpec) returns (zones: ZoneMap, regions: seq<Region>)
    requires spec.dpi > 0
    ensures zones == Zones(spec) && regions == Regions(spec)
  {
    hide Regions, LegacyRect, RegionWrites, BaseWrites, Replay;
    ghost var ws: seq<Write> := [];
    ReplayNothing();
    zones := Apply(map[], [], BaseWrites(spec));
    assert [] + BaseWrites(spec) == BaseWrites(spec);
    ws := BaseWrites(spec);
    for i := 0 to |spec.legacyZones|
      invariant ws == BaseWrites(spec) + LegacyWrites(spec, spec.legacyZones[..i]) && zones == Replay(ws)
    {
      assert spec.legacyZones[..i + 1][..i] == spec.legacyZones[..i];
      var rect := LegacyRect(spec.legacyZones[i].1, spec.Canvas(), spec.dpi);
      if rect.Some? {
        ReplayOne(ws, (spec.legacyZones[i].0, rect.value));
        ws := ws + [(spec.legacyZones[i].0, rect.value)];
        zones := zones[spec.legacyZones[i].0 := rect.value];
      }
    }
    assert spec.legacyZones[..|spec.legacyZones|] == spec.legacyZones;
    regions := DeriveRegions(spec);
    ghost var named := ws;
    for i := 0 to |regions|
      invariant ws == named + RegionsWrites(regions[..i]) && zones == Replay(ws)
    {
      assert regions[..i + 1][..i] == regions[..i];
      zones := Apply(zones, ws, RegionWrites(regions[i]));
      ws := ws + RegionWrites(regions[i]);
    }
    assert regions[..|regions|] == regions;
  }

  lemma ReplayNothing()
    ensures Replay([]) == map[]
  {
  }

  // ---------- the map is the last-writer function ----------

  /** Index of the last write under `name`, or -1. */
  function LastIndex(ws: seq<Write>, name: string): (k: int)
    ensures -1 <= k < |ws|
    ensures k >= 0 ==> ws[k].0 == name
    ensures forall j :: k < j < |ws| ==> ws[j].0 != name
  {
    if ws == [] then -1
    else if ws[|ws| - 1].0 == name then |ws| - 1
    else LastIndex(ws[..|ws| - 1], name)
  }

  /** A name is bound exactly when it was written, and to the rectangle written last. */
  lemma {:induction false} LastWriterWins(ws: seq<Write>, name: string)
    ensures var k := LastIndex(ws, name);
            if k < 0 then name !in Replay(ws) else name in Replay(ws) && Replay(ws)[name] == ws[k].1
  {
    if ws != [] && ws[|ws| - 1].0 != name {
      LastWriterWins(ws[..|ws| - 1], name);
    }
  }

  /** Every later write under the name of write `k` carries the same rectangle. */
  ghost predicate Survives(ws: seq<Write>, k: nat)
    requires k < |ws|
  {
    forall j :: k < j < |ws| && ws[j].0 == ws[k].0 ==> ws[j].1 == ws[k].1
  }

  /** Such a write is what its name resolves to. */
  lemma SurvivingWriteResolves(ws: seq<Write>, k: nat)
    requires k < |ws| && Survives(ws, k)
    ensures ws[k].0 in Replay(ws) && Replay(ws)[ws[k].0] == ws[k].1
  {
    LastWriterWins(ws, ws[k].0);
  }

  ghost predicate CollisionFree(ws: seq<Write>) { forall j, k :: 0 <= j < k < |ws| ==> ws[j].0 != ws[k].0 }

  lemma {:induction false} RegionWriteIndex(rs: seq<Region>, i: nat, w: Write) returns (k: nat)
    requires i < |rs| && w in RegionWrites(rs[i])
    ensures k < |RegionsWrites(rs)| && RegionsWrites(rs)[k] == w
  {
    hide RegionWrites;
    var before := RegionsWrites(rs[..|rs| - 1]);
    if i == |rs| - 1 {
      var j :| 0 <= j < |RegionWrites(rs[i])| && RegionWrites(rs[i])[j] == w;
      k := |before| + j;
    } else {
      k := RegionWriteIndex(rs[..|rs| - 1], i, w);
    }
  }

  /** With collision-free names every region name and namespaced alias resolves to its own
      region's rectangle, and every base and legacy name keeps its own. */
  lemma CollisionFreeResolves(spec: MailerSpec, i: nat, w: Write)
    requires spec.dpi > 0 && CollisionFree(Writes(spec))
    requires (i < |Regions(spec)| && w in RegionWrites(Regions(spec)[i]))
             || w in BaseWrites(spec) || w in LegacyWrites(spec, spec.legacyZones)
    ensures w.0 in Zones(spec) && Zones(spec)[w.0] == w.1
  {
    hide Regions, RegionWrites, BaseWrites, LegacyWrites, Replay;
    var ws := Writes(spec);
    var base := BaseWrites(spec) + LegacyWrites(spec, spec.legacyZones);
    var k: nat;
    if i < |Regions(spec)| && w in RegionWrites(Regions(spec)[i]) {
      var m := RegionWriteIndex(Regions(spec), i, w);
      k := |base| + m;
    } else {
      assert w in base;
      k :| 0 <= k < |base| && base[k] == w;
    }
    assert ws[k] == w;
    SurvivingWriteResolves(ws, k);
  }
}
