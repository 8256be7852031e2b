/** Self-mailer panels, fold gutters and glue strips derived from fold metadata. */
module Panels {
  import opened Common
  import opened Geometry
  import opened MailerSpecs

  /** Which way the sheet is split: vertical folds split it along x. */
  datatype Split = AlongX | AlongY

  datatype NamedRect = NamedRect(name: string, rect: Rect)

  datatype Region = Region(
    name: string, kind: string, rect: Rect, face: Option<string>, panel: Option<string>, aliases: seq<string>)

  // ---------- names ----------

  const OUTSIDE := "outside"
  const INSIDE := "inside"

  /** Panel names without their face prefix, when the naming scheme is a known one. */
  function KnownSuffixes(naming: string): Option<seq<string>> {
    if naming == "left_right" then Some(["left_panel", "right_panel"])
    else if naming == "top_bottom" then Some(["top_panel", "bottom_panel"])
    else if naming == "left_middle_right" then Some(["left_panel", "middle_panel", "right_panel"])
    else None
  }

  function NumberedPanel(face: string, i: nat): string { face + ("_panel_" + Numeral(i + 1)) }

  function Numbered(face: string, n: nat): seq<string> { seq(n, i requires 0 <= i < n => NumberedPanel(face, i)) }

  /** `_panel_names`. */
  function SchemeNames(f: Folding, face: string): seq<string> {
    var known := KnownSuffixes(if f.naming == "" then "left_right" else f.naming);
    if known.Some? then seq(|known.value|, i requires 0 <= i < |known.value| => face + ("_" + known.value[i]))
    else Numbered(face, if f.panelCount == 0 then 2 else if f.panelCount < 0 then 0 else f.panelCount)
  }

  /** Scheme names when their number fits, numbered names otherwise. */
  function PanelNames(f: Folding, face: string, count: nat): seq<string> {
    if |SchemeNames(f, face)| != count then Numbered(face, count) else SchemeNames(f, face)
  }

  ghost predicate Distinct<T>(s: seq<T>) { forall i, j :: 0 <= i < j < |s| ==> s[i] != s[j] }

  lemma SameTail(prefix: string, a: string, b: string)
    requires prefix + a == prefix + b
    ensures a == b
  {
    assert (prefix + a)[|prefix|..] == a;
    assert (prefix + b)[|prefix|..] == b;
  }

  lemma NumberedDistinct(face: string, n: nat)
    ensures Distinct(Numbered(face, n))
  {
    forall i, j | 0 <= i < j < n ensures NumberedPanel(face, i) != NumberedPanel(face, j) {
      if NumberedPanel(face, i) == NumberedPanel(face, j) {
        SameTail(face, "_panel_" + Numeral(i + 1), "_panel_" + Numeral(j + 1));
        SameTail("_panel_", Numeral(i + 1), Numeral(j + 1));
        NumeralInjective(i + 1, j + 1);
      }
    }
  }

  lemma KnownDistinct(naming: string)
    requires KnownSuffixes(naming).Some?
    ensures Distinct(KnownSuffixes(naming).value)
  {
    var s := KnownSuffixes(naming).value;
    assert s[0][0] != s[1][0];
    if |s| == 3 {
      assert s[0][0] != s[2][0] && s[1][0] != s[2][0];
    }
  }

  /** Whatever the naming scheme, a face gets exactly one distinct name per panel. */
  lemma PanelNamesDistinct(f: Folding, face: string, count: nat)
    ensures |PanelNames(f, face, count)| == count && Distinct(PanelNames(f, face, count))
  {
    NumberedDistinct(face, count);
    var naming := if f.naming == "" then "left_right" else f.naming;
    var known := KnownSuffixes(naming);
    if |SchemeNames(f, face)| == count {
      if known.Some? {
        KnownDistinct(naming);
        forall i, j | 0 <= i < j < count ensures SchemeNames(f, face)[i] != SchemeNames(f, face)[j] {
          if SchemeNames(f, face)[i] == SchemeNames(f, face)[j] {
            SameTail(face, "_" + known.value[i], "_" + known.value[j]);
            SameTail("_", known.value[i], known.value[j]);
          }
        }
      }
    }
  }

  lemma NameStartsWithFace(f: Folding, face: string, count: nat, i: nat)
    requires i < |PanelNames(f, face, count)|
    ensures face <= PanelNames(f, face, count)[i]
  {
  }

  /** No panel of the outside face shares its name with one of the inside face. */
  lemma FaceNamesApart(f: Folding, m: nat, n: nat, i: nat, j: nat)
    requires i < |PanelNames(f, OUTSIDE, m)| && j < |PanelNames(f, INSIDE, n)|
    ensures PanelNames(f, OUTSIDE, m)[i] != PanelNames(f, INSIDE, n)[j]
  {
    hide PanelNames;
    NameStartsWithFace(f, OUTSIDE, m, i);
    NameStartsWithFace(f, INSIDE, n, j);
    assert PanelNames(f, OUTSIDE, m)[i][0] == 'o' && PanelNames(f, INSIDE, n)[j][0] == 'i';
  }

  // ---------- panel rectangles ----------

  function Axis(spec: MailerSpec): Option<Split> {
    if spec.FoldXs() != [] then Some(AlongX) else if spec.FoldYs() != [] then Some(AlongY) else None
  }

  function Folds(spec: MailerSpec, s: Split): seq<real> { if s == AlongX then spec.FoldXs() else spec.FoldYs() }

  function Extent(spec: MailerSpec, s: Split): real { if s == AlongX then spec.trimW else spec.trimH }

  function Margin(spec: MailerSpec, s: Split): real { if s == AlongX then spec.MarginX() else spec.MarginY() }

  function Boundaries(spec: MailerSpec, s: Split): (b: seq<real>)
    ensures |b| == |Folds(spec, s)| + 2
  {
    SortSorts(Folds(spec, s));
    [0.0] + Sort(Folds(spec, s)) + [Extent(spec, s)]
  }

  /** Panel `i` on the canvas, in pixels. */
  function PanelRect(spec: MailerSpec, s: Split, i: nat): Rect
    requires i <= |Folds(spec, s)|
  {
    var b := Boundaries(spec, s);
    if s == AlongX then ToPixels(b[i + 1] - b[i], spec.trimH, spec.dpi, spec.MarginX() + b[i], spec.MarginY())
    else ToPixels(spec.trimW, b[i + 1] - b[i], spec.dpi, spec.MarginX(), spec.MarginY() + b[i])
  }

  function PanelRects(spec: MailerSpec, s: Split): seq<Rect> {
    seq(|Folds(spec, s)| + 1, i requires 0 <= i <= |Folds(spec, s)| => PanelRect(spec, s, i))
  }

  /** The panels of one face, in order; none without folds. */
  function FacePanels(spec: MailerSpec, face: string): seq<NamedRect> {
    if Axis(spec).None? || (face != OUTSIDE && face != INSIDE) then []
    else
      var s := Axis(spec).value;
      var n := |Folds(spec, s)| + 1;
      PanelNamesDistinct(spec.folding.value, face, n);
      seq(n, i requires 0 <= i < n => NamedRect(PanelNames(spec.folding.value, face, n)[i], PanelRect(spec, s, i)))
  }

  /** `_derive_panels`: the two faces, or nothing when the sheet is not folded. */
  function AllPanels(spec: MailerSpec): seq<(string, seq<NamedRect>)> {
    if Axis(spec).None? then [] else [(OUTSIDE, FacePanels(spec, OUTSIDE)), (INSIDE, FacePanels(spec, INSIDE))]
  }

  method DeriveFace(spec: MailerSpec, face: string) returns (panels: seq<NamedRect>)
    requires Axis(spec).Some? && (face == OUTSIDE || face == INSIDE)
    ensures panels == FacePanels(spec, face)
  {
    hide Px, PanelNames, ToPixels, Sort, MailerSpec.MarginX, MailerSpec.MarginY;
    var s := Axis(spec).value;
    var boundaries := Boundaries(spec, s);
    var names := PanelNames(spec.folding.value, face, |boundaries| - 1);
    PanelNamesDistinct(spec.folding.value, face, |boundaries| - 1);
    panels := [];
    for i := 0 to |names|
      invariant |panels| == i
      invariant forall k :: 0 <= k < i ==> panels[k] == FacePanels(spec, face)[k]
    {
      var at, size := Margin(spec, s) + boundaries[i], boundaries[i + 1] - boundaries[i];
      var rect := if s == AlongX
                  then ToPixels(size, spec.trimH, spec.dpi, at, spec.MarginY())
                  else ToPixels(spec.trimW, size, spec.dpi, spec.MarginX(), at);
      panels := panels + [NamedRect(names[i], rect)];
    }
  }

  method DerivePanels(spec: MailerSpec) returns (out: seq<(string, seq<NamedRect>)>)
    ensures out == AllPanels(spec)
  {
    hide FacePanels;
    out := [];
    if Axis(spec).Some? {
      var faces := [OUTSIDE, INSIDE];
      for f := 0 to |faces|
        invariant out == AllPanels(spec)[..f]
      {
        var panels := DeriveFace(spec, faces[f]);
        out := out + [(faces[f], panels)];
      }
    }
  }

  // ---------- the panels tile the trim ----------

  function Low(r: Rect, s: Split): real { if s == AlongX then r.x else r.y }

  function High(r: Rect, s: Split): real { if s == AlongX then r.Right() else r.Bottom() }

  function Thickness(r: Rect, s: Split): real { if s == AlongX then r.w else r.h }

  /** Pixel position of boundary `i`. */
  function Edge(spec: MailerSpec, s: Split, i: nat): real
    requires i < |Boundaries(spec, s)|
  {
    Px(Margin(spec, s) + Boundaries(spec, s)[i], spec.dpi)
  }

  /** A panel runs from its boundary to the next and spans the trim the other way. */
  lemma PanelSpan(spec: MailerSpec, s: Split, i: nat)
    requires i <= |Folds(spec, s)|
    ensures var r, t := PanelRect(spec, s, i), spec.TrimFrame();
            && Low(r, s) == Edge(spec, s, i) && High(r, s) == Edge(spec, s, i + 1)
            && (s == AlongX ==> r.y == t.y && r.h == t.h)
            && (s == AlongY ==> r.x == t.x && r.w == t.w)
  {
    hide Px, Boundaries;
    var b, m := Boundaries(spec, s), Margin(spec, s);
    PxAdd(m + b[i], b[i + 1] - b[i], spec.dpi);
    assert m + b[i] + (b[i + 1] - b[i]) == m + b[i + 1];
  }

  lemma TrimSpan(spec: MailerSpec, s: Split)
    ensures Low(spec.TrimFrame(), s) == Edge(spec, s, 0)
    ensures High(spec.TrimFrame(), s) == Edge(spec, s, |Folds(spec, s)| + 1)
  {
    hide Px;
    SortSorts(Folds(spec, s));
    PxAdd(Margin(spec, s), Extent(spec, s), spec.dpi);
  }

  predicate FoldsInTrim(spec: MailerSpec, s: Split) {
    forall f :: f in Folds(spec, s) ==> 0.0 <= f <= Extent(spec, s)
  }

  lemma SortedKeepsMembers(s: seq<real>, v: real)
    ensures v in s <==> v in Sort(s)
  {
    SortSorts(s);
    assert v in s <==> v in multiset(s);
    assert v in Sort(s) <==> v in multiset(Sort(s));
  }

  lemma BoundariesAscend(spec: MailerSpec, s: Split)
    requires FoldsInTrim(spec, s) && Extent(spec, s) >= 0.0
    ensures Ascending(Boundaries(spec, s))
  {
    var folds, b := Sort(Folds(spec, s)), Boundaries(spec, s);
    SortSorts(Folds(spec, s));
    forall k | 0 <= k < |folds| ensures 0.0 <= folds[k] <= Extent(spec, s) {
      SortedKeepsMembers(Folds(spec, s), folds[k]);
    }
    forall i, j | 0 <= i < j < |b| ensures b[i] <= b[j] {
      if i > 0 && j < |b| - 1 {
        assert b[i] == folds[i - 1] && b[j] == folds[j - 1];
      }
    }
  }

  lemma EdgesAscend(spec: MailerSpec, s: Split, i: nat, j: nat)
    requires FoldsInTrim(spec, s) && Extent(spec, s) >= 0.0 && spec.dpi > 0
    requires i <= j < |Boundaries(spec, s)|
    ensures Edge(spec, s, i) <= Edge(spec, s, j)
  {
    hide Px, Boundaries;
    BoundariesAscend(spec, s);
    PxOrder(Margin(spec, s) + Boundaries(spec, s)[i], Margin(spec, s) + Boundaries(spec, s)[j], spec.dpi);
  }

  /** Every panel has a non-negative size exactly when every fold lies in the trim. */
  lemma ProperPanelsIffFoldsInTrim(spec: MailerSpec, s: Split)
    requires Extent(spec, s) >= 0.0 && spec.dpi > 0
    ensures (forall i :: 0 <= i <= |Folds(spec, s)| ==> Thickness(PanelRect(spec, s, i), s) >= 0.0)
            <==> FoldsInTrim(spec, s)
  {
    hide Px, Boundaries;
    if FoldsInTrim(spec, s) {
      forall i | 0 <= i <= |Folds(spec, s)| ensures Thickness(PanelRect(spec, s, i), s) >= 0.0 {
        PanelSpan(spec, s, i);
        EdgesAscend(spec, s, i, i + 1);
      }
    }
    if forall i :: 0 <= i <= |Folds(spec, s)| ==> Thickness(PanelRect(spec, s, i), s) >= 0.0 {
      forall f | f in Folds(spec, s) ensures 0.0 <= f <= Extent(spec, s) {
        ProperPanelsBoundFold(spec, s, f);
      }
    }
  }

  lemma ProperStep(spec: MailerSpec, s: Split, i: nat)
    requires i <= |Folds(spec, s)| && spec.dpi > 0 && Thickness(PanelRect(spec, s, i), s) >= 0.0
    ensures Boundaries(spec, s)[i] <= Boundaries(spec, s)[i + 1]
  {
    hide Px;
    var b := Boundaries(spec, s);
    PxAdd(0.0, 0.0, spec.dpi);
    PxOrder(0.0, b[i + 1] - b[i], spec.dpi);
  }

  lemma ProperPanelsBoundFold(spec: MailerSpec, s: Split, f: real)
    requires Extent(spec, s) >= 0.0 && spec.dpi > 0 && f in Folds(spec, s)
    requires forall i :: 0 <= i <= |Folds(spec, s)| ==> Thickness(PanelRect(spec, s, i), s) >= 0.0
    ensures 0.0 <= f <= Extent(spec, s)
  {
    hide PanelRect, Thickness;
    var folds, n := Sort(Folds(spec, s)), |Folds(spec, s)|;
    SortSorts(Folds(spec, s));
    SortedKeepsMembers(Folds(spec, s), f);
    var k :| 0 <= k < n && folds[k] == f;
    ProperStep(spec, s, 0);
    ProperStep(spec, s, n);
    assert folds[0] <= folds[k] <= folds[n - 1];
  }

  /** Neighbouring panels share an edge exactly; the first and last reach the trim's edges. */
  lemma PanelsAbut(spec: MailerSpec, s: Split)
    ensures forall i :: 0 <= i < |Folds(spec, s)| ==>
              High(PanelRect(spec, s, i), s) == Low(PanelRect(spec, s, i + 1), s)
    ensures Low(PanelRect(spec, s, 0), s) == Low(spec.TrimFrame(), s)
    ensures High(PanelRect(spec, s, |Folds(spec, s)|), s) == High(spec.TrimFrame(), s)
  {
    hide PanelRect, Edge, Low, High;
    TrimSpan(spec, s);
    forall i | 0 <= i < |Folds(spec, s)| ensures High(PanelRect(spec, s, i), s) == Low(PanelRect(spec, s, i + 1), s) {
      PanelSpan(spec, s, i);
      PanelSpan(spec, s, i + 1);
    }
    PanelSpan(spec, s, 0);
    PanelSpan(spec, s, |Folds(spec, s)|);
  }

  function TotalThickness(rs: seq<Rect>, s: Split): real {
    if rs == [] then 0.0 else TotalThickness(rs[..|rs| - 1], s) + Thickness(rs[|rs| - 1], s)
  }

  lemma {:induction false} ThicknessTelescopes(spec: MailerSpec, s: Split, n: nat)
    requires n <= |Folds(spec, s)| + 1
    ensures TotalThickness(PanelRects(spec, s)[..n], s) == Edge(spec, s, n) - Edge(spec, s, 0)
  {
    hide Edge, PanelRect;
    if n > 0 {
      ThicknessTelescopes(spec, s, n - 1);
      PanelSpan(spec, s, n - 1);
      assert PanelRects(spec, s)[..n][..n - 1] == PanelRects(spec, s)[..n - 1];
      assert PanelRects(spec, s)[..n][n - 1] == PanelRect(spec, s, n - 1);
      ThicknessIsSpan(PanelRect(spec, s, n - 1), s);
    }
  }

  lemma ThicknessIsSpan(r: Rect, s: Split)
    ensures Thickness(r, s) == High(r, s) - Low(r, s)
  {
  }

  /** The panel sizes add up to the trim. */
  lemma PanelsSumToTrim(spec: MailerSpec, s: Split)
    ensures TotalThickness(PanelRects(spec, s), s) == Thickness(spec.TrimFrame(), s)
  {
    hide Edge, PanelRect;
    var n := |Folds(spec, s)| + 1;
    ThicknessTelescopes(spec, s, n);
    assert PanelRects(spec, s)[..n] == PanelRects(spec, s);
    TrimSpan(spec, s);
    ThicknessIsSpan(spec.TrimFrame(), s);
  }

  /** Of ascending edges, some consecutive pair brackets any value between the ends. */
  lemma {:induction false} SomeStrip(spec: MailerSpec, s: Split, v: real, n: nat) returns (i: nat)
    requires 1 <= n < |Boundaries(spec, s)| && Edge(spec, s, 0) <= v <= Edge(spec, s, n)
    ensures i < n && Edge(spec, s, i) <= v <= Edge(spec, s, i + 1)
  {
    if n == 1 || Edge(spec, s, n - 1) <= v {
      i := n - 1;
    } else {
      i := SomeStrip(spec, s, v, n - 1);
    }
  }

  /** The panels cover the trim and nothing else. */
  lemma PanelsCoverTrim(spec: MailerSpec, s: Split, px: real, py: real)
    requires FoldsInTrim(spec, s) && Extent(spec, s) >= 0.0 && spec.dpi > 0
    ensures Covers(spec.TrimFrame(), px, py) <==>
            exists i :: 0 <= i <= |Folds(spec, s)| && Covers(PanelRect(spec, s, i), px, py)
  {
    hide Edge, PanelRect, Boundaries;
    TrimSpan(spec, s);
    var n := |Folds(spec, s)| + 1;
    if Covers(spec.TrimFrame(), px, py) {
      var i := SomeStrip(spec, s, if s == AlongX then px else py, n);
      PanelSpan(spec, s, i);
      assert Covers(PanelRect(spec, s, i), px, py);
    }
    forall i | 0 <= i <= |Folds(spec, s)| && Covers(PanelRect(spec, s, i), px, py)
      ensures Covers(spec.TrimFrame(), px, py)
    {
      PanelSpan(spec, s, i);
      EdgesAscend(spec, s, 0, i);
      EdgesAscend(spec, s, i + 1, n);
    }
  }

  /** No point is strictly inside two panels. */
  lemma PanelsDisjoint(spec: MailerSpec, s: Split, i: nat, j: nat, px: real, py: real)
    requires FoldsInTrim(spec, s) && Extent(spec, s) >= 0.0 && spec.dpi > 0
    requires i < j <= |Folds(spec, s)|
    ensures !(Interior(PanelRect(spec, s, i), px, py) && Interior(PanelRect(spec, s, j), px, py))
  {
    hide Edge, PanelRect, Boundaries;
    PanelSpan(spec, s, i);
    PanelSpan(spec, s, j);
    EdgesAscend(spec, s, i + 1, j);
  }

  /** Each panel lies in the trim. */
  lemma PanelInTrim(spec: MailerSpec, s: Split, i: nat)
    requires FoldsInTrim(spec, s) && Extent(spec, s) >= 0.0 && spec.dpi > 0 && i <= |Folds(spec, s)|
    ensures Within(PanelRect(spec, s, i), spec.TrimFrame())
  {
    hide Edge, PanelRect, Boundaries;
    TrimSpan(spec, s);
    PanelSpan(spec, s, i);
    EdgesAscend(spec, s, 0, i);
    EdgesAscend(spec, s, i + 1, |Folds(spec, s)| + 1);
  }

  /** Both faces carry the same rectangles, one per fold plus one, under distinct names. */
  lemma FacesShareRectangles(spec: MailerSpec)
    requires Axis(spec).Some?
    ensures var o, i := FacePanels(spec, OUTSIDE), FacePanels(spec, INSIDE);
            && |o| == |i| == |Folds(spec, Axis(spec).value)| + 1
            && (forall k :: 0 <= k < |o| ==> o[k].rect == i[k].rect == PanelRect(spec, Axis(spec).value, k))
            && Distinct(seq(|o|, k requires 0 <= k < |o| => o[k].name))
            && Distinct(seq(|i|, k requires 0 <= k < |i| => i[k].name))
  {
    var n := |Folds(spec, Axis(spec).value)| + 1;
    PanelNamesDistinct(spec.folding.value, OUTSIDE, n);
    PanelNamesDistinct(spec.folding.value, INSIDE, n);
  }
}
