/** The constraint language scaffolds are written in, and its reference check. */
module Dsl {
  import opened Common

  datatype Strength = Required | Strong | Medium | Weak
  datatype HAlign = Left | HCenter | Right
  datatype VAlign = Top | VMiddle | Bottom
  datatype Anchor =
    | TopLeft | TopCenter | TopRight
    | MiddleLeft | Center | MiddleRight
    | BottomLeft | BottomCenter | BottomRight
  datatype Axis = AxisX | AxisY | AxisBoth
  datatype Face = Front | Back | Outside | Inner

  datatype Constraint =
    | Inside(strength: Strength, element: string, zone: string)
    | VerticalGap(strength: Strength, above: string, below: string, min: real, preferred: Option<real>)
    | HorizontalGap(strength: Strength, left: string, right: string, min: real, preferred: Option<real>)
    | MinSize(strength: Strength, element: string, minWidth: Option<real>, minHeight: Option<real>)
    | MaxSize(strength: Strength, element: string, maxWidth: Option<real>, maxHeight: Option<real>)
    | MaxWidthPercent(strength: Strength, element: string, zone: string, percent: real)
    | MaxHeightPercent(strength: Strength, element: string, zone: string, percent: real)
    | HorizontalAlign(strength: Strength, element: string, halign: HAlign, reference: string)
    | VerticalAlign(strength: Strength, element: string, valign: VAlign, reference: string)
    | AnchorTo(strength: Strength, element: string, position: Anchor, reference: string, margin: real)
    | SizeRatio(strength: Strength, larger: string, smaller: string, minRatio: real)
    | NoOverlap(strength: Strength, elements: seq<string>)
    | NoOverlapWithZone(strength: Strength, element: string, zone: string)
    | ColorContrast(strength: Strength, foreground: string, background: string, minRatio: real)
    | GridAlign(strength: Strength, element: string, grid: real, axis: Axis)
  {
    /** Handled by the linear phase; every other form is a post-solve validator. */
    predicate Linear() {
      !(NoOverlap? || NoOverlapWithZone? || ColorContrast? || GridAlign?)
    }

    /** What the field validators of the constraint models let through. */
    predicate WellFormed() {
      match this
      case MaxWidthPercent(_, _, _, percent) => 0.0 < percent <= 100.0
      case MaxHeightPercent(_, _, _, percent) => 0.0 < percent <= 100.0
      case SizeRatio(_, larger, smaller, minRatio) => Accessor(larger) && Accessor(smaller) && minRatio > 0.0
      case NoOverlap(_, elements) => |elements| >= 2
      case ColorContrast(_, _, _, minRatio) => minRatio > 0.0
      case GridAlign(_, _, grid, _) => grid > 0.0
      case _ => true
    }
  }

  datatype Spec = Spec(elements: seq<string>, zones: seq<string>, constraints: seq<Constraint>, face: Option<Face>) {
    predicate WellFormed() {
      && |elements| >= 1
      && (forall i, j :: 0 <= i < j < |elements| ==> elements[i] != elements[j])
      && (forall i :: 0 <= i < |constraints| ==> constraints[i].WellFormed())
    }

    function ElementSet(): set<string> { set e | e in elements }

    function ZoneSet(): set<string> { set z | z in zones }
  }

  // ---------- dotted accessors ----------

  /** Index of the first dot from `i` on, or the length when there is none. */
  function FirstDot(s: string, i: nat := 0): (k: nat)
    requires i <= |s|
    ensures i <= k <= |s|
    ensures forall j :: i <= j < k ==> s[j] != '.'
    ensures k < |s| ==> s[k] == '.'
    decreases |s| - i
  {
    if i == |s| || s[i] == '.' then i else FirstDot(s, i + 1)
  }

  /** Index of the last dot before `n`. */
  function LastDot(s: string, n: nat): (k: nat)
    requires n <= |s| && '.' in s[..n]
    ensures k < n && s[k] == '.'
    ensures forall j :: k < j < n ==> s[j] != '.'
  {
    if s[n - 1] == '.' then n - 1
    else
      assert s[..n] == s[..n - 1] + [s[n - 1]];
      LastDot(s, n - 1)
  }

  /** `s.split(".", 1)[0]`: what the reference check takes for the element name. */
  function Head(s: string): string { s[..FirstDot(s)] }

  /** `s.rsplit(".", 1)`: what the solver takes for the element name and the property. */
  function Stem(s: string): string
    requires '.' in s
  {
    s[..LastDot(s, |s|)]
  }

  function Property(s: string): string
    requires '.' in s
  {
    s[LastDot(s, |s|) + 1..]
  }

  predicate Accessor(s: string) { '.' in s && Property(s) in {"width", "height"} }

  predicate SingleDot(s: string) {
    forall i, j :: 0 <= i < j < |s| ==> s[i] != '.' || s[j] != '.'
  }

  /** The two splits name the same element exactly when the accessor holds one dot. */
  lemma SplitsAgree(s: string)
    requires '.' in s
    ensures Head(s) == Stem(s) <==> SingleDot(s)
  {
    var f, l := FirstDot(s), LastDot(s, |s|);
    assert f < |s|;
    if Head(s) == Stem(s) {
      assert |Head(s)| == f && |Stem(s)| == l;
    }
    if SingleDot(s) {
      assert f == l;
    }
  }

  // ---------- references ----------

  function ElementRefs(c: Constraint): seq<string> {
    match c
    case VerticalGap(_, above, below, _, _) => [above, below]
    case HorizontalGap(_, left, right, _, _) => [left, right]
    case SizeRatio(_, larger, smaller, _) => [Head(larger), Head(smaller)]
    case NoOverlap(_, elements) => elements
    case ColorContrast(_, foreground, background, _) => [Head(foreground), Head(background)]
    case _ => [c.element]
  }

  function ZoneRefs(c: Constraint): seq<string> {
    match c
    case Inside(_, _, zone) => [zone]
    case MaxWidthPercent(_, _, zone, _) => [zone]
    case MaxHeightPercent(_, _, zone, _) => [zone]
    case NoOverlapWithZone(_, _, zone) => [zone]
    case AnchorTo(_, _, _, reference, _) => [reference]
    case HorizontalAlign(_, _, _, reference) => [reference]
    case VerticalAlign(_, _, _, reference) => [reference]
    case _ => []
  }

  const FACE_AGNOSTIC_ZONES: set<string> := {"safe_zone", "canvas", "trim"}

  function Prefix(f: Face): string {
    match f
    case Front => "front_"
    case Back => "back_"
    case Outside => "outside_"
    case Inner => "inside_"
  }

  predicate BelongsTo(zone: string, f: Face) { zone in FACE_AGNOSTIC_ZONES || Prefix(f) <= zone }

  datatype RefError =
    | UnknownElement(index: nat, name: string)
    | UnknownZone(index: nat, name: string)
    | WrongFace(index: nat, name: string)

  /** Every reference names a declared element or zone, and the zones suit the declared face. */
  ghost predicate ReferencesResolve(spec: Spec) {
    forall i :: 0 <= i < |spec.constraints| ==>
      && (forall n :: n in ElementRefs(spec.constraints[i]) ==> n in spec.elements)
      && (forall n :: n in ZoneRefs(spec.constraints[i]) ==>
            n in spec.zones && (spec.face.Some? ==> BelongsTo(n, spec.face.value)))
  }

  /** `e` reports a reference that constraint `e.index` really makes and that does not resolve. */
  ghost predicate Justified(spec: Spec, e: RefError) {
    && e.index < |spec.constraints|
    && match e
       case UnknownElement(i, n) => n in ElementRefs(spec.constraints[i]) && n !in spec.elements
       case UnknownZone(i, n) => n in ZoneRefs(spec.constraints[i]) && n !in spec.zones
       case WrongFace(i, n) =>
         n in ZoneRefs(spec.constraints[i]) && spec.face.Some? && !BelongsTo(n, spec.face.value)
  }

  function UnknownElements(i: nat, names: seq<string>, known: set<string>): seq<RefError> {
    if names == [] then []
    else UnknownElements(i, names[..|names| - 1], known)
         + (if names[|names| - 1] in known then [] else [UnknownElement(i, names[|names| - 1])])
  }

  function UnknownZones(i: nat, names: seq<string>, known: set<string>): seq<RefError> {
    if names == [] then []
    else UnknownZones(i, names[..|names| - 1], known)
         + (if names[|names| - 1] in known then [] else [UnknownZone(i, names[|names| - 1])])
  }

  function WrongFaces(i: nat, names: seq<string>, f: Face): seq<RefError> {
    if names == [] then []
    else WrongFaces(i, names[..|names| - 1], f)
         + (if BelongsTo(names[|names| - 1], f) then [] else [WrongFace(i, names[|names| - 1])])
  }

  /** Unknown names of the first `n` constraints, in order: elements before zones. */
  function Unknowns(spec: Spec, n: nat): seq<RefError>
    requires n <= |spec.constraints|
  {
    if n == 0 then []
    else
      var c := spec.constraints[n - 1];
      Unknowns(spec, n - 1)
      + UnknownElements(n - 1, ElementRefs(c), spec.ElementSet())
      + UnknownZones(n - 1, ZoneRefs(c), spec.ZoneSet())
  }

  function FaceErrors(spec: Spec, f: Face, n: nat): seq<RefError>
    requires n <= |spec.constraints|
  {
    if n == 0 then [] else FaceErrors(spec, f, n - 1) + WrongFaces(n - 1, ZoneRefs(spec.constraints[n - 1]), f)
  }

  /** The error list of `validate_references`. */
  function RefErrors(spec: Spec): seq<RefError> {
    Unknowns(spec, |spec.constraints|)
    + (if spec.face.Some? then FaceErrors(spec, spec.face.value, |spec.constraints|) else [])
  }

  method AddUnknownElements(errs: seq<RefError>, i: nat, refs: seq<string>, known: set<string>)
    returns (out: seq<RefError>)
    ensures out == errs + UnknownElements(i, refs, known)
  {
    out := errs;
    for k := 0 to |refs|
      invariant out == errs + UnknownElements(i, refs[..k], known)
    {
      assert refs[..k + 1][..k] == refs[..k];
      if refs[k] !in known {
        out := out + [UnknownElement(i, refs[k])];
      }
    }
    assert refs[..|refs|] == refs;
  }

  method AddUnknownZones(errs: seq<RefError>, i: nat, refs: seq<string>, known: set<string>)
    returns (out: seq<RefError>)
    ensures out == errs + UnknownZones(i, refs, known)
  {
    out := errs;
    for k := 0 to |refs|
      invariant out == errs + UnknownZones(i, refs[..k], known)
    {
      assert refs[..k + 1][..k] == refs[..k];
      if refs[k] !in known {
        out := out + [UnknownZone(i, refs[k])];
      }
    }
    assert refs[..|refs|] == refs;
  }

  method AddWrongFaces(errs: seq<RefError>, i: nat, refs: seq<string>, f: Face) returns (out: seq<RefError>)
    ensures out == errs + WrongFaces(i, refs, f)
  {
    out := errs;
    for k := 0 to |refs|
      invariant out == errs + WrongFaces(i, refs[..k], f)
    {
      assert refs[..k + 1][..k] == refs[..k];
      if !BelongsTo(refs[k], f) {
        out := out + [WrongFace(i, refs[k])];
      }
    }
    assert refs[..|refs|] == refs;
  }

  method ValidateReferences(spec: Spec) returns (errs: seq<RefError>)
    ensures errs == RefErrors(spec)
  {
    hide ZoneRefs, ElementRefs, BelongsTo;
    errs := [];
    var elemSet, zoneSet := spec.ElementSet(), spec.ZoneSet();
    for idx := 0 to |spec.constraints|
      invariant errs == Unknowns(spec, idx)
    {
      errs := AddUnknownElements(errs, idx, ElementRefs(spec.constraints[idx]), elemSet);
      errs := AddUnknownZones(errs, idx, ZoneRefs(spec.constraints[idx]), zoneSet);
    }
    if spec.face.Some? {
      ghost var unknowns := errs;
      for idx := 0 to |spec.constraints|
        invariant errs == unknowns + FaceErrors(spec, spec.face.value, idx)
      {
        errs := AddWrongFaces(errs, idx, ZoneRefs(spec.constraints[idx]), spec.face.value);
      }
    }
  }

  lemma {:induction false} UnknownElementsExact(i: nat, names: seq<string>, known: set<string>, e: RefError)
    ensures e in UnknownElements(i, names, known) <==>
            e.UnknownElement? && e.index == i && e.name in names && e.name !in known
  {
    if names != [] {
      UnknownElementsExact(i, names[..|names| - 1], known, e);
      assert names == names[..|names| - 1] + [names[|names| - 1]];
    }
  }

  lemma {:induction false} UnknownZonesExact(i: nat, names: seq<string>, known: set<string>, e: RefError)
    ensures e in UnknownZones(i, names, known) <==>
            e.UnknownZone? && e.index == i && e.name in names && e.name !in known
  {
    if names != [] {
      UnknownZonesExact(i, names[..|names| - 1], known, e);
      assert names == names[..|names| - 1] + [names[|names| - 1]];
    }
  }

  lemma {:induction false} WrongFacesExact(i: nat, names: seq<string>, f: Face, e: RefError)
    ensures e in WrongFaces(i, names, f) <==>
            e.WrongFace? && e.index == i && e.name in names && !BelongsTo(e.name, f)
  {
    if names != [] {
      WrongFacesExact(i, names[..|names| - 1], f, e);
      assert names == names[..|names| - 1] + [names[|names| - 1]];
    }
  }

  lemma {:induction false} UnknownsExact(spec: Spec, n: nat, e: RefError)
    requires n <= |spec.constraints|
    ensures e in Unknowns(spec, n) <==> e.index < n && !e.WrongFace? && Justified(spec, e)
  {
    hide ElementRefs, ZoneRefs, BelongsTo, UnknownElements, UnknownZones;
    if n > 0 {
      UnknownsExact(spec, n - 1, e);
      UnknownElementsExact(n - 1, ElementRefs(spec.constraints[n - 1]), spec.ElementSet(), e);
      UnknownZonesExact(n - 1, ZoneRefs(spec.constraints[n - 1]), spec.ZoneSet(), e);
    }
  }

  lemma {:induction false} FaceErrorsExact(spec: Spec, f: Face, n: nat, e: RefError)
    requires n <= |spec.constraints|
    ensures e in FaceErrors(spec, f, n) <==>
            e.WrongFace? && e.index < n && e.name in ZoneRefs(spec.constraints[e.index]) && !BelongsTo(e.name, f)
  {
    hide ZoneRefs, BelongsTo, WrongFaces;
    if n > 0 {
      FaceErrorsExact(spec, f, n - 1, e);
      WrongFacesExact(n - 1, ZoneRefs(spec.constraints[n - 1]), f, e);
    }
  }

  /** The error list reports exactly the references that do not resolve. */
  lemma ErrorsAreExact(spec: Spec, e: RefError)
    ensures e in RefErrors(spec) <==> Justified(spec, e)
  {
    UnknownsExact(spec, |spec.constraints|, e);
    if spec.face.Some? {
      FaceErrorsExact(spec, spec.face.value, |spec.constraints|, e);
    }
  }

  /** An empty error list means, and is implied by, every reference resolving. */
  lemma NoErrorsMeansResolved(spec: Spec)
    ensures RefErrors(spec) == [] <==> ReferencesResolve(spec)
  {
    hide ZoneRefs, ElementRefs, BelongsTo, RefErrors;
    if RefErrors(spec) == [] {
      forall i, n | 0 <= i < |spec.constraints| && n in ElementRefs(spec.constraints[i])
        ensures n in spec.elements
      {
        ErrorsAreExact(spec, UnknownElement(i, n));
      }
      forall i, n | 0 <= i < |spec.constraints| && n in ZoneRefs(spec.constraints[i])
        ensures n in spec.zones && (spec.face.Some? ==> BelongsTo(n, spec.face.value))
      {
        ErrorsAreExact(spec, UnknownZone(i, n));
        ErrorsAreExact(spec, WrongFace(i, n));
      }
    } else {
      ErrorsAreExact(spec, RefErrors(spec)[0]);
    }
  }
}
