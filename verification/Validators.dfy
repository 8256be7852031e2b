/** The post-solve checks: overlap, zone overlap, colour contrast and grid alignment. */
module Validators {
  import opened Common
  import opened Geometry
  import D = Dsl

  // ---------- grid ----------

  function Truncate(q: real): int { if q >= 0.0 then q.Floor else -(-q).Floor }

  /** C's fmod: the remainder takes the sign of `v`. */
  function Fmod(v: real, grid: real): real
    requires grid > 0.0
  {
    v - Truncate(v / grid) as real * grid
  }

  const GRID_EPS := 0.5

  predicate OnGrid(v: real, grid: real)
    requires grid > 0.0
  {
    var rem := Fmod(v, grid);
    rem <= GRID_EPS || grid - rem <= GRID_EPS
  }

  function Line(k: int, grid: real): real { k as real * grid }

  predicate NearLine(v: real, grid: real, k: int) { Close(v, Line(k, grid), GRID_EPS) }

  /** A non-negative coordinate lies between two neighbouring grid lines, and fmod is its
      distance from the lower one. */
  lemma BetweenLines(v: real, grid: real)
    requires grid > 0.0 && v >= 0.0
    ensures var n := (v / grid).Floor;
            Line(n, grid) <= v < Line(n + 1, grid) && Line(n + 1, grid) == Line(n, grid) + grid
            && Fmod(v, grid) == v - Line(n, grid)
  {
    var q := v / grid;
    var n := q.Floor;
    assert q * grid == v;
    assert q >= 0.0;
    NextLine(n, grid);
    LineAbove(n + 1, q, grid);
    Scaled(n as real, q, grid);
  }

  lemma LineAbove(k: int, q: real, grid: real)
    requires grid > 0.0 && q < k as real
    ensures q * grid < Line(k, grid)
  {
    Scaled(q, k as real, grid);
  }

  lemma NextLine(n: int, grid: real)
    ensures Line(n + 1, grid) == Line(n, grid) + grid
  {
    var r := n as real;
    assert (n + 1) as real == r + 1.0;
    assert (r + 1.0) * grid == r * grid + grid;
  }

  lemma NegativeRemainder(v: real, grid: real)
    requires grid > 0.0 && v < 0.0
    ensures Fmod(v, grid) <= 0.0
  {
    var q := v / grid;
    assert q * grid == v;
    if q >= 0.0 {
      Scaled(0.0, q, grid);
    } else {
      Scaled((-q).Floor as real, -q, grid);
      assert Truncate(q) == -((-q).Floor);
      assert Fmod(v, grid) == v + (-q).Floor as real * grid;
    }
  }

  lemma LinesAreOrdered(j: int, k: int, grid: real)
    requires grid > 0.0 && j <= k
    ensures Line(j, grid) <= Line(k, grid)
  {
    Scaled(j as real, k as real, grid);
  }

  /** The test is exact for non-negative coordinates: some grid line is within half a pixel.
      A negative coordinate always passes, because fmod is then not positive. */
  lemma OnGridExact(v: real, grid: real)
    requires grid > 0.0
    ensures OnGrid(v, grid) <==> v < 0.0 || exists k :: NearLine(v, grid, k)
  {
    hide Fmod, Line;
    if v < 0.0 {
      NegativeRemainder(v, grid);
    } else {
      BetweenLines(v, grid);
      var n := (v / grid).Floor;
      if OnGrid(v, grid) {
        assert NearLine(v, grid, n) || NearLine(v, grid, n + 1);
      }
      forall k | NearLine(v, grid, k) ensures OnGrid(v, grid) {
        if k <= n {
          LinesAreOrdered(k, n, grid);
        } else {
          LinesAreOrdered(n + 1, k, grid);
        }
      }
    }
  }

  // ---------- colour ----------

  datatype Json = Obj(fields: map<string, Json>) | Text(value: string) | Other

  function Split(path: string): seq<string>
    decreases |path|
  {
    var k := D.FirstDot(path);
    if k == |path| then [path] else [path[..k]] + Split(path[k + 1..])
  }

  /** Walk dotted path segments into the content; None when a segment is missing. */
  function Resolve(content: Json, parts: seq<string>): Option<Json> {
    if parts == [] then Some(content)
    else if content.Obj? && parts[0] in content.fields then Resolve(content.fields[parts[0]], parts[1..])
    else None
  }

  type Luminance = l: real | 0.0 <= l <= 1.0

  /** Relative luminance of a parsed hex colour; None when it does not parse. */
  type Palette = string -> Option<Luminance>

  function Ratio(lighter: real, darker: real): real
    requires darker >= 0.0
  {
    (lighter + 0.05) / (darker + 0.05)
  }

  function ContrastRatio(a: Luminance, b: Luminance): real {
    if a >= b then Ratio(a, b) else Ratio(b, a)
  }

  /** The first colour is at least `m` times as bright as the second, glare included. */
  predicate Outshines(p: Luminance, q: Luminance, m: real) { p + 0.05 >= m * (q + 0.05) }

  /** A contrast of at least `m` means one of the two colours outshines the other by `m`. */
  lemma ContrastMeaning(a: Luminance, b: Luminance, m: real)
    requires m > 0.0
    ensures ContrastRatio(a, b) >= m <==> Outshines(a, b, m) || Outshines(b, a, m)
  {
    if a >= b {
      BrighterDecides(a, b, m);
    } else {
      BrighterDecides(b, a, m);
    }
  }

  lemma BrighterDecides(p: Luminance, q: Luminance, m: real)
    requires m > 0.0 && p >= q
    ensures Ratio(p, q) >= m <==> Outshines(p, q, m)
    ensures Outshines(q, p, m) ==> Outshines(p, q, m)
  {
    hide Outshines;
    QuotientCompares(p + 0.05, q + 0.05, m);
    RatioOutshines(p, q, m);
    if Outshines(q, p, m) {
      DarkerRarely(p, q, m);
    }
  }

  lemma RatioOutshines(p: Luminance, q: Luminance, m: real)
    ensures Outshines(p, q, m) <==> !(p + 0.05 < m * (q + 0.05))
  {
  }

  lemma DarkerRarely(p: Luminance, q: Luminance, m: real)
    requires m > 0.0 && p >= q && Outshines(q, p, m)
    ensures Outshines(p, q, m)
  {
    Scaled(q + 0.05, p + 0.05, m);
  }

  /** The ratio does not depend on the order, lies between 1 and 21, and is 1 exactly for equal
      luminance. */
  lemma ContrastRange(a: Luminance, b: Luminance)
    ensures ContrastRatio(a, b) == ContrastRatio(b, a)
    ensures 1.0 <= ContrastRatio(a, b) <= 21.0
    ensures ContrastRatio(a, b) == 1.0 <==> a == b
  {
    var p, q := if a >= b then a else b, if a >= b then b else a;
    QuotientCompares(p + 0.05, q + 0.05, 1.0);
    QuotientCompares(p + 0.05, q + 0.05, 21.0);
  }

  // ---------- conflicts ----------

  datatype Phase = Prevalidate | LinearPhase | ValidatorPhase

  datatype Problem =
    | BadReference(error: D.RefError)
    | Unsatisfiable
    | BadTerm
    | PairOverlaps(a: string, b: string)
    | ZoneOverlaps(element: string, zone: string)
    | ColorsUnresolved
    | ColorInvalid
    | LowContrast(ratio: real)
    | OffGridX(x: real)
    | OffGridY(y: real)

  datatype Conflict = Conflict(index: int, phase: Phase, problem: Problem)

  type Positions = map<string, Rect>

  function Report(idx: int, problem: Problem): Conflict { Conflict(idx, ValidatorPhase, problem) }

  /** The elements a validator looks up have positions (the reference check guarantees it). */
  predicate Placed(c: D.Constraint, positions: Positions) {
    match c
    case NoOverlap(_, elements) => forall i :: 0 <= i < |elements| ==> elements[i] in positions
    case NoOverlapWithZone(_, element, _) => element in positions
    case GridAlign(_, element, _, _) => element in positions
    case _ => true
  }

  predicate PairClash(els: seq<string>, positions: Positions, i: int, j: int)
    requires forall k :: 0 <= k < |els| ==> els[k] in positions
  {
    0 <= i < j < |els| && Overlap(positions[els[i]], positions[els[j]])
  }

  /** Overlapping index pairs of row `i` with second index below `j`. */
  function RowPairs(els: seq<string>, positions: Positions, i: nat, j: nat): seq<(nat, nat)>
    requires forall k :: 0 <= k < |els| ==> els[k] in positions
    requires i < j <= |els|
    decreases j
  {
    if j == i + 1 then []
    else RowPairs(els, positions, i, j - 1) + (if PairClash(els, positions, i, j - 1) then [(i, j - 1)] else [])
  }

  /** Overlapping index pairs of the first `n` rows, in the order they are visited. */
  function OverlapPairs(els: seq<string>, positions: Positions, n: nat): seq<(nat, nat)>
    requires forall k :: 0 <= k < |els| ==> els[k] in positions
    requires n <= |els|
  {
    if n == 0 then [] else OverlapPairs(els, positions, n - 1) + RowPairs(els, positions, n - 1, |els|)
  }

  function PairReports(idx: int, els: seq<string>, pairs: seq<(nat, nat)>): seq<Conflict>
    requires InRange(els, pairs)
  {
    seq(|pairs|, k requires 0 <= k < |pairs| => Report(idx, PairOverlaps(els[pairs[k].0], els[pairs[k].1])))
  }

  predicate InRange(els: seq<string>, pairs: seq<(nat, nat)>) {
    forall p :: p in pairs ==> p.0 < |els| && p.1 < |els|
  }

  lemma PairReportsSnoc(idx: int, els: seq<string>, pairs: seq<(nat, nat)>, i: nat, j: nat)
    requires InRange(els, pairs) && i < |els| && j < |els|
    ensures InRange(els, pairs + [(i, j)])
    ensures PairReports(idx, els, pairs + [(i, j)]) ==
            PairReports(idx, els, pairs) + [Report(idx, PairOverlaps(els[i], els[j]))]
  {
  }

  predicate Before(p: (nat, nat), q: (nat, nat)) { p.0 < q.0 || (p.0 == q.0 && p.1 < q.1) }

  ghost predicate Ascending(pairs: seq<(nat, nat)>) {
    forall k, l :: 0 <= k < l < |pairs| ==> Before(pairs[k], pairs[l])
  }

  /** Exactly the clashing pairs of row `i` with second index below `j`. */
  ghost predicate RowListed(els: seq<string>, positions: Positions, i: nat, j: nat, ps: seq<(nat, nat)>)
    requires forall k :: 0 <= k < |els| ==> els[k] in positions
  {
    forall p :: p in ps <==> p.0 == i && p.1 < j && PairClash(els, positions, i, p.1)
  }

  lemma RowListedSnoc(els: seq<string>, positions: Positions, i: nat, j: nat, ps: seq<(nat, nat)>)
    requires forall k :: 0 <= k < |els| ==> els[k] in positions
    requires i < j < |els| && RowListed(els, positions, i, j, ps)
    ensures RowListed(els, positions, i, j + 1, ps + (if PairClash(els, positions, i, j) then [(i, j)] else []))
  {
    hide PairClash;
  }

  lemma NothingListed(els: seq<string>, positions: Positions, i: nat)
    requires forall k :: 0 <= k < |els| ==> els[k] in positions
    ensures RowListed(els, positions, i, i + 1, [])
  {
    hide Overlap;
  }

  lemma {:induction false} RowPairsExact(els: seq<string>, positions: Positions, i: nat, j: nat)
    requires forall k :: 0 <= k < |els| ==> els[k] in positions
    requires i < j <= |els|
    ensures var ps := RowPairs(els, positions, i, j); Ascending(ps) && RowListed(els, positions, i, j, ps)
    decreases j
  {
    hide PairClash, Ascending, RowListed;
    if j == i + 1 {
      NoPairsAscend();
      NothingListed(els, positions, i);
    } else {
      RowPairsExact(els, positions, i, j - 1);
      var ps := RowPairs(els, positions, i, j - 1);
      RowListedSnoc(els, positions, i, j - 1, ps);
      RowsPrecede(els, positions, i, j - 1, ps);
      AscendingSnoc(ps, (i, j - 1));
      assert ps + [] == ps;
    }
  }

  lemma RowsPrecede(els: seq<string>, positions: Positions, i: nat, j: nat, ps: seq<(nat, nat)>)
    requires forall k :: 0 <= k < |els| ==> els[k] in positions
    requires RowListed(els, positions, i, j, ps)
    ensures forall p :: p in ps ==> Before(p, (i, j))
  {
    hide PairClash;
  }

  lemma NoPairsAscend()
    ensures Ascending([])
  {
  }

  lemma AscendingSnoc(ps: seq<(nat, nat)>, q: (nat, nat))
    requires Ascending(ps) && forall p :: p in ps ==> Before(p, q)
    ensures Ascending(ps + [q])
  {
    forall k, l | 0 <= k < l < |ps + [q]| ensures Before((ps + [q])[k], (ps + [q])[l]) {
      assert k < |ps| ==> ps[k] in ps;
    }
  }

  lemma AscendingConcat(above: seq<(nat, nat)>, row: seq<(nat, nat)>, i: nat)
    requires Ascending(above) && Ascending(row)
    requires (forall p :: p in above ==> p.0 < i) && (forall p :: p in row ==> p.0 == i)
    ensures Ascending(above + row)
  {
    forall k, l | 0 <= k < l < |above + row| ensures Before((above + row)[k], (above + row)[l]) {
      if k < |above| <= l {
        assert above[k] in above && row[l - |above|] in row;
      }
    }
  }

  /** no_overlap looks at every index pair once and reports exactly the overlapping ones. */
  lemma {:induction false} OverlapPairsExact(els: seq<string>, positions: Positions, n: nat)
    requires forall k :: 0 <= k < |els| ==> els[k] in positions
    requires n <= |els|
    ensures var ps := OverlapPairs(els, positions, n);
            Ascending(ps) && forall p :: p in ps <==> p.0 < n && PairClash(els, positions, p.0, p.1)
  {
    hide Overlap, RowPairs;
    if n > 0 {
      OverlapPairsExact(els, positions, n - 1);
      RowPairsExact(els, positions, n - 1, |els|);
      assert forall p :: p in OverlapPairs(els, positions, n) <==>
        p in OverlapPairs(els, positions, n - 1) || p in RowPairs(els, positions, n - 1, |els|);
      AscendingConcat(OverlapPairs(els, positions, n - 1), RowPairs(els, positions, n - 1, |els|), n - 1);
    }
  }

  function OverlapReports(idx: int, els: seq<string>, positions: Positions): seq<Conflict>
    requires forall k :: 0 <= k < |els| ==> els[k] in positions
  {
    OverlapPairsExact(els, positions, |els|);
    PairReports(idx, els, OverlapPairs(els, positions, |els|))
  }

  // ---------- one validator, and all of them ----------

  /** Conflicts found, or the KeyError of an unbound zone. */
  datatype Checked = Found(conflicts: seq<Conflict>) | MissingKey

  datatype Setting = Setting(positions: Positions, zones: map<string, Rect>, content: Json, palette: Palette)

  function ColorOf(path: string, st: Setting): Option<string> {
    var v := Resolve(st.content, Split(path));
    if v.Some? && v.value.Text? then Some(v.value.value) else None
  }

  function ContrastConflicts(idx: int, fg: Option<string>, bg: Option<string>, minRatio: real, palette: Palette)
    : seq<Conflict> {
    if fg.None? || bg.None? then [Report(idx, ColorsUnresolved)]
    else
      var la, lb := palette(fg.value), palette(bg.value);
      if la.None? || lb.None? then [Report(idx, ColorInvalid)]
      else if ContrastRatio(la.value, lb.value) < minRatio then
        [Report(idx, LowContrast(ContrastRatio(la.value, lb.value)))]
      else []
  }

  function GridConflicts(idx: int, r: Rect, grid: real, axis: D.Axis): seq<Conflict>
    requires grid > 0.0
  {
    (if axis != D.AxisY && !OnGrid(r.x, grid) then [Report(idx, OffGridX(r.x))] else [])
    + (if axis != D.AxisX && !OnGrid(r.y, grid) then [Report(idx, OffGridY(r.y))] else [])
  }

  predicate Checkable(c: D.Constraint, st: Setting) { !c.Linear() && c.WellFormed() && Placed(c, st.positions) }

  function CheckOne(c: D.Constraint, idx: int, st: Setting): Checked
    requires Checkable(c, st)
  {
    match c
    case NoOverlap(_, els) =>
      Found(OverlapReports(idx, els, st.positions))
    case NoOverlapWithZone(_, element, zone) =>
      if zone !in st.zones then MissingKey
      else if Overlap(st.positions[element], st.zones[zone]) then Found([Report(idx, ZoneOverlaps(element, zone))])
      else Found([])
    case ColorContrast(_, fg, bg, minRatio) =>
      Found(ContrastConflicts(idx, ColorOf(fg, st), ColorOf(bg, st), minRatio, st.palette))
    case GridAlign(_, element, grid, axis) => Found(GridConflicts(idx, st.positions[element], grid, axis))
    case _ => Found([])
  }

  /** What each validator is for, said without its loop, its division or its fmod. */
  ghost predicate Passes(c: D.Constraint, st: Setting)
    requires Checkable(c, st)
  {
    match c
    case NoOverlap(_, els) =>
      forall i, j :: 0 <= i < j < |els| ==> !Overlap(st.positions[els[i]], st.positions[els[j]])
    case NoOverlapWithZone(_, element, zone) => zone in st.zones && !Overlap(st.positions[element], st.zones[zone])
    case ColorContrast(_, fg, bg, minRatio) =>
      var a, b := ColorOf(fg, st), ColorOf(bg, st);
      && a.Some? && b.Some? && st.palette(a.value).Some? && st.palette(b.value).Some?
      && (Outshines(st.palette(a.value).value, st.palette(b.value).value, minRatio)
          || Outshines(st.palette(b.value).value, st.palette(a.value).value, minRatio))
    case GridAlign(_, element, grid, axis) =>
      var r := st.positions[element];
      && (axis != D.AxisY ==> r.x < 0.0 || exists k :: NearLine(r.x, grid, k))
      && (axis != D.AxisX ==> r.y < 0.0 || exists k :: NearLine(r.y, grid, k))
    case _ => true
  }

  lemma NoPairsMeansDisjoint(els: seq<string>, positions: Positions)
    requires forall k :: 0 <= k < |els| ==> els[k] in positions
    ensures OverlapPairs(els, positions, |els|) == [] <==>
            forall i, j :: 0 <= i < j < |els| ==> !Overlap(positions[els[i]], positions[els[j]])
  {
    hide Overlap, OverlapPairs, Ascending;
    OverlapPairsExact(els, positions, |els|);
    var ps := OverlapPairs(els, positions, |els|);
    if ps != [] {
      assert ps[0] in ps;
      assert PairClash(els, positions, ps[0].0, ps[0].1);
    }
    forall i, j | 0 <= i < j < |els| && Overlap(positions[els[i]], positions[els[j]]) ensures ps != [] {
      assert PairClash(els, positions, i, j);
      assert (i, j) in ps;
    }
  }

  /** A validator is silent exactly when its meaning holds. */
  lemma CheckIsExact(c: D.Constraint, idx: int, st: Setting)
    requires Checkable(c, st)
    ensures CheckOne(c, idx, st) == Found([]) <==> Passes(c, st)
  {
    hide OverlapPairs, OnGrid, NearLine, ColorOf, Overlap, Outshines, ContrastRatio;
    match c
    case ColorContrast(_, fg, bg, minRatio) =>
      var a, b := ColorOf(fg, st), ColorOf(bg, st);
      if a.Some? && b.Some? && st.palette(a.value).Some? && st.palette(b.value).Some? {
        ContrastMeaning(st.palette(a.value).value, st.palette(b.value).value, minRatio);
      }
    case NoOverlap(_, els) => NoPairsMeansDisjoint(els, st.positions);
    case GridAlign(_, element, grid, axis) =>
      OnGridExact(st.positions[element].x, grid);
      OnGridExact(st.positions[element].y, grid);
    case _ =>
  }

  /** `_run_validators` over the first `n` constraints. */
  function CheckAll(cs: seq<D.Constraint>, n: nat, st: Setting): Checked
    requires n <= |cs| && forall i :: 0 <= i < |cs| && !cs[i].Linear() ==> Checkable(cs[i], st)
  {
    if n == 0 then Found([])
    else
      var before := CheckAll(cs, n - 1, st);
      if before.MissingKey? || cs[n - 1].Linear() then before
      else
        var last := CheckOne(cs[n - 1], n - 1, st);
        if last.MissingKey? then last else Found(before.conflicts + last.conflicts)
  }

  lemma {:induction false} SilentIffAllPass(cs: seq<D.Constraint>, n: nat, st: Setting)
    requires n <= |cs| && forall i :: 0 <= i < |cs| && !cs[i].Linear() ==> Checkable(cs[i], st)
    ensures CheckAll(cs, n, st) == Found([]) <==> forall i :: 0 <= i < n && !cs[i].Linear() ==> Passes(cs[i], st)
  {
    hide Passes, CheckOne;
    if n > 0 {
      SilentIffAllPass(cs, n - 1, st);
      if !cs[n - 1].Linear() {
        CheckIsExact(cs[n - 1], n - 1, st);
      }
    }
  }

  lemma ConflictsAreLabelled(c: D.Constraint, idx: int, st: Setting)
    requires Checkable(c, st) && CheckOne(c, idx, st).Found?
    ensures forall f :: f in CheckOne(c, idx, st).conflicts ==> f.phase == ValidatorPhase && f.index == idx
  {
    hide ColorOf, Overlap, OnGrid, OverlapPairs, InRange, ContrastRatio;
  }

  lemma {:induction false} OnlyValidatorConflicts(cs: seq<D.Constraint>, n: nat, st: Setting)
    requires n <= |cs| && forall i :: 0 <= i < |cs| && !cs[i].Linear() ==> Checkable(cs[i], st)
    ensures var r := CheckAll(cs, n, st);
            r.Found? ==> forall f :: f in r.conflicts ==>
                f.phase == ValidatorPhase && 0 <= f.index < n && !cs[f.index].Linear()
  {
    hide CheckOne;
    if n > 0 {
      OnlyValidatorConflicts(cs, n - 1, st);
      if !cs[n - 1].Linear() && CheckOne(cs[n - 1], n - 1, st).Found? {
        ConflictsAreLabelled(cs[n - 1], n - 1, st);
      }
    }
  }

  /** A validator that is silent contributes nothing to the full report. */
  lemma {:induction false} SilentValidatorUnreported(cs: seq<D.Constraint>, n: nat, st: Setting, m: nat)
    requires n <= |cs| && forall i :: 0 <= i < |cs| && !cs[i].Linear() ==> Checkable(cs[i], st)
    requires m < |cs| && !cs[m].Linear() && CheckOne(cs[m], m, st) == Found([])
    ensures var r := CheckAll(cs, n, st); r.Found? ==> forall f :: f in r.conflicts ==> f.index != m
  {
    hide CheckOne;
    if n > 0 {
      SilentValidatorUnreported(cs, n - 1, st, m);
      if !cs[n - 1].Linear() && CheckOne(cs[n - 1], n - 1, st).Found? {
        ConflictsAreLabelled(cs[n - 1], n - 1, st);
      }
    }
  }

  method PairConflicts(idx: int, els: seq<string>, positions: Positions) returns (out: seq<Conflict>)
    requires forall k :: 0 <= k < |els| ==> els[k] in positions
    ensures out == OverlapReports(idx, els, positions)
  {
    hide Overlap, PairReports, InRange;
    out := [];
    ghost var pairs: seq<(nat, nat)> := [];
    NoReports(idx, els);
    for i := 0 to |els|
      invariant pairs == OverlapPairs(els, positions, i) && InRange(els, pairs)
      invariant out == PairReports(idx, els, pairs)
    {
      ghost var above := pairs;
      for j := i + 1 to |els|
        invariant pairs == above + RowPairs(els, positions, i, j) && InRange(els, pairs)
        invariant out == PairReports(idx, els, pairs)
      {
        if Overlap(positions[els[i]], positions[els[j]]) {
          PairReportsSnoc(idx, els, pairs, i, j);
          out := out + [Report(idx, PairOverlaps(els[i], els[j]))];
          pairs := pairs + [(i, j)];
          assert PairClash(els, positions, i, j);
        }
      }
    }
  }

  lemma NoReports(idx: int, els: seq<string>)
    ensures InRange(els, []) && PairReports(idx, els, []) == []
  {
  }

  method RunValidators(cs: seq<D.Constraint>, st: Setting) returns (r: Checked)
    requires forall i :: 0 <= i < |cs| && !cs[i].Linear() ==> Checkable(cs[i], st)
    ensures r == CheckAll(cs, |cs|, st)
  {
    hide Overlap, OnGrid, ContrastConflicts, ColorOf;
    var out: seq<Conflict> := [];
    for idx := 0 to |cs|
      invariant CheckAll(cs, idx, st) == Found(out)
    {
      var c := cs[idx];
      if c.Linear() {
        continue;
      }
      match c {
        case NoOverlap(_, els) =>
          var clashes := PairConflicts(idx, els, st.positions);
          out := out + clashes;
        case NoOverlapWithZone(_, element, zone) =>
          if zone !in st.zones {
            assert CheckOne(c, idx, st).MissingKey?;
            MissingKeyStays(cs, idx + 1, |cs|, st);
            return MissingKey;
          }
          if Overlap(st.positions[element], st.zones[zone]) {
            out := out + [Report(idx, ZoneOverlaps(element, zone))];
          }
        case ColorContrast(_, fg, bg, minRatio) =>
          out := out + ContrastConflicts(idx, ColorOf(fg, st), ColorOf(bg, st), minRatio, st.palette);
        case GridAlign(_, element, grid, axis) =>
          if axis != D.AxisY && !OnGrid(st.positions[element].x, grid) {
            out := out + [Report(idx, OffGridX(st.positions[element].x))];
          }
          if axis != D.AxisX && !OnGrid(st.positions[element].y, grid) {
            out := out + [Report(idx, OffGridY(st.positions[element].y))];
          }
        case _ =>
      }
    }
    r := Found(out);
  }

  lemma {:induction false} MissingKeyStays(cs: seq<D.Constraint>, m: nat, n: nat, st: Setting)
    requires m <= n <= |cs| && forall i :: 0 <= i < |cs| && !cs[i].Linear() ==> Checkable(cs[i], st)
    requires CheckAll(cs, m, st).MissingKey?
    ensures CheckAll(cs, n, st).MissingKey?
    decreases n
  {
    if m < n {
      MissingKeyStays(cs, m, n - 1, st);
    }
  }
}
