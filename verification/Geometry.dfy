/** Pixel rectangles, the half-pixel overlap test and the four-decimal rounding of solver output. */
module Geometry {
  import opened Common

  datatype Rect = Rect(x: real, y: real, w: real, h: real) {
    function Right(): real { x + w }

    function Bottom(): real { y + h }
  }

  /** `inner` lies in `outer`, with no slack. */
  predicate Within(inner: Rect, outer: Rect) {
    && outer.x <= inner.x
    && outer.y <= inner.y
    && inner.Right() <= outer.Right()
    && inner.Bottom() <= outer.Bottom()
  }

  lemma WithinTransitive(a: Rect, b: Rect, c: Rect)
    requires Within(a, b) && Within(b, c)
    ensures Within(a, c)
  {
  }

  /** A point of the closed rectangle. */
  predicate Covers(r: Rect, px: real, py: real) {
    r.x <= px <= r.Right() && r.y <= py <= r.Bottom()
  }

  /** A point strictly inside the rectangle. */
  predicate Interior(r: Rect, px: real, py: real) {
    r.x < px < r.Right() && r.y < py < r.Bottom()
  }

  const OVERLAP_EPS := 0.5

  /** The overlap test the solver's validators and the sync script share. */
  predicate Overlap(a: Rect, b: Rect) {
    !(|| a.x + a.w <= b.x + OVERLAP_EPS
      || b.x + b.w <= a.x + OVERLAP_EPS
      || a.y + a.h <= b.y + OVERLAP_EPS
      || b.y + b.h <= a.y + OVERLAP_EPS)
  }

  function Min(p: real, q: real): real { if p <= q then p else q }

  function Max(p: real, q: real): real { if p <= q then q else p }

  function Abs(p: real): real { if p < 0.0 then -p else p }

  predicate Close(p: real, q: real, tolerance: real) { -tolerance <= p - q <= tolerance }

  /** How thick the common part of the two rectangles is along x (negative when apart). */
  function ThicknessX(a: Rect, b: Rect): real { Min(a.Right(), b.Right()) - Max(a.x, b.x) }

  function ThicknessY(a: Rect, b: Rect): real { Min(a.Bottom(), b.Bottom()) - Max(a.y, b.y) }

  /** The common part is thicker than half a pixel along both axes. */
  predicate Thick(a: Rect, b: Rect) { ThicknessX(a, b) > OVERLAP_EPS && ThicknessY(a, b) > OVERLAP_EPS }

  /** No side is half a pixel or less. */
  predicate Sturdy(a: Rect) { a.w > OVERLAP_EPS && a.h > OVERLAP_EPS }

  /** The pair shares a thick patch exactly when it is reported and neither box is a sliver; so
      an unreported pair never does, and a reported one does unless a sliver is involved. */
  lemma OverlapIsThickIntersection(a: Rect, b: Rect)
    ensures Thick(a, b) <==> Overlap(a, b) && Sturdy(a) && Sturdy(b)
    ensures Overlap(a, b) == Overlap(b, a)
  {
  }

  /** A sliver lying well inside another element is reported although the common part is thin. */
  lemma SliverIsReported()
    ensures var a, b := Rect(5.0, 5.0, 0.25, 0.25), Rect(0.0, 0.0, 10.0, 10.0); Overlap(a, b) && !Thick(a, b)
  {
  }

  /** A box that covers the middle of `a` with room on every side. */
  function Around(a: Rect): Rect {
    Rect(Min(a.x, a.Right()) - 2.0, Min(a.y, a.Bottom()) - 2.0, Abs(a.w) + 4.0, Abs(a.h) + 4.0)
  }

  /** Against all boxes without slivers the test is exact for `a` exactly when `a` is no sliver
      itself: any sliver is reported against the box around it. */
  lemma ExactIffSturdy(a: Rect)
    ensures (forall b :: Sturdy(b) ==> (Overlap(a, b) <==> Thick(a, b))) <==> Sturdy(a)
  {
    if Sturdy(a) {
      forall b | Sturdy(b) ensures Overlap(a, b) <==> Thick(a, b) {
        OverlapIsThickIntersection(a, b);
      }
    } else {
      OverlapIsThickIntersection(a, Around(a));
      assert Sturdy(Around(a)) && Overlap(a, Around(a));
    }
  }

  const ROUNDING := 0.00005

  /** `round(v, 4)` over the reals. */
  function Round4(v: real): real { RoundHalfEven(v * 10000.0) as real / 10000.0 }

  lemma Round4Error(v: real)
    ensures -ROUNDING <= Round4(v) - v <= ROUNDING
  {
    var n := RoundHalfEven(v * 10000.0) as real;
    assert -0.5 <= n - v * 10000.0 <= 0.5;
    assert Round4(v) - v == (n - v * 10000.0) / 10000.0;
  }

  function RoundRect(r: Rect): Rect { Rect(Round4(r.x), Round4(r.y), Round4(r.w), Round4(r.h)) }
}
