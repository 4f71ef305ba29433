/**
 * Remapping of legacy metering/focus areas, whose edges lie in [-1000, 1000],
 * onto native metering rectangles in active-array pixels
 * (`legacyAreasToMeteringRectangles`, `toIntConstrained`).
 *
 * `legacyAreasToMeteringRectangles` computes in `double`; here the arithmetic is exact on `real`,
 * so these are exact-rational semantics, not IEEE rounding.
 */
module Regions {
  import opened Wrappers
  import opened Geometry
  import opened Native
  import opened CameraSettings

  /** Java's `(int)` cast of a double inside the `int` range: truncation toward zero. */
  function TruncateToInt(x: real): (r: int)
    ensures 0.0 <= x ==> 0 <= r && r as real <= x < r as real + 1.0
    ensures x <= 0.0 ==> r <= 0 && r as real - 1.0 < x <= r as real
  {
    if x >= 0.0 then x.Floor else -((-x).Floor)
  }

  function MaxReal(a: real, b: real): real { if a >= b then a else b }

  function MinReal(a: real, b: real): real { if a <= b then a else b }

  /** `Math.min(Math.max(original, min), max)`, then the `(int)` cast. */
  function ToIntConstrained(original: real, min: int, max: int): (r: int)
    ensures min <= max ==> min <= r <= max
    ensures max < min ==> r == max
    ensures min <= max && original <= min as real ==> r == min
    ensures min <= max && max as real <= original ==> r == max
    ensures 0 <= min && min as real <= original <= max as real ==> r == original.Floor
  {
    TruncateToInt(MinReal(MaxReal(original, min as real), max as real))
  }

  /** Clamping and truncating never reverses the order of two inputs. */
  lemma ToIntConstrainedMonotone(x: real, y: real, min: int, max: int)
    requires x <= y
    ensures ToIntConstrained(x, min, max) <= ToIntConstrained(y, min, max)
  {
    var cx := MinReal(MaxReal(x, min as real), max as real);
    var cy := MinReal(MaxReal(y, min as real), max as real);
    assert cx <= cy;
    if 0.0 <= cx {
      assert cx.Floor <= cy.Floor;
    } else if cy <= 0.0 {
      assert (-cy).Floor <= (-cx).Floor;
    }
  }

  /** A legacy coordinate in [-1000, 1000] as a fraction in [0, 1]. */
  function Normalize(coordinate: int): (fraction: real)
    ensures -1000 <= coordinate <= 1000 ==> 0.0 <= fraction <= 1.0
    ensures fraction == 0.0 <==> coordinate == -1000
    ensures fraction == 0.5 <==> coordinate == 0
    ensures fraction == 1.0 <==> coordinate == 1000
  {
    (coordinate + 1000) as real / 2000.0
  }

  /**
   * Where an edge lands, in integer arithmetic: the legacy coordinate scaled
   * by extent / 2000 and shifted by the origin is
   * (extent * (coordinate + 1000) + 2000 * origin) / 2000; its floor is then
   * clamped to [0, extent - 1].  When extent < 1 the clamp's upper bound
   * extent - 1 wins.
   */
  function ScaledEdge(coordinate: int, extent: int, origin: int): int
  {
    var scaled := extent * (coordinate + 1000) + 2000 * origin;
    if extent < 1 then extent - 1
    else if scaled <= 0 then 0
    else if scaled >= 2000 * (extent - 1) then extent - 1
    else scaled / 2000
  }

  /** The real-valued position of an edge is the integer quotient the scaled form divides. */
  lemma ScaledPosition(coordinate: int, extent: int, origin: int)
    ensures extent as real * Normalize(coordinate) + origin as real ==
            (extent * (coordinate + 1000) + 2000 * origin) as real / 2000.0
  {
    assert (extent * (coordinate + 1000)) as real == extent as real * (coordinate + 1000) as real;
  }

  /** Dividing an integer by 2000 and flooring agrees with integer division by 2000. */
  lemma FloorOfQuotient(n: int)
    ensures (n as real / 2000.0).Floor == n / 2000
  {
    var q := n / 2000;
    var r := n % 2000;
    assert n == 2000 * q + r && 0 <= r < 2000;
    assert n as real / 2000.0 == q as real + r as real / 2000.0;
  }

  /**
   * One edge: scale the fraction by the extent, offset by the origin, clamp to
   * [0, extent - 1].  The pixel is the integer formulation `ScaledEdge`.
   */
  function EdgeToPixel(coordinate: int, extent: int, origin: int): (pixel: int)
    ensures pixel == ScaledEdge(coordinate, extent, origin)
  {
    ScaledPosition(coordinate, extent, origin);
    FloorOfQuotient(extent * (coordinate + 1000) + 2000 * origin);
    ToIntConstrained(extent as real * Normalize(coordinate) + origin as real, 0, extent - 1)
  }

  /**
   * On an array whose edge starts at 0, a legacy coordinate lands on pixel
   * extent * (coordinate + 1000) / 2000, rounded down, except that 1000 lands
   * on the last pixel.
   */
  lemma EdgeToPixelAnchored(coordinate: int, extent: int)
    requires -1000 <= coordinate <= 1000 && extent >= 1
    ensures EdgeToPixel(coordinate, extent, 0) ==
            if coordinate == 1000 then extent - 1 else extent * (coordinate + 1000) / 2000
  {
    var scaled := extent * (coordinate + 1000);
    assert 0 <= scaled <= 2000 * extent;
    if coordinate < 1000 {
      assert scaled < 2000 * extent;
      if scaled >= 2000 * (extent - 1) {
        assert scaled / 2000 == extent - 1;
      }
    }
  }

  /** Remapping preserves the order of legacy edges. */
  lemma EdgeToPixelMonotone(a: int, b: int, extent: int, origin: int)
    requires a <= b
    ensures EdgeToPixel(a, extent, origin) <= EdgeToPixel(b, extent, origin)
  {
    if extent >= 0 {
      var d := Normalize(b) - Normalize(a);
      assert d >= 0.0;
      assert extent as real * Normalize(b) == extent as real * Normalize(a) + extent as real * d;
      assert extent as real * d >= 0.0;
      ToIntConstrainedMonotone(extent as real * Normalize(a) + origin as real,
                               extent as real * Normalize(b) + origin as real, 0, extent - 1);
    }
  }

  /** The native rectangle for one legacy area, relative to the active array. */
  function RemapArea(activeArray: Rect, area: Area): (m: MeteringRectangle)
    ensures m.weight == area.weight
    ensures m.x == ScaledEdge(area.rect.left, activeArray.Width(), activeArray.left)
    ensures m.y == ScaledEdge(area.rect.top, activeArray.Height(), activeArray.top)
    ensures m.x + m.width == ScaledEdge(area.rect.right, activeArray.Width(), activeArray.left)
    ensures m.y + m.height == ScaledEdge(area.rect.bottom, activeArray.Height(), activeArray.top)
    ensures activeArray.Width() >= 1 ==> 0 <= m.x <= activeArray.Width() - 1
    ensures activeArray.Width() >= 1 ==> 0 <= m.x + m.width <= activeArray.Width() - 1
    ensures activeArray.Height() >= 1 ==> 0 <= m.y <= activeArray.Height() - 1
    ensures activeArray.Height() >= 1 ==> 0 <= m.y + m.height <= activeArray.Height() - 1
  {
    var w := activeArray.Width();
    var h := activeArray.Height();
    var left := EdgeToPixel(area.rect.left, w, activeArray.left);
    var top := EdgeToPixel(area.rect.top, h, activeArray.top);
    var right := EdgeToPixel(area.rect.right, w, activeArray.left);
    var bottom := EdgeToPixel(area.rect.bottom, h, activeArray.top);
    MeteringRectangle(left, top, right - left, bottom - top, area.weight)
  }

  /** An area whose edges are in order becomes a rectangle of non-negative width and height. */
  lemma RemapAreaKeepsOrientation(activeArray: Rect, area: Area)
    requires area.rect.left <= area.rect.right && area.rect.top <= area.rect.bottom
    ensures RemapArea(activeArray, area).width >= 0
    ensures RemapArea(activeArray, area).height >= 0
  {
    EdgeToPixelMonotone(area.rect.left, area.rect.right, activeArray.Width(), activeArray.left);
    EdgeToPixelMonotone(area.rect.top, area.rect.bottom, activeArray.Height(), activeArray.top);
  }

  /** Every area of the list remapped, in order. */
  function RemapAll(activeArray: Rect, areas: seq<Area>): (ms: seq<MeteringRectangle>)
    ensures |ms| == |areas|
    ensures forall i :: 0 <= i < |areas| ==> ms[i] == RemapArea(activeArray, areas[i])
  {
    if |areas| == 0 then []
    else
      var rest := RemapAll(activeArray, areas[1..]);
      assert forall i :: 1 <= i < |areas| ==> rest[i - 1] == RemapArea(activeArray, areas[i]);
      [RemapArea(activeArray, areas[0])] + rest
  }

  /** `legacyAreasToMeteringRectangles`: `None` (Java `null`) for no areas, else the remapped array. */
  function MeteringRegions(activeArray: Rect, areas: seq<Area>): (r: Option<seq<MeteringRectangle>>)
    ensures r.None? <==> |areas| == 0
    ensures r.Some? ==> |r.value| == |areas|
    ensures r.Some? ==> forall i :: 0 <= i < |areas| ==>
              r.value[i].weight == areas[i].weight &&
              r.value[i] == RemapArea(activeArray, areas[i])
  {
    if |areas| > 0 then Some(RemapAll(activeArray, areas)) else None
  }

  /** The whole legacy square on an array anchored at (0, 0) covers pixels 0 .. width-1 and 0 .. height-1. */
  lemma FullAreaCoversZeroAnchoredArray(activeArray: Rect, weight: int)
    requires activeArray.left == 0 && activeArray.top == 0
    requires activeArray.Width() >= 1 && activeArray.Height() >= 1
    ensures RemapArea(activeArray, Area(Rect(-1000, -1000, 1000, 1000), weight)) ==
            MeteringRectangle(0, 0, activeArray.Width() - 1, activeArray.Height() - 1, weight)
  {
    assert Normalize(-1000) == 0.0;
    assert Normalize(1000) == 1.0;
  }

  /** The legacy centre point on an array anchored at (0, 0) lands on the array's centre pixel. */
  lemma CentrePointOnZeroAnchoredArray(activeArray: Rect, weight: int)
    requires activeArray.left == 0 && activeArray.top == 0
    requires activeArray.Width() >= 2 && activeArray.Height() >= 2
    ensures RemapArea(activeArray, Area(Rect(0, 0, 0, 0), weight)) ==
            MeteringRectangle(activeArray.Width() / 2, activeArray.Height() / 2, 0, 0, weight)
  {
    assert Normalize(0) == 0.5;
    HalfFloor(activeArray.Width());
    HalfFloor(activeArray.Height());
  }

  lemma HalfFloor(n: int)
    requires n >= 2
    ensures (n as real * 0.5).Floor == n / 2
    ensures n as real * 0.5 <= (n - 1) as real
  {
    var q := n / 2;
    assert n == 2 * q || n == 2 * q + 1;
    assert n as real * 0.5 == q as real || n as real * 0.5 == q as real + 0.5;
  }

  /**
   * The clamp bounds are [0, width-1] whatever the array's left edge, so on an
   * array whose left edge lies at or beyond its width every area collapses onto
   * the column width-1.
   */
  lemma OffsetArrayCollapsesHorizontally(activeArray: Rect, area: Area)
    requires activeArray.Width() >= 1 && activeArray.left >= activeArray.Width()
    requires area.rect.left >= -1000 && area.rect.right >= -1000
    ensures RemapArea(activeArray, area).x == activeArray.Width() - 1
    ensures RemapArea(activeArray, area).width == 0
  {
    var w := activeArray.Width();
    assert Normalize(area.rect.left) >= 0.0;
    assert Normalize(area.rect.right) >= 0.0;
    assert w as real * Normalize(area.rect.left) >= 0.0;
    assert w as real * Normalize(area.rect.right) >= 0.0;
  }
}
