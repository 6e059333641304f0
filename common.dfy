/**
 * Values shared by the hand-input components: an optional value (the C#
 * `null`), Unity's `Mathf.Clamp`/`Clamp01`/`Max`, 2D points and the
 * axis-aligned screen rectangles the hit tests work on.
 *
 * Unity's `float` is modelled as `real`; rounding is not modelled.
 */
module Common {

  datatype Option<+T> = None | Some(value: T)

  function Max(a: real, b: real): (r: real)
    ensures r >= a && r >= b && (r == a || r == b)
  {
    if a >= b then a else b
  }

  function Min(a: real, b: real): (r: real)
    ensures r <= a && r <= b && (r == a || r == b)
  {
    if a <= b then a else b
  }

  /** `Mathf.Abs`. */
  function Abs(x: real): (r: real)
    ensures r >= 0.0 && (r == x || r == -x)
  {
    if x < 0.0 then -x else x
  }

  /** `Mathf.Clamp(x, lo, hi)`: the lower bound is tested first. */
  function Clamp(x: real, lo: real, hi: real): (r: real)
    ensures lo <= hi ==> lo <= r <= hi
    ensures lo <= x <= hi ==> r == x
  {
    if x < lo then lo else if x > hi then hi else x
  }

  /** `Mathf.Clamp01`. */
  function Clamp01(x: real): (r: real)
    ensures 0.0 <= r <= 1.0
    ensures 0.0 <= x <= 1.0 ==> r == x
    ensures x >= 1.0 ==> r == 1.0
    ensures x <= 0.0 ==> r == 0.0
  {
    Clamp(x, 0.0, 1.0)
  }

  /**
   * The progress fill `Mathf.Clamp01(hold / dwellSeconds)` of the dwell
   * components. With `dwellSeconds == 0` the float quotient is +infinity
   * (fill 1), -infinity (fill 0) or NaN; NaN is taken as 0.
   */
  function Fill(hold: real, dwellSeconds: real): (r: real)
    ensures 0.0 <= r <= 1.0
    ensures dwellSeconds > 0.0 && hold >= dwellSeconds ==> r == 1.0
    ensures dwellSeconds > 0.0 && hold <= 0.0 ==> r == 0.0
  {
    if dwellSeconds > 0.0 then
      QuotientBounds(hold, dwellSeconds);
      Clamp01(hold / dwellSeconds)
    else if dwellSeconds < 0.0 then Clamp01(hold / dwellSeconds)
    else if hold > 0.0 then 1.0
    else 0.0
  }

  /** No element occurs twice. */
  predicate Distinct<T(==)>(s: seq<T>)
  {
    forall i, j :: 0 <= i < j < |s| ==> s[i] != s[j]
  }

  datatype Point = Point(x: real, y: real)

  /** A screen-space rectangle given by its min and max corners (`Rect.MinMaxRect`). */
  datatype Rect = Rect(xMin: real, yMin: real, xMax: real, yMax: real)

  /** Unity's `Rect.Contains`: closed at the min edges, open at the max edges. */
  predicate Contains(r: Rect, p: Point)
  {
    r.xMin <= p.x < r.xMax && r.yMin <= p.y < r.yMax
  }

  /** The rectangle grown by `pad` on every side. */
  function Grow(r: Rect, pad: real): Rect
  {
    Rect(r.xMin - pad, r.yMin - pad, r.xMax + pad, r.yMax + pad)
  }

  /**
   * Normalised pointer to screen pixels, as the selectables do it: mirror x
   * if asked, clamp both axes to [0,1], scale by the screen size.
   */
  function ScreenPoint(p01: Point, mirrorX: bool, width: real, height: real): (r: Point)
    ensures width >= 0.0 ==> 0.0 <= r.x <= width
    ensures height >= 0.0 ==> 0.0 <= r.y <= height
  {
    var fx := Clamp01(if mirrorX then 1.0 - p01.x else p01.x);
    var fy := Clamp01(p01.y);
    ScaleWithin(fx, width);
    ScaleWithin(fy, height);
    Point(fx * width, fy * height)
  }

  /** `Clamp01` commutes with reflection about 1/2. */
  lemma Clamp01Reflect(x: real)
    ensures Clamp01(1.0 - x) == 1.0 - Clamp01(x)
  {
  }

  /** Mirroring reflects the screen x about the middle of the screen, whatever the input. */
  lemma MirrorReflectsScreenX(p01: Point, width: real, height: real)
    ensures ScreenPoint(p01, true, width, height).x == width - ScreenPoint(p01, false, width, height).x
    ensures ScreenPoint(p01, true, width, height).y == ScreenPoint(p01, false, width, height).y
  {
    Clamp01Reflect(p01.x);
    assert (1.0 - Clamp01(p01.x)) * width == width - Clamp01(p01.x) * width;
  }

  /** A fraction of a non-negative extent stays within it. */
  lemma ScaleWithin(f: real, extent: real)
    requires 0.0 <= f <= 1.0
    ensures extent >= 0.0 ==> 0.0 <= f * extent <= extent
  {
    if extent >= 0.0 {
      assert f * extent <= 1.0 * extent by {
        assert (1.0 - f) * extent >= 0.0;
      }
    }
  }

  /** Sign facts about `h / d` for a positive `d`. */
  lemma QuotientBounds(h: real, d: real)
    requires d > 0.0
    ensures h >= d ==> h / d >= 1.0
    ensures h <= 0.0 ==> h / d <= 0.0
    ensures h >= 0.0 ==> h / d >= 0.0
  {
    var q := h / d;
    assert q * d == h;
    assert (q - 1.0) * d == h - d;
  }
}
