/**
 * Pure coordinate math: clamping, grid snapping, the screen-to-world transform,
 * bounding boxes and translation of a board object. Coordinates are exact reals.
 */
module Geometry {
  import opened Objects
  import opened Wrappers

  const GridSize: real := 16.0

  datatype Point = Point(x: real, y: real)

  /** The top-left corner of the viewport element in client coordinates (the part of `getBoundingClientRect` used). */
  datatype ClientRect = ClientRect(left: real, top: real)

  datatype Bounds = Bounds(x: real, y: real, width: real, height: real)

  function Min(a: real, b: real): real { if a <= b then a else b }
  function Max(a: real, b: real): real { if a >= b then a else b }

  /** `Math.min(Math.max(value, min), max)`. */
  function Clamp(value: real, min: real, max: real): (r: real)
    ensures r <= max
    ensures min <= max ==> min <= r
    ensures min <= value <= max ==> r == value
    ensures value < min && min <= max ==> r == min
    ensures value > max ==> r == max
  {
    Min(Max(value, min), max)
  }

  /** `Math.round`: the nearest integer, halves rounded up. */
  function Round(v: real): (n: int)
    ensures v - 0.5 < n as real <= v + 0.5
  {
    (v + 0.5).Floor
  }

  /** `v` is an integer multiple of `step`. */
  predicate IsMultiple(v: real, step: real)
    requires step != 0.0
  {
    (v / step).Floor as real == v / step
  }

  /** `snap`: `v` rounded to the nearest multiple of `step`. */
  function Snap(v: real, step: real): (r: real)
    requires step != 0.0
    ensures IsMultiple(r, step)
    ensures r - v <= Abs(step) / 2.0 && v - r <= Abs(step) / 2.0
    ensures step > 0.0 ==> v - step / 2.0 < r
    ensures step < 0.0 ==> r < v - step / 2.0
  {
    var k := Round(v / step);
    MultipleOfStep(k, step);
    NearestMultiple(v, step, k);
    k as real * step
  }

  function Abs(a: real): real { if a < 0.0 then -a else a }

  lemma MultipleOfStep(k: int, step: real)
    requires step != 0.0
    ensures (k as real * step) / step == k as real
    ensures IsMultiple(k as real * step, step)
  {
  }

  lemma NearestMultiple(v: real, step: real, k: int)
    requires step != 0.0
    requires v / step - 0.5 < k as real <= v / step + 0.5
    ensures k as real * step - v <= Abs(step) / 2.0 && v - k as real * step <= Abs(step) / 2.0
    ensures step > 0.0 ==> v - step / 2.0 < k as real * step
    ensures step < 0.0 ==> k as real * step < v - step / 2.0
  {
    var q := v / step;
    assert v == q * step;
    var e := k as real - q;
    assert -0.5 < e <= 0.5;
    assert k as real * step - v == e * step;
    if step > 0.0 {
      assert -0.5 * step < e * step <= 0.5 * step;
    } else {
      assert 0.5 * step <= e * step < -0.5 * step;
    }
  }

  /** The contract of `Snap` determines it: one multiple of a positive step lies in (v - step/2, v + step/2]. */
  lemma SnapUnique(v: real, step: real, w: real)
    requires step > 0.0 && IsMultiple(w, step)
    requires v - step / 2.0 < w <= v + step / 2.0
    ensures w == Snap(v, step)
  {
    var q, m := v / step, (w / step).Floor;
    HalfStepQuotient(v, step);
    DivideKeepsOrder(v - step / 2.0, w, step);
    DivideKeepsOrder(w, v + step / 2.0, step);
    assert q - 0.5 < m as real <= q + 0.5;
    assert Round(q) == m;
    assert w == (w / step) * step;
  }

  /** Half a step either side of `v` is half a unit either side of `v / step`. */
  lemma HalfStepQuotient(v: real, step: real)
    requires step > 0.0
    ensures (v - step / 2.0) / step == v / step - 0.5 && (v + step / 2.0) / step == v / step + 0.5
  {
    var q := v / step;
    assert v == q * step;
    QuotientOf(v - step / 2.0, q - 0.5, step);
    QuotientOf(v + step / 2.0, q + 0.5, step);
  }

  /** `x / s == y` exactly when `x == y * s`, for a positive `s`. */
  lemma QuotientOf(x: real, y: real, s: real)
    requires s > 0.0 && x == y * s
    ensures x / s == y
  {
    var d := x / s - y;
    assert (x / s) * s == x;
    assert d * s == 0.0;
  }

  /** Dividing by a positive number keeps both strict and non-strict order. */
  lemma DivideKeepsOrder(a: real, b: real, step: real)
    requires step > 0.0
    ensures a < b ==> a / step < b / step
    ensures a <= b ==> a / step <= b / step
  {
    assert a == (a / step) * step && b == (b / step) * step;
    if a / step > b / step {
      assert (a / step - b / step) * step > 0.0;
    } else if a / step == b / step {
      assert a == b;
    }
  }

  /** Halves go up, as with `Math.round`: +8 snaps to 16 and -8 snaps to 0 on the 16-unit grid. */
  lemma SnapTiesUp()
    ensures Snap(8.0, GridSize) == 16.0 && Snap(-8.0, GridSize) == 0.0
  {
    assert Round(8.0 / GridSize) == 1;
    assert Round(-8.0 / GridSize) == 0;
  }

  /** Snapping a value already on the grid leaves it where it is, so snapping is idempotent. */
  lemma SnapIdempotent(v: real, step: real)
    requires step != 0.0
    ensures IsMultiple(v, step) ==> Snap(v, step) == v
    ensures Snap(Snap(v, step), step) == Snap(v, step)
  {
    forall w | IsMultiple(w, step) ensures Snap(w, step) == w {
      var k := (w / step).Floor;
      assert Round(w / step) == k;
      assert w == (w / step) * step;
    }
  }

  /** Snapping keeps the order of values when the step is positive. */
  lemma SnapMonotone(a: real, b: real, step: real)
    requires step > 0.0 && a <= b
    ensures Snap(a, step) <= Snap(b, step)
  {
    assert a / step <= b / step;
    assert Round(a / step) <= Round(b / step);
    assert Round(a / step) as real * step <= Round(b / step) as real * step;
  }

  /** Sums of multiples of a step are multiples of it. */
  lemma MultipleSum(a: real, b: real, step: real)
    requires step != 0.0 && IsMultiple(a, step) && IsMultiple(b, step)
    ensures IsMultiple(a + b, step)
  {
    var m, n := (a / step).Floor, (b / step).Floor;
    assert (a + b) / step == a / step + b / step;
    assert (a + b) / step == (m + n) as real;
  }

  /** `snapPoint`: both coordinates snapped with the same step, each independently of the other. */
  function SnapPoint(p: Point, step: real): (r: Point)
    requires step != 0.0
    ensures IsMultiple(r.x, step) && IsMultiple(r.y, step)
    ensures r.x - p.x <= Abs(step) / 2.0 && p.x - r.x <= Abs(step) / 2.0
    ensures r.y - p.y <= Abs(step) / 2.0 && p.y - r.y <= Abs(step) / 2.0
    ensures r.x == Snap(p.x, step) && r.y == Snap(p.y, step)
  {
    Point(Snap(p.x, step), Snap(p.y, step))
  }

  /**
   * `screenToWorld`: a client point seen through the viewport rect, pan and zoom.
   * Mapping the result back through the viewport recovers the client point.
   */
  function ScreenToWorld(clientX: real, clientY: real, rect: ClientRect, pan: Point, zoom: real): (w: Point)
    requires zoom != 0.0
    ensures rect.left + pan.x + w.x * zoom == clientX
    ensures rect.top + pan.y + w.y * zoom == clientY
  {
    Point((clientX - rect.left - pan.x) / zoom, (clientY - rect.top - pan.y) / zoom)
  }

  /**
   * `getObjectBounds`: the stored box of a note or rect; for an arrow the smallest
   * axis-aligned box holding both endpoints, a zero span widened to 1.
   */
  function GetObjectBounds(o: Obj): (b: Bounds)
    ensures !o.Arrow? ==> b == Bounds(o.x, o.y, o.width, o.height)
    ensures o.Arrow? ==> b.width > 0.0 && b.height > 0.0
    ensures o.Arrow? ==> b.x == Min(o.x, o.x2) && b.y == Min(o.y, o.y2)
    ensures o.Arrow? ==> b.x <= o.x <= b.x + b.width && b.x <= o.x2 <= b.x + b.width
    ensures o.Arrow? ==> b.y <= o.y <= b.y + b.height && b.y <= o.y2 <= b.y + b.height
    ensures o.Arrow? && o.x != o.x2 ==> b.width == Abs(o.x2 - o.x)
    ensures o.Arrow? && o.y != o.y2 ==> b.height == Abs(o.y2 - o.y)
    ensures o.Arrow? && o.x == o.x2 ==> b.width == 1.0
    ensures o.Arrow? && o.y == o.y2 ==> b.height == 1.0
  {
    if o.Arrow? then
      var minX, minY := Min(o.x, o.x2), Min(o.y, o.y2);
      var maxX, maxY := Max(o.x, o.x2), Max(o.y, o.y2);
      Bounds(minX, minY, if maxX - minX == 0.0 then 1.0 else maxX - minX,
                         if maxY - minY == 0.0 then 1.0 else maxY - minY)
    else
      Bounds(o.x, o.y, o.width, o.height)
  }

  /** The delta `translateObject` applies: `d` itself, or `d` snapped to the grid. */
  function AppliedDelta(d: real, shouldSnap: bool): (r: real)
    ensures shouldSnap ==> r == Snap(d, GridSize)
    ensures shouldSnap ==> IsMultiple(r, GridSize) && r - d <= GridSize / 2.0 && d - r <= GridSize / 2.0
    ensures !shouldSnap ==> r == d
  {
    if shouldSnap then Snap(d, GridSize) else d
  }

  /**
   * `translateObject`: x and y (and both endpoints of an arrow) shifted by the same
   * delta, snapped first when asked; nothing else changes.
   */
  function TranslateObject(o: Obj, dx: real, dy: real, shouldSnap: bool): (r: Obj)
    ensures r.KindOf() == o.KindOf()
    ensures r.x == o.x + AppliedDelta(dx, shouldSnap) && r.y == o.y + AppliedDelta(dy, shouldSnap)
    ensures o.Arrow? ==> r.x2 == o.x2 + AppliedDelta(dx, shouldSnap) && r.y2 == o.y2 + AppliedDelta(dy, shouldSnap)
    ensures r.WithAnchors(o.x, o.y, o.EndX(), o.EndY()) == o
  {
    var ddx, ddy := AppliedDelta(dx, shouldSnap), AppliedDelta(dy, shouldSnap);
    o.WithAnchors(o.x + ddx, o.y + ddy, o.EndX() + ddx, o.EndY() + ddy)
  }

  /** With snapping on, an object whose position is on the 16-unit grid stays on it, whatever the delta. */
  lemma TranslateKeepsGrid(o: Obj, dx: real, dy: real)
    requires IsMultiple(o.x, GridSize) && IsMultiple(o.y, GridSize)
    ensures IsMultiple(TranslateObject(o, dx, dy, true).x, GridSize)
    ensures IsMultiple(TranslateObject(o, dx, dy, true).y, GridSize)
    ensures o.Arrow? && IsMultiple(o.x2, GridSize) && IsMultiple(o.y2, GridSize) ==>
              IsMultiple(TranslateObject(o, dx, dy, true).x2, GridSize)
              && IsMultiple(TranslateObject(o, dx, dy, true).y2, GridSize)
  {
    MultipleSum(o.x, AppliedDelta(dx, true), GridSize);
    MultipleSum(o.y, AppliedDelta(dy, true), GridSize);
    if o.Arrow? && IsMultiple(o.x2, GridSize) && IsMultiple(o.y2, GridSize) {
      MultipleSum(o.x2, AppliedDelta(dx, true), GridSize);
      MultipleSum(o.y2, AppliedDelta(dy, true), GridSize);
    }
  }

  /** Duplicating is translating by the offset without snapping, under a new id and timestamps. */
  lemma DuplicateIsTranslate(o: Obj, offset: real, id: string, now: int)
    ensures DuplicateObject(o, offset, id, now)
            == TranslateObject(o, offset, offset, false).(id := id, createdAt := now, updatedAt := now)
  {
  }

  /** A freshly created shape occupies its default box: 220 by 160 for a note, 240 by 140 for a rect, 180 by 70 for an arrow. */
  lemma CreatedBounds(kind: Kind, x: real, y: real, color: Option<string>, text: Option<string>, id: string, now: int)
    ensures var b := GetObjectBounds(CreateObject(kind, x, y, color, text, id, now));
            b.x == x && b.y == y
            && (b.width, b.height) == (match kind
                                       case NoteKind => (220.0, 160.0)
                                       case RectKind => (240.0, 140.0)
                                       case ArrowKind => (180.0, 70.0))
  {
  }
}
