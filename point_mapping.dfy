/** Remapping a pointer position from the client's video frame to the
    device's content rectangle, as `Device.getPhysicalPoint` computes it. */
module PointMapping {
  import opened JavaInt
  import opened Geometry

  /** The state a point is left in by `getPhysicalPoint`: its coordinates
      afterwards, and whether the call ended in an `ArithmeticException`
      (an integer division by zero). The x coordinate is written before the
      y division runs, so a throw can leave x remapped and y untouched. */
  datatype Mapped = Mapped(x: Int32, y: Int32, thrown: bool)

  /** The fast path: the client's frame is exactly the content rectangle,
      which is then the rectangle from the origin to the frame's size. */
  predicate IsIdentity(contentRect: Rect, screenSize: Size)
    ensures IsIdentity(contentRect, screenSize)
        <==> contentRect == Rect(0, 0, screenSize.width, screenSize.height)
  {
    && contentRect.Width() == screenSize.width
    && contentRect.Height() == screenSize.height
    && contentRect.left == 0
    && contentRect.top == 0
  }

  /** One coordinate: `origin + v * length / screen` in Java `int` arithmetic. */
  function Scale(v: Int32, origin: Int32, length: Int32, screen: Int32): (r: Int32)
    requires screen != 0
    ensures NoOverflow(v, origin, length, screen) ==> r == origin + Quot(v * length, screen)
  {
    Add(origin, Div(Mul(v, length), screen))
  }

  /** The effect of `getPhysicalPoint` on the point (x, y) sent by a client
      whose video frame has size `screenSize`. */
  function PhysicalPoint(x: Int32, y: Int32, screenSize: Size, contentRect: Rect): (m: Mapped)
    ensures IsIdentity(contentRect, screenSize) ==> m == Mapped(x, y, false)
    ensures m.thrown <==>
      !IsIdentity(contentRect, screenSize) && (screenSize.width == 0 || screenSize.height == 0)
    ensures screenSize.width == 0 ==> m.x == x && m.y == y
    ensures !IsIdentity(contentRect, screenSize) && screenSize.width != 0 ==>
      m.x == Scale(x, contentRect.left, contentRect.Width(), screenSize.width)
    ensures !IsIdentity(contentRect, screenSize) && screenSize.width != 0 && screenSize.height != 0 ==>
      m.y == Scale(y, contentRect.top, contentRect.Height(), screenSize.height)
    ensures !IsIdentity(contentRect, screenSize) && screenSize.width != 0 && screenSize.height == 0 ==>
      m.y == y
  {
    if IsIdentity(contentRect, screenSize) then
      Mapped(x, y, false)
    else if screenSize.width == 0 then
      Mapped(x, y, true)
    else
      var x' := Scale(x, contentRect.left, contentRect.Width(), screenSize.width);
      if screenSize.height == 0 then
        Mapped(x', y, true)
      else
        Mapped(x', Scale(y, contentRect.top, contentRect.Height(), screenSize.height), false)
  }

  /** Neither the product, the quotient nor the sum in
      `origin + v * length / screen` leaves the range of `int`. */
  predicate NoOverflow(v: Int32, origin: Int32, length: Int32, screen: Int32)
    requires screen != 0
  {
    && MIN <= v * length <= MAX
    && MIN <= Quot(v * length, screen) <= MAX
    && MIN <= origin + Quot(v * length, screen) <= MAX
  }

  lemma MulMonotone(x: int, y: int, c: int)
    requires x <= y && c >= 0
    ensures x * c <= y * c
  {
  }

  /** `a * b` truncated-divided by `b` is `a` again. */
  lemma {:induction false} QuotOfMultiple(a: int, b: int)
    requires b != 0
    ensures Quot(a * b, b) == a
  {
    var q := Quot(a * b, b);
    var k := a - q;
    assert a * b - q * b == k * b by { DistributeSub(a, q, b); }
    if k != 0 {
      NonZeroMultiple(k, b);
    }
  }

  lemma DistributeSub(a: int, q: int, b: int)
    ensures a * b - q * b == (a - q) * b
  {
  }

  /** A non-zero multiple of `b` is at least `b` in magnitude. */
  lemma NonZeroMultiple(k: int, b: int)
    requires k != 0 && b != 0
    ensures Abs(k * b) >= Abs(b)
  {
    MulMonotone(1, Abs(k), Abs(b));
    assert Abs(k * b) == Abs(k) * Abs(b);
  }

  /** The fast path agrees with the general formula: for a content rectangle
      at the origin with the client's size, scaling would give the point
      back, as long as `v * length` does not overflow. */
  lemma {:induction false} FastPathAgreesWithScaling(x: Int32, y: Int32, screenSize: Size, contentRect: Rect)
    requires IsIdentity(contentRect, screenSize)
    requires screenSize.width != 0 && screenSize.height != 0
    requires MIN <= x * screenSize.width <= MAX && MIN <= y * screenSize.height <= MAX
    ensures Scale(x, contentRect.left, contentRect.Width(), screenSize.width) == x
    ensures Scale(y, contentRect.top, contentRect.Height(), screenSize.height) == y
  {
    QuotOfMultiple(x, screenSize.width);
    QuotOfMultiple(y, screenSize.height);
  }

  /** A point inside the client's frame lands inside the content rectangle:
      for `0 <= v <= screen` the coordinate is between `origin` and
      `origin + length`. */
  lemma {:induction false} ScaleWithinContent(v: Int32, origin: Int32, length: Int32, screen: Int32)
    requires 0 < screen && 0 <= v <= screen && 0 <= length
    requires v * length <= MAX && origin + length <= MAX
    ensures origin <= Scale(v, origin, length, screen) <= origin + length
  {
    var a := v * length;
    MulMonotone(0, v, length);
    MulMonotone(v, screen, length);
    var q := Quot(a, screen);
    assert 0 <= q by {
      if q < 0 { MulMonotone(q, -1, screen); }
    }
    assert q <= length by {
      if q > length { MulMonotone(length + 1, q, screen); }
    }
    assert NoOverflow(v, origin, length, screen);
  }

  /** Remapping keeps the order of coordinates when nothing overflows. */
  lemma {:induction false} ScaleMonotone(v: Int32, w: Int32, origin: Int32, length: Int32, screen: Int32)
    requires 0 < screen && 0 <= length && v <= w
    requires NoOverflow(v, origin, length, screen) && NoOverflow(w, origin, length, screen)
    ensures Scale(v, origin, length, screen) <= Scale(w, origin, length, screen)
  {
    MulMonotone(v, w, length);
    QuotMonotone(v * length, w * length, screen);
  }

  lemma {:induction false} QuotMonotone(a: int, b: int, d: int)
    requires d > 0 && a <= b
    ensures Quot(a, d) <= Quot(b, d)
  {
    var p, q := Quot(a, d), Quot(b, d);
    if p > q {
      MulMonotone(q + 1, p, d);
    }
  }

  /** When nothing overflows, `getPhysicalPoint` computes
      `(left + x * width / screenW, top + y * height / screenH)` with
      truncating division, on the fast path too: there the formula gives
      the point back. */
  lemma {:induction false} PhysicalPointFormula(x: Int32, y: Int32, screenSize: Size, contentRect: Rect)
    requires screenSize.width > 0 && screenSize.height > 0
    requires NoOverflow(x, contentRect.left, contentRect.Width(), screenSize.width)
    requires NoOverflow(y, contentRect.top, contentRect.Height(), screenSize.height)
    ensures PhysicalPoint(x, y, screenSize, contentRect)
         == Mapped(contentRect.left + Quot(x * contentRect.Width(), screenSize.width),
                   contentRect.top + Quot(y * contentRect.Height(), screenSize.height),
                   false)
  {
    if IsIdentity(contentRect, screenSize) {
      QuotOfMultiple(x, screenSize.width);
      QuotOfMultiple(y, screenSize.height);
    }
  }

  /** A point inside the client's frame lands inside the content rectangle
      and nothing throws, as long as the products and the far edges fit in
      an `int`. */
  lemma {:induction false} PhysicalPointWithinContent(x: Int32, y: Int32, screenSize: Size, contentRect: Rect)
    requires 0 < screenSize.width && 0 < screenSize.height
    requires 0 <= x <= screenSize.width && 0 <= y <= screenSize.height
    requires 0 <= contentRect.Width() && 0 <= contentRect.Height()
    requires x * contentRect.Width() <= MAX && contentRect.left + contentRect.Width() <= MAX
    requires y * contentRect.Height() <= MAX && contentRect.top + contentRect.Height() <= MAX
    ensures var m := PhysicalPoint(x, y, screenSize, contentRect);
      && !m.thrown
      && contentRect.left <= m.x <= contentRect.left + contentRect.Width()
      && contentRect.top <= m.y <= contentRect.top + contentRect.Height()
  {
    if !IsIdentity(contentRect, screenSize) {
      ScaleWithinContent(x, contentRect.left, contentRect.Width(), screenSize.width);
      ScaleWithinContent(y, contentRect.top, contentRect.Height(), screenSize.height);
    }
  }

  /** A client frame at half the content size doubles the coordinates. */
  lemma PhysicalPointScalesUp()
    ensures PhysicalPoint(100, 100, Size(400, 300), Rect(0, 0, 800, 600)) == Mapped(200, 200, false)
  {
    var c := Rect(0, 0, 800, 600);
    assert c.Width() == 800 && c.Height() == 600;
    assert !IsIdentity(c, Size(400, 300));
    assert Scale(100, 0, 800, 400) == 200;
    assert Scale(100, 0, 600, 300) == 200;
  }

  /** A content rectangle that does not start at the origin shifts the
      coordinates by its top-left corner. */
  lemma PhysicalPointOffsets()
    ensures PhysicalPoint(10, 10, Size(400, 300), Rect(50, 50, 450, 350)) == Mapped(60, 60, false)
  {
    var c := Rect(50, 50, 450, 350);
    assert c.Width() == 400 && c.Height() == 300;
    assert !IsIdentity(c, Size(400, 300));
    assert Scale(10, 50, 400, 400) == 60;
    assert Scale(10, 50, 300, 300) == 60;
  }

  /** A negative coordinate is divided toward zero, as in Java: -3 / 2 is -1,
      where Euclidean division would give -2. */
  lemma PhysicalPointTruncatesTowardZero()
    ensures PhysicalPoint(-1, 0, Size(2, 1), Rect(0, 0, 3, 1)) == Mapped(-1, 0, false)
  {
    var c := Rect(0, 0, 3, 1);
    assert c.Width() == 3 && c.Height() == 1;
    assert !IsIdentity(c, Size(2, 1));
    assert Scale(-1, 0, 3, 2) == -1;
    assert Scale(0, 0, 1, 1) == 0;
  }

  /** A zero-sized client frame throws, except on the fast path; when only
      the height is zero, x has already been remapped when the exception
      is raised. */
  lemma PhysicalPointZeroFrame()
    ensures PhysicalPoint(10, 20, Size(0, 0), Rect(0, 0, 0, 0)) == Mapped(10, 20, false)
    ensures PhysicalPoint(10, 20, Size(0, 0), Rect(0, 0, 800, 600)) == Mapped(10, 20, true)
    ensures PhysicalPoint(10, 20, Size(400, 0), Rect(0, 0, 800, 600)) == Mapped(20, 20, true)
  {
    var c := Rect(0, 0, 800, 600);
    assert c.Width() == 800 && c.Height() == 600;
    assert Scale(10, 0, 800, 400) == 20;
  }
}
