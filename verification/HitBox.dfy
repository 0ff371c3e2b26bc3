/** Transforms of SVG elements and the integer hit boxes made of them, over exact arithmetic. */
module HitBox {
  import opened Common

  /** Rows `(a c e)` and `(b d f)`: `m[0]` to `m[5]` in order. */
  datatype Matrix = Matrix(a: real, b: real, c: real, d: real, e: real, f: real)

  datatype Point = Point(x: real, y: real)

  const IDENTITY := Matrix(1.0, 0.0, 0.0, 1.0, 0.0, 0.0)

  /** Multiplication by a name, so that proofs can treat products as single terms. */
  function Times(a: real, b: real): real {
    a * b
  }

  function Dot(a: real, b: real, x: real, y: real): real {
    Times(a, x) + Times(b, y)
  }

  function Mul(m: Matrix, n: Matrix): Matrix {
    Matrix(Dot(m.a, m.c, n.a, n.b), Dot(m.b, m.d, n.a, n.b), Dot(m.a, m.c, n.c, n.d), Dot(m.b, m.d, n.c, n.d),
           Dot(m.a, m.c, n.e, n.f) + m.e, Dot(m.b, m.d, n.e, n.f) + m.f)
  }

  function Linear(a: real, c: real, e: real, p: Point): real {
    Times(a, p.x) + Times(c, p.y) + e
  }

  function Apply(m: Matrix, p: Point): Point {
    Point(Linear(m.a, m.c, m.e, p), Linear(m.b, m.d, m.f, p))
  }

  lemma Distributes(a: real, b: real, c: real, d: real)
    ensures Times(a, b + c + d) == Times(a, b) + Times(a, c) + Times(a, d)
    ensures Times(a + b, c) == Times(a, c) + Times(b, c)
  {
  }

  lemma Associates(a: real, b: real, c: real)
    ensures Times(Times(a, b), c) == Times(a, Times(b, c))
  {
  }

  /** The product of matrices is the composition of transforms, the right one first. */
  lemma MulComposes(m: Matrix, n: Matrix, p: Point)
    ensures Apply(Mul(m, n), p) == Apply(m, Apply(n, p))
  {
    hide Times;
    ComposesOnAxis(m.a, m.c, m.e, n, p);
    ComposesOnAxis(m.b, m.d, m.f, n, p);
  }

  lemma ComposesOnAxis(m1: real, m2: real, m3: real, n: Matrix, p: Point)
    ensures Linear(Dot(m1, m2, n.a, n.b), Dot(m1, m2, n.c, n.d), Dot(m1, m2, n.e, n.f) + m3, p)
         == Linear(m1, m2, m3, Apply(n, p))
  {
    hide Times;
    Distributes(Times(m1, n.a), Times(m2, n.b), p.x, 0.0);
    Distributes(Times(m1, n.c), Times(m2, n.d), p.y, 0.0);
    Distributes(m1, Times(n.a, p.x), Times(n.c, p.y), n.e);
    Distributes(m2, Times(n.b, p.x), Times(n.d, p.y), n.f);
    Associates(m1, n.a, p.x);
    Associates(m2, n.b, p.x);
    Associates(m1, n.c, p.y);
    Associates(m2, n.d, p.y);
  }

  // ---------------------------------------------------------------------------------------------
  // Transform lists
  // ---------------------------------------------------------------------------------------------

  /** One function of a transform attribute: its lower-case name and its numbers, None if one does not parse. */
  datatype Call = Call(name: string, args: Option<seq<real>>)

  function Single(call: Call): Option<Matrix> {
    match call.args
    case None => None
    case Some(v) =>
      if call.name == "translate" then
        if |v| == 1 then Some(Matrix(1.0, 0.0, 0.0, 1.0, v[0], 0.0))
        else if |v| == 2 then Some(Matrix(1.0, 0.0, 0.0, 1.0, v[0], v[1])) else None
      else if call.name == "scale" then
        if |v| == 1 then Some(Matrix(v[0], 0.0, 0.0, v[0], 0.0, 0.0))
        else if |v| == 2 then Some(Matrix(v[0], 0.0, 0.0, v[1], 0.0, 0.0)) else None
      else if call.name == "matrix" then
        if |v| == 6 then Some(Matrix(v[0], v[1], v[2], v[3], v[4], v[5])) else None
      else None
  }

  /** Each function moves a point as its name says; a single argument leaves y alone, or scales it alike. */
  lemma SingleActs(call: Call, p: Point)
    ensures Single(call).Some? <==>
              && call.args.Some?
              && ((call.name in {"translate", "scale"} && 1 <= |call.args.value| <= 2)
                  || (call.name == "matrix" && |call.args.value| == 6))
    ensures Single(call).Some? ==>
              var v, q := call.args.value, Apply(Single(call).value, p);
              && (call.name == "translate" ==> q == Point(p.x + v[0], p.y + if |v| == 2 then v[1] else 0.0))
              && (call.name == "scale" ==> q == Point(v[0] * p.x, (if |v| == 2 then v[1] else v[0]) * p.y))
              && (call.name == "matrix" ==>
                    q == Point(v[0] * p.x + v[2] * p.y + v[4], v[1] * p.x + v[3] * p.y + v[5]))
  {
    assert "translate"[0] == 't' && "scale"[0] == 's' && "matrix"[0] == 'm';
  }

  predicate Supported(calls: seq<Call>) {
    calls != [] && forall i | 0 <= i < |calls| :: Single(calls[i]).Some?
  }

  /** The product of a list of single transforms. */
  function Product(calls: seq<Call>): Matrix
    requires forall i | 0 <= i < |calls| :: Single(calls[i]).Some?
  {
    if calls == [] then IDENTITY else Mul(Product(calls[..|calls| - 1]), Single(calls[|calls| - 1]).value)
  }

  method ParseTransform(calls: seq<Call>) returns (m: Option<Matrix>)
    ensures m == if Supported(calls) then Some(Product(calls)) else None
  {
    if |calls| == 0 {
      return None;
    }
    var product := IDENTITY;
    var i := 0;
    while i < |calls|
      invariant 0 <= i <= |calls| && forall j | 0 <= j < i :: Single(calls[j]).Some?
      invariant product == Product(calls[..i])
    {
      var n := Single(calls[i]);
      if n == None {
        return None;
      }
      assert calls[..i + 1][..i] == calls[..i];
      product := Mul(product, n.value);
      i := i + 1;
    }
    assert calls[..i] == calls;
    m := Some(product);
  }

  /** Where a chain of transforms takes a point: the last one acts first. */
  function ApplyAll(ms: seq<Matrix>, p: Point): Point {
    if ms == [] then p else ApplyAll(ms[..|ms| - 1], Apply(ms[|ms| - 1], p))
  }

  function Accumulate(ms: seq<Matrix>): Matrix {
    if ms == [] then IDENTITY else Mul(Accumulate(ms[..|ms| - 1]), ms[|ms| - 1])
  }

  /** The matrix accumulated over any number of nested transforms is the composition of them all. */
  lemma {:induction false} AccumulateComposes(ms: seq<Matrix>, p: Point)
    ensures Apply(Accumulate(ms), p) == ApplyAll(ms, p)
  {
    if ms == [] {
      assert Apply(IDENTITY, p) == p;
    } else {
      var front, last := ms[..|ms| - 1], ms[|ms| - 1];
      MulComposes(Accumulate(front), last, p);
      AccumulateComposes(front, Apply(last, p));
    }
  }

  /** A transform list acts as its functions one after the other, the last one first. */
  lemma {:induction false} ProductActs(calls: seq<Call>, ms: seq<Matrix>, p: Point)
    requires |ms| == |calls| && forall i | 0 <= i < |calls| :: Single(calls[i]) == Some(ms[i])
    ensures Apply(Product(calls), p) == ApplyAll(ms, p)
  {
    hide Apply, Mul, Single;
    if calls == [] {
      IdentityApply(p);
    } else {
      var last := ms[|ms| - 1];
      MulComposes(Product(calls[..|calls| - 1]), last, p);
      ProductActs(calls[..|calls| - 1], ms[..|ms| - 1], Apply(last, p));
    }
  }

  // ---------------------------------------------------------------------------------------------
  // Boxes
  // ---------------------------------------------------------------------------------------------

  datatype Box = Box(x: int, y: int, width: int, height: int)

  /** The root's view box and the display it is scaled to. */
  datatype View = View(x: real, y: real, w: real, h: real, width: int, height: int)

  predicate Positive(v: View) {
    0.0 < v.w && 0.0 < v.h && 0 < v.width && 0 < v.height
  }

  function Least(a: real, b: real): real {
    if a <= b then a else b
  }

  function Most(a: real, b: real): real {
    if a >= b then a else b
  }

  function Ceil(v: real): int {
    -(-v).Floor
  }

  function Scale(v: View): (s: real)
    requires Positive(v)
    ensures 0.0 < s
  {
    Quotient(v.width as real, v.w);
    Quotient(v.height as real, v.h);
    Least(v.width as real / v.w, v.height as real / v.h)
  }

  lemma Quotient(n: real, d: real)
    requires 0.0 < n && 0.0 < d
    ensures 0.0 < n / d && n / d * d == n
  {
  }

  function OffsetX(v: View): real
    requires Positive(v)
  {
    (v.width as real - v.w * Scale(v)) / 2.0 - v.x * Scale(v)
  }

  function OffsetY(v: View): real
    requires Positive(v)
  {
    (v.height as real - v.h * Scale(v)) / 2.0 - v.y * Scale(v)
  }

  /** A point of user space on the display. */
  function OnDisplay(v: View, p: Point): Point
    requires Positive(v)
  {
    Point(OnAxis(Scale(v), OffsetX(v), p.x), OnAxis(Scale(v), OffsetY(v), p.y))
  }

  function OnAxis(scale: real, offset: real, t: real): real {
    Times(scale, t) + offset
  }

  function Corners(r: Box): (c: seq<Point>)
    ensures |c| == 4
  {
    [Point(r.x as real, r.y as real), Point((r.x + r.width) as real, r.y as real),
     Point(r.x as real, (r.y + r.height) as real), Point((r.x + r.width) as real, (r.y + r.height) as real)]
  }

  /** The smallest and largest coordinates of the transformed corners. */
  datatype Extent = Extent(left: real, top: real, right: real, bottom: real)

  function ExtentOf(r: Box, m: Matrix): Extent {
    var c := Corners(r);
    var p, q, s, t := Apply(m, c[0]), Apply(m, c[1]), Apply(m, c[2]), Apply(m, c[3]);
    Extent(Least(Least(p.x, q.x), Least(s.x, t.x)), Least(Least(p.y, q.y), Least(s.y, t.y)),
           Most(Most(p.x, q.x), Most(s.x, t.x)), Most(Most(p.y, q.y), Most(s.y, t.y)))
  }

  function Rounded(e: Extent, v: View): Box
    requires Positive(v)
  {
    var s := Scale(v);
    Box(OnAxis(s, OffsetX(v), e.left).Floor, OnAxis(s, OffsetY(v), e.top).Floor, Ceil(Times(s, e.right - e.left)),
        Ceil(Times(s, e.bottom - e.top)))
  }

  /** `transformRect`: a loop over the corners keeps the extremes, which are then scaled and rounded. */
  method TransformRect(r: Box, m: Matrix, v: View) returns (box: Box)
    requires Positive(v)
    ensures box == Rounded(ExtentOf(r, m), v)
  {
    hide Times, Linear, Apply, Scale, OffsetX, OffsetY, OnAxis, Ceil;
    var points := Corners(r);
    var first := Apply(m, points[0]);
    var minX, minY, maxX, maxY := first.x, first.y, first.x, first.y;
    var i := 1;
    while i < 4
      invariant 1 <= i <= 4
      invariant forall k | 0 <= k < i :: minX <= Apply(m, points[k]).x <= maxX && minY <= Apply(m, points[k]).y <= maxY
      invariant exists k :: 0 <= k < i && minX == Apply(m, points[k]).x
      invariant exists k :: 0 <= k < i && maxX == Apply(m, points[k]).x
      invariant exists k :: 0 <= k < i && minY == Apply(m, points[k]).y
      invariant exists k :: 0 <= k < i && maxY == Apply(m, points[k]).y
    {
      var p := Apply(m, points[i]);
      minX, maxX := Least(minX, p.x), Most(maxX, p.x);
      minY, maxY := Least(minY, p.y), Most(maxY, p.y);
      i := i + 1;
    }
    box := Rounded(Extent(minX, minY, maxX, maxY), v);
  }

  // ---------------------------------------------------------------------------------------------
  // How close a hit box comes
  // ---------------------------------------------------------------------------------------------

  predicate Between(v: real, low: real, high: real) {
    low <= v <= high || high <= v <= low
  }

  /** A point of the element's own box, in its own coordinates; the box may be given with negative sizes. */
  predicate Inside(r: Box, p: Point) {
    Between(p.x, r.x as real, (r.x + r.width) as real) && Between(p.y, r.y as real, (r.y + r.height) as real)
  }

  lemma Monotone(k: real, v: real, low: real, high: real)
    requires Between(v, low, high)
    ensures Between(Times(k, v), Times(k, low), Times(k, high))
  {
    if low <= v <= high {
      Ordered(k, low, v);
      Ordered(k, v, high);
    } else {
      Ordered(k, high, v);
      Ordered(k, v, low);
    }
  }

  lemma Ordered(k: real, u: real, v: real)
    requires u <= v
    ensures if k >= 0.0 then k * u <= k * v else k * v <= k * u
  {
    assert k * (v - u) == k * v - k * u;
  }

  /** A linear form on a box takes its extremes at the corners. */
  lemma LinearExtremes(a: real, c: real, e: real, r: Box, p: Point)
    requires Inside(r, p)
    ensures var k := Corners(r);
            && Least(Least(Linear(a, c, e, k[0]), Linear(a, c, e, k[1])),
                     Least(Linear(a, c, e, k[2]), Linear(a, c, e, k[3]))) <= Linear(a, c, e, p)
            && Linear(a, c, e, p) <= Most(Most(Linear(a, c, e, k[0]), Linear(a, c, e, k[1])),
                                          Most(Linear(a, c, e, k[2]), Linear(a, c, e, k[3])))
  {
    hide Least, Most, Between, Times;
    assert Between(p.x, r.x as real, (r.x + r.width) as real) && Between(p.y, r.y as real, (r.y + r.height) as real);
    var x0, x1, y0, y1 := r.x as real, (r.x + r.width) as real, r.y as real, (r.y + r.height) as real;
    Monotone(a, p.x, x0, x1);
    Monotone(c, p.y, y0, y1);
    SumExtremes(Times(a, p.x), Times(a, x0), Times(a, x1), Times(c, p.y), Times(c, y0), Times(c, y1), e);
  }

  lemma SumExtremes(u: real, u0: real, u1: real, v: real, v0: real, v1: real, e: real)
    requires Between(u, u0, u1) && Between(v, v0, v1)
    ensures var p, q, s, t := u0 + v0 + e, u1 + v0 + e, u0 + v1 + e, u1 + v1 + e;
            Least(Least(p, q), Least(s, t)) <= u + v + e <= Most(Most(p, q), Most(s, t))
  {
  }

  /** The exact bounding box on the display. */
  function Bounds(r: Box, m: Matrix, v: View): Extent
    requires Positive(v)
  {
    var e := ExtentOf(r, m);
    var p, q := OnDisplay(v, Point(e.left, e.top)), OnDisplay(v, Point(e.right, e.bottom));
    Extent(p.x, p.y, q.x, q.y)
  }

  lemma Scaled(s: real, o: real, low: real, v: real, high: real)
    requires 0.0 < s && low <= v <= high
    ensures OnAxis(s, o, low) <= OnAxis(s, o, v) <= OnAxis(s, o, high)
  {
    Ordered(s, low, v);
    Ordered(s, v, high);
  }

  lemma ExtentContains(r: Box, m: Matrix, p: Point)
    requires Inside(r, p)
    ensures var u, e := Apply(m, p), ExtentOf(r, m); e.left <= u.x <= e.right && e.top <= u.y <= e.bottom
  {
    hide Linear, Least, Most, Corners, Inside;
    LinearExtremes(m.a, m.c, m.e, r, p);
    LinearExtremes(m.b, m.d, m.f, r, p);
  }

  /** Every point of the element, not just its corners, lands inside the exact bounding box. */
  lemma BoundsContain(r: Box, m: Matrix, v: View, p: Point)
    requires Positive(v) && Inside(r, p)
    ensures var q, b := OnDisplay(v, Apply(m, p)), Bounds(r, m, v);
            b.left <= q.x <= b.right && b.top <= q.y <= b.bottom
  {
    hide Scale, OffsetX, OffsetY, OnAxis, ExtentOf, Apply;
    ExtentContains(r, m, p);
    var e := ExtentOf(r, m);
    var u := Apply(m, p);
    Scaled(Scale(v), OffsetX(v), e.left, u.x, e.right);
    Scaled(Scale(v), OffsetY(v), e.top, u.y, e.bottom);
  }

  /** Each side of the exact bounding box is touched by a corner of the element, so no smaller box would do. */
  lemma BoundsTouched(r: Box, m: Matrix, v: View)
    requires Positive(v)
    ensures var b := Bounds(r, m, v);
            && (exists k :: 0 <= k < 4 && b.left == OnDisplay(v, Apply(m, Corners(r)[k])).x)
            && (exists k :: 0 <= k < 4 && b.right == OnDisplay(v, Apply(m, Corners(r)[k])).x)
            && (exists k :: 0 <= k < 4 && b.top == OnDisplay(v, Apply(m, Corners(r)[k])).y)
            && (exists k :: 0 <= k < 4 && b.bottom == OnDisplay(v, Apply(m, Corners(r)[k])).y)
  {
    hide Scale, OffsetX, OffsetY, OnAxis, ExtentOf, Apply, Corners;
    var e := ExtentOf(r, m);
    ExtentTouched(r, m);
    var l :| 0 <= l < 4 && e.left == Apply(m, Corners(r)[l]).x;
    var q :| 0 <= q < 4 && e.right == Apply(m, Corners(r)[q]).x;
    var t :| 0 <= t < 4 && e.top == Apply(m, Corners(r)[t]).y;
    var o :| 0 <= o < 4 && e.bottom == Apply(m, Corners(r)[o]).y;
    var b := Bounds(r, m, v);
    assert b.left == OnDisplay(v, Apply(m, Corners(r)[l])).x;
    assert b.right == OnDisplay(v, Apply(m, Corners(r)[q])).x;
    assert b.top == OnDisplay(v, Apply(m, Corners(r)[t])).y;
    assert b.bottom == OnDisplay(v, Apply(m, Corners(r)[o])).y;
  }

  lemma ExtentTouched(r: Box, m: Matrix)
    ensures exists k :: 0 <= k < 4 && ExtentOf(r, m).left == Apply(m, Corners(r)[k]).x
    ensures exists k :: 0 <= k < 4 && ExtentOf(r, m).right == Apply(m, Corners(r)[k]).x
    ensures exists k :: 0 <= k < 4 && ExtentOf(r, m).top == Apply(m, Corners(r)[k]).y
    ensures exists k :: 0 <= k < 4 && ExtentOf(r, m).bottom == Apply(m, Corners(r)[k]).y
  {
    var c := Corners(r);
    var p, q, s, t := Apply(m, c[0]), Apply(m, c[1]), Apply(m, c[2]), Apply(m, c[3]);
    assert p == Apply(m, Corners(r)[0]) && q == Apply(m, Corners(r)[1]) && s == Apply(m, Corners(r)[2])
           && t == Apply(m, Corners(r)[3]);
  }

  function Frac(x: real): real {
    x - x.Floor as real
  }

  /** The fractions of start and length that a start rounded down and a length rounded up do not make up for. */
  predicate FallsShort(start: real, length: real) {
    (Frac(length) == 0.0 && Frac(start) > 0.0) || Frac(start) + Frac(length) > 1.0
  }

  lemma RoundedEnd(start: real, length: real)
    ensures start - 1.0 < start.Floor as real <= start
    ensures start + length - 1.0 < (start.Floor + Ceil(length)) as real < start + length + 1.0
    ensures (start.Floor + Ceil(length)) as real < start + length <==> FallsShort(start, length)
  {
    var f, g := Frac(start), Frac(length);
    assert 0.0 <= f < 1.0 && 0.0 <= g < 1.0;
    assert Ceil(length) == if g == 0.0 then length.Floor else length.Floor + 1;
  }

  /**
   Rounding the start down and the length up: off by less than a pixel at either end, and short at the far one exactly
   for these fractions.
   */
  lemma Rounding(s: real, o: real, low: real, high: real)
    ensures var start, length, near, far := OnAxis(s, o, low).Floor, Ceil(Times(s, high - low)), OnAxis(s, o, low),
            OnAxis(s, o, high);
            && near - 1.0 < start as real <= near
            && far - 1.0 < (start + length) as real < far + 1.0
            && ((start + length) as real < far <==> FallsShort(near, Times(s, high - low)))
  {
    hide Ceil, FallsShort;
    assert OnAxis(s, o, high) == OnAxis(s, o, low) + Times(s, high - low) by {
      assert s * (high - low) == s * high - s * low;
    }
    RoundedEnd(OnAxis(s, o, low), Times(s, high - low));
  }

  /**
   The integer box is within one pixel of the exact one on every side and never starts late. Its far edges lie before
   the exact ones exactly if the fractions of the scaled start and extent say so.
   */
  lemma BoxNearBounds(r: Box, m: Matrix, v: View)
    requires Positive(v)
    ensures var box, b, e, s := Rounded(ExtentOf(r, m), v), Bounds(r, m, v), ExtentOf(r, m), Scale(v);
            && b.left - 1.0 < box.x as real <= b.left && b.top - 1.0 < box.y as real <= b.top
            && b.right - 1.0 < (box.x + box.width) as real < b.right + 1.0
            && b.bottom - 1.0 < (box.y + box.height) as real < b.bottom + 1.0
            && ((box.x + box.width) as real < b.right
                <==> FallsShort(OnAxis(s, OffsetX(v), e.left), Times(s, e.right - e.left)))
            && ((box.y + box.height) as real < b.bottom
                <==> FallsShort(OnAxis(s, OffsetY(v), e.top), Times(s, e.bottom - e.top)))
  {
    hide Scale, OffsetX, OffsetY, OnAxis, Times, ExtentOf, Ceil, FallsShort;
    var e := ExtentOf(r, m);
    Rounding(Scale(v), OffsetX(v), e.left, e.right);
    Rounding(Scale(v), OffsetY(v), e.top, e.bottom);
  }

  /** Half-scale view: an element from 1 to 3 shows from 0.5 to 1.5, its hit box ends at 1. */
  lemma RightEdgeShort(r: Box, m: Matrix, v: View)
    requires Positive(v) && Halved(v) && r.x == 1 && r.width == 2 && m == IDENTITY
    ensures var box, b := Rounded(ExtentOf(r, m), v), Bounds(r, m, v);
            box.x + box.width == 1 && b.right == 1.5
  {
    hide Apply, ExtentOf, OnAxis, Times, Ceil, Scale, OffsetX, Halved;
    HalfScale(v);
    IdentityExtent(r);
    var e := ExtentOf(r, IDENTITY);
    HalfAxis(e.left, e.right);
  }

  predicate Halved(v: View) {
    v.x == 0.0 && v.y == 0.0 && v.w == 4.0 && v.h == 4.0 && v.width == 2 && v.height == 2
  }

  lemma HalfScale(v: View)
    requires Positive(v) && Halved(v)
    ensures Scale(v) == 0.5 && OffsetX(v) == 0.0
  {
    assert v.width as real / v.w == 0.5;
  }

  lemma IdentityApply(p: Point)
    ensures Apply(IDENTITY, p) == p
  {
  }

  lemma IdentityExtent(r: Box)
    requires 0 <= r.width
    ensures ExtentOf(r, IDENTITY).left == r.x as real && ExtentOf(r, IDENTITY).right == (r.x + r.width) as real
  {
    hide Apply;
    forall k | 0 <= k < 4
      ensures Apply(IDENTITY, Corners(r)[k]) == Corners(r)[k]
    {
      IdentityApply(Corners(r)[k]);
    }
  }

  lemma HalfAxis(low: real, high: real)
    requires low == 1.0 && high == 3.0
    ensures OnAxis(0.5, 0.0, low).Floor == 0 && OnAxis(0.5, 0.0, high) == 1.5 && Ceil(Times(0.5, high - low)) == 1
  {
  }

  /** The view box is scaled uniformly, fits the display and is centred in it. */
  lemma ViewCentred(v: View)
    requires Positive(v)
    ensures OnDisplay(v, Point(v.x + v.w / 2.0, v.y + v.h / 2.0))
         == Point(v.width as real / 2.0, v.height as real / 2.0)
    ensures v.w * Scale(v) <= v.width as real && v.h * Scale(v) <= v.height as real
    ensures v.w * Scale(v) == v.width as real || v.h * Scale(v) == v.height as real
  {
    var s := Scale(v);
    Quotient(v.width as real, v.w);
    Quotient(v.height as real, v.h);
    Ordered(v.w, s, v.width as real / v.w);
    Ordered(v.h, s, v.height as real / v.h);
    assert (v.x + v.w / 2.0) * s == v.x * s + v.w * s / 2.0;
    assert (v.y + v.h / 2.0) * s == v.y * s + v.h * s / 2.0;
  }
}
