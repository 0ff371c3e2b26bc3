/** The changed rectangle that `changedPrimitive` sends, and what painting it does to a framebuffer. */
module Delta {
  import opened Common
  import opened Pixels

  datatype Primitive = Primitive(x: int, y: int, width: int, height: int, pixels: Bytes)

  /** A rectangle of whole bytes, both corners included. */
  datatype Box = Box(minX: nat, minY: nat, maxX: nat, maxY: nat)

  ghost predicate FrameShape(w: int, h: int, frame: Bytes) {
    0 < w && 0 < h && w % 2 == 0 && |frame| == w / 2 * h
  }

  // ---------------------------------------------------------------------------------------------
  // Row offsets
  // ---------------------------------------------------------------------------------------------

  /** The index at which row `y` starts, by repeated addition: proofs below stay linear. */
  function Row(y: nat, columns: nat): nat {
    if y == 0 then 0 else Row(y - 1, columns) + columns
  }

  lemma {:induction false} RowIsProduct(y: nat, columns: nat)
    ensures Row(y, columns) == y * columns
  {
    if y > 0 {
      RowIsProduct(y - 1, columns);
      assert y * columns == (y - 1) * columns + columns;
    }
  }

  lemma {:induction false} RowOrder(y: nat, z: nat, columns: nat)
    requires y < z
    ensures Row(y, columns) + columns <= Row(z, columns)
  {
    if y + 1 < z {
      RowOrder(y, z - 1, columns);
    }
  }

  lemma {:induction false} RowDoubled(y: nat, columns: nat)
    ensures Row(y, 2 * columns) == 2 * Row(y, columns)
  {
    if y > 0 {
      RowDoubled(y - 1, columns);
    }
  }

  lemma QuotientUnique(k: int, q: int, r: int, c: int)
    requires 0 < c && k == q * c + r && 0 <= r < c
    ensures k / c == q && k % c == r
  {
    var d := k / c - q;
    assert d * c == (k / c) * c - q * c;
    assert -c < d * c < c;
    assert d >= 1 ==> d * c >= c;
    assert d <= -1 ==> d * c <= -c;
  }

  /** Row and column of entry `k` in a table of `columns` columns. */
  lemma Locate(k: nat, columns: nat, rows: nat)
    requires 0 < columns && k < Row(rows, columns)
    ensures 0 <= k % columns < columns && 0 <= k / columns < rows
    ensures k == Row(k / columns, columns) + k % columns
  {
    RowIsProduct(k / columns, columns);
    if rows <= k / columns {
      if rows < k / columns {
        RowOrder(rows, k / columns, columns);
      }
    }
  }

  lemma Locates(x: nat, y: nat, columns: nat)
    requires x < columns
    ensures (Row(y, columns) + x) / columns == y && (Row(y, columns) + x) % columns == x
  {
    RowIsProduct(y, columns);
    QuotientUnique(Row(y, columns) + x, y, x, columns);
  }

  /** Pixel `(px, py)` sits in byte column `px / 2` of its row. */
  lemma ByteOfPixel(px: nat, py: nat, columns: nat)
    ensures var k := Row(py, 2 * columns) + px; k / 2 == Row(py, columns) + px / 2 && k % 2 == px % 2
  {
    RowDoubled(py, columns);
  }

  /** A packed frame of even width holds `h` rows of `w / 2` bytes and of `w` pixels. */
  lemma FrameRows(w: int, h: int, frame: Bytes)
    requires FrameShape(w, h, frame)
    ensures 0 < |frame| == Row(h, w / 2) && 2 * |frame| == Row(h, w) == w * h && w == 2 * (w / 2)
  {
    RowIsProduct(h, w / 2);
    RowIsProduct(h, w);
    RowDoubled(h, w / 2);
    RowOrder(0, h, w / 2);
  }

  // ---------------------------------------------------------------------------------------------
  // Painting
  // ---------------------------------------------------------------------------------------------

  /** The primitive lies on a `w` by `h` display and carries two pixels per byte. */
  predicate Placed(p: Primitive, w: int, h: int) {
    && 0 <= p.x && 0 <= p.y && 0 < p.width && 0 < p.height
    && p.x + p.width <= w && p.y + p.height <= h
    && 2 * |p.pixels| == Row(p.height, p.width)
  }

  predicate Covers(p: Primitive, px: int, py: int) {
    p.x <= px < p.x + p.width && p.y <= py < p.y + p.height
  }

  function PaintedPixel(before: Nibble, p: Primitive, px: int, py: int): Nibble
    requires 0 <= p.width && 0 <= p.height && 2 * |p.pixels| == Row(p.height, p.width)
  {
    if Covers(p, px, py) then
      RowOrder(py - p.y, p.height, p.width);
      PixelAt(p.pixels, Row(py - p.y, p.width) + (px - p.x))
    else
      before
  }

  /** The tablet's framebuffer after a primitive has been applied; its pixels are continuous over the rectangle. */
  function Paint(fb: seq<Nibble>, w: int, h: int, p: Primitive): (r: seq<Nibble>)
    requires 0 < w && Placed(p, w, h)
    ensures |r| == |fb|
    ensures forall k | 0 <= k < |r| :: r[k] == PaintedPixel(fb[k], p, k % w, k / w)
  {
    seq(|fb|, k requires 0 <= k < |fb| => PaintedPixel(fb[k], p, k % w, k / w))
  }

  // ---------------------------------------------------------------------------------------------
  // The smallest rectangle around the changed bytes
  // ---------------------------------------------------------------------------------------------

  ghost predicate Differs(cur: Bytes, prev: Bytes, columns: nat, x: int, y: int) {
    0 <= x < columns && 0 <= y && Row(y, columns) + x < |cur| == |prev| &&
    cur[Row(y, columns) + x] != prev[Row(y, columns) + x]
  }

  /** A change in the rows above `y`, or among the first `x` bytes of row `y`. */
  ghost predicate Found(cur: Bytes, prev: Bytes, columns: nat, x: int, y: int, u: int, v: int) {
    (v < y || (v == y && u < x)) && Differs(cur, prev, columns, u, v)
  }

  /** The box holds every change found up to there, and each of its sides touches one. */
  ghost predicate Encloses(cur: Bytes, prev: Bytes, columns: nat, x: int, y: int, minX: int, minY: int, maxX: int,
                           maxY: int) {
    && (forall u, v | Found(cur, prev, columns, x, y, u, v) :: minX <= u <= maxX && minY <= v <= maxY)
    && (exists v :: Found(cur, prev, columns, x, y, minX, v))
    && (exists v :: Found(cur, prev, columns, x, y, maxX, v))
    && (exists u :: Found(cur, prev, columns, x, y, u, minY))
    && (exists u :: Found(cur, prev, columns, x, y, u, maxY))
  }

  ghost predicate IsBox(cur: Bytes, prev: Bytes, columns: nat, rows: nat, b: Box) {
    && b.minX <= b.maxX < columns && b.minY <= b.maxY < rows
    && Encloses(cur, prev, columns, 0, rows, b.minX, b.minY, b.maxX, b.maxY)
  }

  lemma BoxUnique(cur: Bytes, prev: Bytes, columns: nat, rows: nat, a: Box, b: Box)
    requires IsBox(cur, prev, columns, rows, a) && IsBox(cur, prev, columns, rows, b)
    ensures a == b
  {
  }

  ghost predicate ColumnDiffers(cur: Bytes, prev: Bytes, columns: nat, rows: nat, x: nat) {
    exists y :: 0 <= y < rows && Differs(cur, prev, columns, x, y)
  }

  ghost predicate RowDiffers(cur: Bytes, prev: Bytes, columns: nat, y: nat) {
    exists x :: 0 <= x < columns && Differs(cur, prev, columns, x, y)
  }

  lemma BoxExists(cur: Bytes, prev: Bytes, columns: nat, rows: nat)
    requires |cur| == |prev| == Row(rows, columns) && 0 < columns && cur != prev
    ensures exists b :: IsBox(cur, prev, columns, rows, b)
  {
    var k :| 0 <= k < |cur| && cur[k] != prev[k];
    Locate(k, columns, rows);
    var xs := set x: nat | 0 <= x < columns && ColumnDiffers(cur, prev, columns, rows, x);
    var ys := set y: nat | 0 <= y < rows && RowDiffers(cur, prev, columns, y);
    assert Differs(cur, prev, columns, k % columns, k / columns);
    assert k % columns in xs && k / columns in ys;
    var b := Box(Min(xs), Min(ys), Max(xs), Max(ys));
    forall x, y | Found(cur, prev, columns, 0, rows, x, y)
      ensures b.minX <= x <= b.maxX && b.minY <= y <= b.maxY
    {
      assert x in xs && y in ys;
    }
    assert b.minX in xs && b.maxX in xs && b.minY in ys && b.maxY in ys;
    SidesTouched(cur, prev, columns, rows, b);
    assert IsBox(cur, prev, columns, rows, b);
  }

  lemma SidesTouched(cur: Bytes, prev: Bytes, columns: nat, rows: nat, b: Box)
    requires ColumnDiffers(cur, prev, columns, rows, b.minX) && ColumnDiffers(cur, prev, columns, rows, b.maxX)
    requires RowDiffers(cur, prev, columns, b.minY) && RowDiffers(cur, prev, columns, b.maxY) && b.minY < rows
             && b.maxY < rows
    ensures exists v :: Found(cur, prev, columns, 0, rows, b.minX, v)
    ensures exists v :: Found(cur, prev, columns, 0, rows, b.maxX, v)
    ensures exists u :: Found(cur, prev, columns, 0, rows, u, b.minY)
    ensures exists u :: Found(cur, prev, columns, 0, rows, u, b.maxY)
  {
    var v1 :| 0 <= v1 < rows && Differs(cur, prev, columns, b.minX, v1);
    assert Found(cur, prev, columns, 0, rows, b.minX, v1);
    var v2 :| 0 <= v2 < rows && Differs(cur, prev, columns, b.maxX, v2);
    assert Found(cur, prev, columns, 0, rows, b.maxX, v2);
    var u1 :| 0 <= u1 < columns && Differs(cur, prev, columns, u1, b.minY);
    assert Found(cur, prev, columns, 0, rows, u1, b.minY);
    var u2 :| 0 <= u2 < columns && Differs(cur, prev, columns, u2, b.maxY);
    assert Found(cur, prev, columns, 0, rows, u2, b.maxY);
  }

  ghost function ChangedBox(cur: Bytes, prev: Bytes, columns: nat, rows: nat): (b: Box)
    requires |cur| == |prev| == Row(rows, columns) && 0 < columns && cur != prev
    ensures IsBox(cur, prev, columns, rows, b)
  {
    BoxExists(cur, prev, columns, rows);
    var b :| IsBox(cur, prev, columns, rows, b);
    b
  }

  /** Rows `top .. bottom` of a frame, `width` bytes each starting at column `left`, one after the other. */
  function CutRows(cur: Bytes, columns: nat, left: nat, width: nat, top: nat, bottom: nat): (pixels: Bytes)
    requires left + width <= columns && top <= bottom && Row(bottom, columns) <= |cur|
    ensures |pixels| == Row(bottom - top, width)
    decreases bottom
  {
    if top == bottom then []
    else
      var start := Row(bottom - 1, columns) + left;
      CutRows(cur, columns, left, width, top, bottom - 1) + cur[start..start + width]
  }

  lemma {:induction false} CutRowsAt(cur: Bytes, columns: nat, left: nat, width: nat, top: nat, bottom: nat, x: nat,
                                     y: nat)
    requires left + width <= columns && top <= bottom && Row(bottom, columns) <= |cur|
    requires x < width && top <= y < bottom
    ensures Row(y - top, width) + x < |CutRows(cur, columns, left, width, top, bottom)|
            && Row(y, columns) + left + x < |cur|
    ensures CutRows(cur, columns, left, width, top, bottom)[Row(y - top, width) + x] == cur[Row(y, columns) + left + x]
    decreases bottom
  {
    RowOrder(y, bottom, columns);
    RowOrder(y - top, bottom - top, width);
    if y < bottom - 1 {
      CutRowsAt(cur, columns, left, width, top, bottom - 1, x, y);
    }
  }

  ghost function CutBox(cur: Bytes, columns: nat, rows: nat, b: Box): Primitive
    requires |cur| == Row(rows, columns) && b.minX <= b.maxX < columns && b.minY <= b.maxY < rows
  {
    RowOrder(b.maxY, rows, columns);
    Primitive(2 * b.minX, b.minY, 2 * (b.maxX - b.minX + 1), b.maxY - b.minY + 1,
              CutRows(cur, columns, b.minX, b.maxX - b.minX + 1, b.minY, b.maxY + 1))
  }

  /** What `changedPrimitive` returns: the cut-out of the smallest changed box, or the whole frame. */
  ghost function Changed(cur: Bytes, prev: Bytes, w: int, h: int, prevW: int, prevH: int): Primitive {
    if !FrameShape(w, h, cur) || prevW != w || prevH != h || |prev| != |cur| || cur == prev then
      Primitive(0, 0, w, h, cur)
    else
      FrameRows(w, h, cur);
      CutBox(cur, w / 2, h, ChangedBox(cur, prev, w / 2, h))
  }

  // ---------------------------------------------------------------------------------------------
  // changedPrimitive
  // ---------------------------------------------------------------------------------------------

  /** The running extrema of the scan: their initial values until the first change is found. */
  ghost predicate Seen(cur: Bytes, prev: Bytes, columns: nat, h: nat, x: int, y: int, minX: int, minY: int, maxX: int,
                       maxY: int) {
    if maxX < 0 then
      && minX == columns && minY == h && maxY == -1
      && forall u, v :: !Found(cur, prev, columns, x, y, u, v)
    else
      Encloses(cur, prev, columns, x, y, minX, minY, maxX, maxY)
  }

  /** The scan position only matters through what has been found. */
  lemma SeenMoves(cur: Bytes, prev: Bytes, columns: nat, h: nat, x: int, y: int, x': int, y': int, minX: int, minY: int,
                  maxX: int, maxY: int)
    requires Seen(cur, prev, columns, h, x, y, minX, minY, maxX, maxY)
    requires forall u, v :: Found(cur, prev, columns, x', y', u, v) <==> Found(cur, prev, columns, x, y, u, v)
    ensures Seen(cur, prev, columns, h, x', y', minX, minY, maxX, maxY)
  {
    if 0 <= maxX {
      var v1 :| Found(cur, prev, columns, x, y, minX, v1);
      var v2 :| Found(cur, prev, columns, x, y, maxX, v2);
      var u1 :| Found(cur, prev, columns, x, y, u1, minY);
      var u2 :| Found(cur, prev, columns, x, y, u2, maxY);
      assert Found(cur, prev, columns, x', y', minX, v1) && Found(cur, prev, columns, x', y', maxX, v2);
      assert Found(cur, prev, columns, x', y', u1, minY) && Found(cur, prev, columns, x', y', u2, maxY);
    }
  }

  lemma SkipByte(cur: Bytes, prev: Bytes, columns: nat, h: nat, x: int, x': int, y: int, minX: int, minY: int,
                 maxX: int, maxY: int)
    requires !Differs(cur, prev, columns, x, y) && x' == x + 1
    requires Seen(cur, prev, columns, h, x, y, minX, minY, maxX, maxY)
    ensures Seen(cur, prev, columns, h, x', y, minX, minY, maxX, maxY)
  {
    SeenMoves(cur, prev, columns, h, x, y, x', y, minX, minY, maxX, maxY);
  }

  lemma EndRow(cur: Bytes, prev: Bytes, columns: nat, h: nat, y: int, y': int, minX: int, minY: int, maxX: int,
               maxY: int)
    requires Seen(cur, prev, columns, h, columns, y, minX, minY, maxX, maxY) && y' == y + 1
    ensures Seen(cur, prev, columns, h, 0, y', minX, minY, maxX, maxY)
  {
    SeenMoves(cur, prev, columns, h, columns, y, 0, y', minX, minY, maxX, maxY);
  }

  lemma Widen(cur: Bytes, prev: Bytes, columns: nat, h: nat, x: int, x': int, y: int, minX: int, minY: int, maxX: int,
              maxY: int)
    requires Differs(cur, prev, columns, x, y) && y < h && x' == x + 1
    requires Seen(cur, prev, columns, h, x, y, minX, minY, maxX, maxY)
    ensures Seen(cur, prev, columns, h, x', y, if x < minX then x else minX, if y < minY then y else minY,
                 if x > maxX then x else maxX, if y > maxY then y else maxY)
  {
    assert Found(cur, prev, columns, x', y, x, y);
    assert forall u, v :: Found(cur, prev, columns, x', y, u, v)
             <==> (u == x && v == y) || Found(cur, prev, columns, x, y, u, v);
    if 0 <= maxX {
      var v1 :| Found(cur, prev, columns, x, y, minX, v1);
      var v2 :| Found(cur, prev, columns, x, y, maxX, v2);
      var u1 :| Found(cur, prev, columns, x, y, u1, minY);
      var u2 :| Found(cur, prev, columns, x, y, u2, maxY);
      assert Found(cur, prev, columns, x', y, minX, v1) && Found(cur, prev, columns, x', y, maxX, v2);
      assert Found(cur, prev, columns, x', y, u1, minY) && Found(cur, prev, columns, x', y, u2, maxY);
    }
  }

  /** The inner scanning loop, over one row: it widens the running extrema at every changed byte. */
  method ScanRow(cur: Bytes, prev: Bytes, columns: nat, h: nat, y: nat, left: int, top: int, right: int, bottom: int)
    returns (minX: int, minY: int, maxX: int, maxY: int)
    requires |cur| == |prev| == Row(h, columns) && y < h
    requires Seen(cur, prev, columns, h, 0, y, left, top, right, bottom)
    ensures Seen(cur, prev, columns, h, 0, y + 1, minX, minY, maxX, maxY)
  {
    minX, minY, maxX, maxY := left, top, right, bottom;
    RowOrder(y, h, columns);
    var x := 0;
    while x < columns
      invariant 0 <= x <= columns
      invariant Seen(cur, prev, columns, h, x, y, minX, minY, maxX, maxY)
    {
      var i := Row(y, columns) + x;
      if cur[i] != prev[i] {
        Widen(cur, prev, columns, h, x, x + 1, y, minX, minY, maxX, maxY);
        minX, minY := if x < minX then x else minX, if y < minY then y else minY;
        maxX, maxY := if x > maxX then x else maxX, if y > maxY then y else maxY;
      } else {
        SkipByte(cur, prev, columns, h, x, x + 1, y, minX, minY, maxX, maxY);
      }
      x := x + 1;
    }
    EndRow(cur, prev, columns, h, y, y + 1, minX, minY, maxX, maxY);
  }

  /** The outer scanning loop. */
  method ScanChanges(cur: Bytes, prev: Bytes, columns: nat, h: nat) returns (minX: int, minY: int, maxX: int, maxY: int)
    requires |cur| == |prev| == Row(h, columns) && 0 < columns
    ensures Seen(cur, prev, columns, h, 0, h, minX, minY, maxX, maxY)
  {
    minX, minY, maxX, maxY := columns, h, -1, -1;
    var y := 0;
    while y < h
      invariant 0 <= y <= h
      invariant Seen(cur, prev, columns, h, 0, y, minX, minY, maxX, maxY)
    {
      minX, minY, maxX, maxY := ScanRow(cur, prev, columns, h, y, minX, minY, maxX, maxY);
      y := y + 1;
    }
  }

  lemma ScanResult(cur: Bytes, prev: Bytes, columns: nat, h: nat, minX: int, minY: int, maxX: int, maxY: int)
    requires |cur| == |prev| == Row(h, columns) && 0 < columns
    requires Seen(cur, prev, columns, h, 0, h, minX, minY, maxX, maxY)
    ensures maxX < 0 <==> cur == prev
    ensures cur != prev ==>
              && 0 <= minX && 0 <= minY && 0 <= maxY
              && Box(minX, minY, maxX, maxY) == ChangedBox(cur, prev, columns, h)
  {
    if maxX < 0 {
      NoDifference(cur, prev, columns, h);
    } else {
      var v :| Found(cur, prev, columns, 0, h, minX, v);
      assert cur[Row(v, columns) + minX] != prev[Row(v, columns) + minX];
      var u :| Found(cur, prev, columns, 0, h, u, maxY);
      assert IsBox(cur, prev, columns, h, Box(minX, minY, maxX, maxY));
      BoxUnique(cur, prev, columns, h, Box(minX, minY, maxX, maxY), ChangedBox(cur, prev, columns, h));
    }
  }

  lemma NoDifference(cur: Bytes, prev: Bytes, columns: nat, rows: nat)
    requires |cur| == |prev| == Row(rows, columns) && 0 < columns
    requires forall u, v :: !Found(cur, prev, columns, 0, rows, u, v)
    ensures cur == prev
  {
    forall k | 0 <= k < |cur|
      ensures cur[k] == prev[k]
    {
      Locate(k, columns, rows);
      assert !Found(cur, prev, columns, 0, rows, k % columns, k / columns);
    }
  }

  /** The copying loop: row after row of the rectangle is appended to the pixel buffer. */
  method CopyRows(cur: Bytes, columns: nat, left: nat, rowBytes: nat, top: nat, bottom: nat) returns (pixels: Bytes)
    requires left + rowBytes <= columns && top <= bottom && Row(bottom, columns) <= |cur|
    ensures pixels == CutRows(cur, columns, left, rowBytes, top, bottom)
  {
    pixels := [];
    var y := top;
    if top < bottom {
      RowOrder(top, bottom, columns);
    }
    while y < bottom
      invariant top <= y <= bottom && Row(y, columns) <= |cur|
      invariant pixels == CutRows(cur, columns, left, rowBytes, top, y)
    {
      RowOrder(y, bottom, columns);
      var start := Row(y, columns) + left;
      pixels := pixels + cur[start..start + rowBytes];
      y := y + 1;
    }
  }

  /**
   `changedPrimitive`: the whole frame when it cannot be compared or is unchanged, the changed rectangle otherwise.
   */
  method ChangedPrimitive(cur: Bytes, prev: Bytes, w: int, h: int, prevW: int, prevH: int) returns (p: Primitive)
    ensures p == Changed(cur, prev, w, h, prevW, prevH)
  {
    if w <= 0 || h <= 0 || w % 2 != 0 || |cur| != w / 2 * h || prevW != w || prevH != h || |prev| != |cur| {
      return Primitive(0, 0, w, h, cur);
    }
    FrameRows(w, h, cur);
    p := ChangedRegion(cur, prev, w / 2, h);
  }

  method ChangedRegion(cur: Bytes, prev: Bytes, columns: nat, h: nat) returns (p: Primitive)
    requires |cur| == |prev| == Row(h, columns) && 0 < columns
    ensures p == if cur == prev then Primitive(0, 0, 2 * columns, h, cur)
                 else CutBox(cur, columns, h, ChangedBox(cur, prev, columns, h))
  {
    var minX, minY, maxX, maxY := ScanChanges(cur, prev, columns, h);
    ScanResult(cur, prev, columns, h, minX, minY, maxX, maxY);
    if maxX < 0 {
      return Primitive(0, 0, 2 * columns, h, cur);
    }
    RowOrder(maxY, h, columns);
    var rowBytes := maxX - minX + 1;
    var pixels := CopyRows(cur, columns, minX, rowBytes, minY, maxY + 1);
    p := Primitive(minX * 2, minY, rowBytes * 2, maxY - minY + 1, pixels);
  }

  // ---------------------------------------------------------------------------------------------
  // Painting the changed rectangle restores the frame, and no smaller one does
  // ---------------------------------------------------------------------------------------------

  lemma BoxPlaced(cur: Bytes, columns: nat, h: nat, b: Box)
    requires |cur| == Row(h, columns) && b.minX <= b.maxX < columns && b.minY <= b.maxY < h
    ensures Placed(CutBox(cur, columns, h, b), 2 * columns, h)
  {
    RowDoubled(b.maxY - b.minY + 1, b.maxX - b.minX + 1);
  }

  /** Inside its rectangle the cut-out shows exactly the current frame. */
  lemma CutPixel(cur: Bytes, columns: nat, left: nat, width: nat, top: nat, bottom: nat, px: nat, py: nat)
    requires left + width <= columns && top <= bottom && Row(bottom, columns) <= |cur|
    requires 2 * left <= px < 2 * (left + width) && top <= py < bottom
    ensures var pixels := CutRows(cur, columns, left, width, top, bottom);
            && Row(py - top, 2 * width) + (px - 2 * left) < 2 * |pixels|
            && Row(py, 2 * columns) + px < 2 * |cur|
            && PixelAt(pixels, Row(py - top, 2 * width) + (px - 2 * left)) == PixelAt(cur, Row(py, 2 * columns) + px)
  {
    hide PixelAt, Row;
    var dx, dy := px - 2 * left, py - top;
    CutRowsAt(cur, columns, left, width, top, bottom, dx / 2, py);
    ByteOfPixel(dx, dy, width);
    ByteOfPixel(px, py, columns);
    SamePixel(CutRows(cur, columns, left, width, top, bottom), Row(dy, 2 * width) + dx, cur, Row(py, 2 * columns) + px);
  }

  lemma SamePixel(a: Bytes, i: nat, b: Bytes, j: nat)
    requires i / 2 < |a| && j / 2 < |b| && a[i / 2] == b[j / 2] && i % 2 == j % 2
    ensures i < 2 * |a| && j < 2 * |b| && PixelAt(a, i) == PixelAt(b, j)
  {
  }

  lemma PaintFull(cur: Bytes, w: int, h: int, fb: seq<Nibble>)
    requires FrameShape(w, h, cur) && |fb| == w * h
    ensures Placed(Primitive(0, 0, w, h, cur), w, h)
    ensures Paint(fb, w, h, Primitive(0, 0, w, h, cur)) == Unpack(cur)
  {
    FrameRows(w, h, cur);
    forall k | 0 <= k < |fb|
      ensures Paint(fb, w, h, Primitive(0, 0, w, h, cur))[k] == Unpack(cur)[k]
    {
      Locate(k, w, h);
    }
  }

  /** Outside the changed box both frames agree. */
  lemma OutsideBox(cur: Bytes, prev: Bytes, columns: nat, h: nat, b: Box, px: nat, py: nat)
    requires |prev| == |cur| == Row(h, columns) && IsBox(cur, prev, columns, h, b)
    requires px < 2 * columns && py < h && !Covers(CutBox(cur, columns, h, b), px, py)
    ensures Row(py, 2 * columns) + px < 2 * |cur|
    ensures PixelAt(cur, Row(py, 2 * columns) + px) == PixelAt(prev, Row(py, 2 * columns) + px)
  {
    RowOrder(py, h, columns);
    ByteOfPixel(px, py, columns);
    assert !Found(cur, prev, columns, 0, h, px / 2, py);
  }

  /**
   The whole frame is sent when there is no previous one of the same size to compare with, or nothing has changed.
   */
  lemma WholeFrame(cur: Bytes, prev: Bytes, w: int, h: int, prevW: int, prevH: int)
    ensures (cur == prev && prevW == w && prevH == h) || prevW != w || prevH != h || |prev| != |cur|
            || w <= 0 || h <= 0 || w % 2 != 0 || |cur| != w / 2 * h ==>
              Changed(cur, prev, w, h, prevW, prevH) == Primitive(0, 0, w, h, cur)
  {
    if FrameShape(w, h, cur) {
      FrameRows(w, h, cur);
    }
  }

  /** Painting what `changedPrimitive` returns onto the previous frame yields the current one. */
  lemma PatchRestores(cur: Bytes, prev: Bytes, w: int, h: int)
    requires FrameShape(w, h, cur) && FrameShape(w, h, prev)
    ensures Placed(Changed(cur, prev, w, h, w, h), w, h)
    ensures Paint(Unpack(prev), w, h, Changed(cur, prev, w, h, w, h)) == Unpack(cur)
  {
    FrameRows(w, h, cur);
    if cur == prev {
      PaintFull(cur, w, h, Unpack(prev));
    } else {
      PatchRestoresBox(cur, prev, w / 2, h, ChangedBox(cur, prev, w / 2, h));
    }
  }

  lemma PatchRestoresBox(cur: Bytes, prev: Bytes, columns: nat, h: nat, b: Box)
    requires 0 < columns && |cur| == |prev| == Row(h, columns) && IsBox(cur, prev, columns, h, b)
    ensures Placed(CutBox(cur, columns, h, b), 2 * columns, h)
    ensures Paint(Unpack(prev), 2 * columns, h, CutBox(cur, columns, h, b)) == Unpack(cur)
  {
    BoxPlaced(cur, columns, h, b);
    RowDoubled(h, columns);
    forall k | 0 <= k < 2 * |cur|
      ensures Paint(Unpack(prev), 2 * columns, h, CutBox(cur, columns, h, b))[k] == Unpack(cur)[k]
    {
      Locate(k, 2 * columns, h);
      PatchPixel(cur, prev, columns, h, b, CutBox(cur, columns, h, b), k % (2 * columns), k / (2 * columns));
    }
  }

  lemma PatchPixel(cur: Bytes, prev: Bytes, columns: nat, h: nat, b: Box, p: Primitive, px: nat, py: nat)
    requires |cur| == |prev| == Row(h, columns) && IsBox(cur, prev, columns, h, b)
    requires p == CutBox(cur, columns, h, b) && Placed(p, 2 * columns, h)
    requires px < 2 * columns && py < h
    ensures var k := Row(py, 2 * columns) + px;
            k < 2 * |cur| && PaintedPixel(PixelAt(prev, k), p, px, py) == PixelAt(cur, k)
  {
    if Covers(p, px, py) {
      InsideBox(cur, columns, h, b, p, px, py);
    } else {
      OutsideBox(cur, prev, columns, h, b, px, py);
    }
  }

  lemma InsideBox(cur: Bytes, columns: nat, h: nat, b: Box, p: Primitive, px: nat, py: nat)
    requires |cur| == Row(h, columns) && b.minX <= b.maxX < columns && b.minY <= b.maxY < h
    requires p == CutBox(cur, columns, h, b) && Placed(p, 2 * columns, h) && Covers(p, px, py)
    ensures Row(py, 2 * columns) + px < 2 * |cur|
    ensures forall before :: PaintedPixel(before, p, px, py) == PixelAt(cur, Row(py, 2 * columns) + px)
  {
    hide CutRows, PixelAt;
    RowOrder(b.maxY, h, columns);
    CutPixel(cur, columns, b.minX, b.maxX - b.minX + 1, b.minY, b.maxY + 1, px, py);
  }

  lemma DifferingPixel(cur: Bytes, prev: Bytes, i: nat) returns (k: nat)
    requires i < |cur| == |prev| && cur[i] != prev[i]
    ensures k / 2 == i && k < 2 * |cur| && PixelAt(cur, k) != PixelAt(prev, k)
  {
    assert cur[i] == cur[i] / 16 * 16 + cur[i] % 16;
    assert prev[i] == prev[i] / 16 * 16 + prev[i] % 16;
    k := if cur[i] % 16 != prev[i] % 16 then 2 * i else 2 * i + 1;
  }

  /** A primitive that turns one frame into the other covers every byte in which they differ. */
  lemma RestoringCovers(cur: Bytes, prev: Bytes, columns: nat, h: nat, q: Primitive, x: nat, y: nat)
    requires 0 < columns && |cur| == |prev|
    requires Placed(q, 2 * columns, h) && q.x % 2 == 0 && q.width % 2 == 0
    requires Paint(Unpack(prev), 2 * columns, h, q) == Unpack(cur)
    requires Differs(cur, prev, columns, x, y)
    ensures q.x <= 2 * x && 2 * x + 2 <= q.x + q.width && q.y <= y < q.y + q.height
  {
    var k := DifferingPixel(cur, prev, Row(y, columns) + x);
    var px := 2 * x + k % 2;
    RowDoubled(y, columns);
    Locates(px, y, 2 * columns);
    assert Unpack(cur)[k] == PaintedPixel(Unpack(prev)[k], q, k % (2 * columns), k / (2 * columns));
    EvenSpan(q.x, q.width, x, px);
  }

  lemma EvenSpan(start: int, width: int, x: int, px: int)
    requires start % 2 == 0 && width % 2 == 0 && px / 2 == x && start <= px < start + width
    ensures start <= 2 * x && 2 * x + 2 <= start + width
  {
  }

  /** No byte-aligned rectangle that does the same job is smaller in any direction. */
  lemma PatchMinimal(cur: Bytes, prev: Bytes, w: int, h: int, q: Primitive)
    requires FrameShape(w, h, cur) && FrameShape(w, h, prev) && cur != prev
    requires Placed(q, w, h) && q.x % 2 == 0 && q.width % 2 == 0
    requires Paint(Unpack(prev), w, h, q) == Unpack(cur)
    ensures var p := Changed(cur, prev, w, h, w, h);
            && q.x <= p.x && p.x + p.width <= q.x + q.width
            && q.y <= p.y && p.y + p.height <= q.y + q.height
  {
    FrameRows(w, h, cur);
    var b := ChangedBox(cur, prev, w / 2, h);
    var left :| Found(cur, prev, w / 2, 0, h, b.minX, left);
    RestoringCovers(cur, prev, w / 2, h, q, b.minX, left);
    var right :| Found(cur, prev, w / 2, 0, h, b.maxX, right);
    RestoringCovers(cur, prev, w / 2, h, q, b.maxX, right);
    var top :| Found(cur, prev, w / 2, 0, h, top, b.minY);
    RestoringCovers(cur, prev, w / 2, h, q, top, b.minY);
    var bottom :| Found(cur, prev, w / 2, 0, h, bottom, b.maxY);
    RestoringCovers(cur, prev, w / 2, h, q, bottom, b.maxY);
  }
}
