/** Reduction to sixteen gray levels: plain rounding, and Floyd-Steinberg error diffusion, over exact arithmetic. */
module Dither {
  import opened Common
  import opened Delta

  /** `math.Round` of a nonnegative number: halves go up. */
  function Round(v: real): int {
    (v + 0.5).Floor
  }

  function Clamp(v: real): (c: real)
    ensures 0.0 <= c <= 255.0
    ensures 0.0 <= v <= 255.0 ==> c == v
  {
    if v < 0.0 then 0.0 else if v > 255.0 then 255.0 else v
  }

  /** The nearest of the sixteen levels 0, 17, .. 255. */
  function Quantized(v: real): (q: Byte)
    requires 0.0 <= v <= 255.0
    ensures q % 17 == 0
    ensures -8.5 <= v - q as real < 8.5
  {
    var level := Round(v / 17.0);
    assert 17.0 * (v / 17.0) == v;
    assert 0 <= level <= 15;
    17 * level
  }

  // ---------------------------------------------------------------------------------------------
  // Plain quantisation
  // ---------------------------------------------------------------------------------------------

  method Quantize(pix: array<Byte>)
    modifies pix
    ensures forall i | 0 <= i < pix.Length :: pix[i] == Quantized(old(pix[i]) as real)
  {
    var i := 0;
    while i < pix.Length
      invariant 0 <= i <= pix.Length
      invariant forall j | 0 <= j < i :: pix[j] == Quantized(old(pix[j]) as real)
      invariant forall j | i <= j < pix.Length :: pix[j] == old(pix[j])
    {
      pix[i] := 17 * Round(pix[i] as real / 17.0);
      i := i + 1;
    }
  }

  /** No other level is nearer, and levels stay put. */
  lemma QuantizedNearest(v: Byte, level: nat)
    requires level <= 15
    ensures var q := Quantized(v as real);
            && -8 <= v - q <= 8
            && (if v >= q then v - q else q - v) <= (if v >= 17 * level then v - 17 * level else 17 * level - v)
            && (v == 17 * level ==> q == v)
  {
    var q := Quantized(v as real);
    assert -8.5 <= v as real - q as real <= 8.5;
    assert (v as real - q as real) == (v - q) as real;
    assert q == 17 * (q / 17);
  }

  // ---------------------------------------------------------------------------------------------
  // Floyd-Steinberg, as the textbook defines it
  // ---------------------------------------------------------------------------------------------

  function Gray(img: seq<Byte>, w: nat, x: int, y: int): Byte {
    if 0 <= x < w && 0 <= y && Row(y, w) + x < |img| then img[Row(y, w) + x] else 0
  }

  /** The error of pixel `(x, y)`: what it should show minus what it shows; nothing outside the picture. */
  function Error(img: seq<Byte>, w: nat, x: int, y: int): (e: real)
    ensures -8.5 <= e <= 8.5
    decreases y, x, 2
  {
    if x < 0 || w <= x || y < 0 then 0.0
    else
      var v := Clamp(Gray(img, w, x, y) as real + Incoming(img, w, x, y));
      v - Quantized(v) as real
  }

  /** What the row above passes down: 3/16 to the left, 5/16 straight, 1/16 to the right. */
  function Above(img: seq<Byte>, w: nat, x: int, y: int): (e: real)
    requires 0 <= y
    ensures -4.78125 <= e <= 4.78125
    decreases y, x, 0
  {
    Error(img, w, x + 1, y - 1) * 3.0 / 16.0 + Error(img, w, x, y - 1) * 5.0 / 16.0 + Error(img, w, x - 1, y - 1) / 16.0
  }

  /** All a pixel receives: 7/16 of the error to its left, and its share from above. */
  function Incoming(img: seq<Byte>, w: nat, x: int, y: int): (e: real)
    requires 0 <= x < w && 0 <= y
    ensures -8.5 <= e <= 8.5
    decreases y, x, 1
  {
    Above(img, w, x, y) + Error(img, w, x - 1, y) * 7.0 / 16.0
  }

  function Target(img: seq<Byte>, w: nat, x: int, y: int): real
    requires 0 <= x < w && 0 <= y
  {
    Gray(img, w, x, y) as real + Incoming(img, w, x, y)
  }

  function Output(img: seq<Byte>, w: nat, x: int, y: int): Byte
    requires 0 <= x < w && 0 <= y
  {
    Quantized(Clamp(Target(img, w, x, y)))
  }

  // ---------------------------------------------------------------------------------------------
  // Floyd-Steinberg, as `dither` computes it with two error rows
  // ---------------------------------------------------------------------------------------------

  /**
   What the first `x` pixels of row `y` have left in slot `j` of the next row's buffer; slot `j` feeds pixel `j - 1`.
   */
  ghost function Spilled(img: seq<Byte>, w: nat, x: int, y: int, j: int): real {
    (if j < x then Error(img, w, j, y) * 3.0 / 16.0 else 0.0)
    + (if j - 1 < x then Error(img, w, j - 1, y) * 5.0 / 16.0 else 0.0)
    + (if j - 2 < x then Error(img, w, j - 2, y) / 16.0 else 0.0)
  }

  /**
   The row buffer while row `y` is at pixel `x`: the next slot is complete, the slots after it lack the row's own share.
   */
  ghost predicate RowBuffer(errs: array<real>, img: seq<Byte>, w: nat, x: nat, y: nat)
    requires errs.Length == w + 2
    reads errs
  {
    && (x < w ==> errs[x + 1] == Incoming(img, w, x, y))
    && forall j | x + 1 < j <= w :: errs[j] == Above(img, w, j - 1, y)
  }

  ghost predicate NextBuffer(next: array<real>, img: seq<Byte>, w: nat, x: nat, y: nat)
    requires next.Length == w + 2
    reads next
  {
    forall j | 0 <= j <= w + 1 :: next[j] == Spilled(img, w, x, y, j)
  }

  /** The body of the inner loop: one pixel, its error spread over four slots. */
  method DitherPixel(gray: Byte, errs: array<real>, next: array<real>, x: nat) returns (q: Byte)
    requires errs.Length == next.Length && x + 2 < errs.Length && errs != next
    modifies errs, next
    ensures var v := Clamp(gray as real + old(errs[x + 1])); var e := v - Quantized(v) as real;
            && q == Quantized(v)
            && errs[x + 2] == old(errs[x + 2]) + e * 7.0 / 16.0
            && (forall j | 0 <= j < errs.Length && j != x + 2 :: errs[j] == old(errs[j]))
            && next[x] == old(next[x]) + e * 3.0 / 16.0
            && next[x + 1] == old(next[x + 1]) + e * 5.0 / 16.0
            && next[x + 2] == old(next[x + 2]) + e / 16.0
            && (forall j | 0 <= j < next.Length && !(x <= j <= x + 2) :: next[j] == old(next[j]))
  {
    var v := gray as real + errs[x + 1];
    if v < 0.0 {
      v := 0.0;
    }
    if v > 255.0 {
      v := 255.0;
    }
    q := Quantized(v);
    var e := v - q as real;
    errs[x + 2] := errs[x + 2] + e * 7.0 / 16.0;
    next[x] := next[x] + e * 3.0 / 16.0;
    next[x + 1] := next[x + 1] + e * 5.0 / 16.0;
    next[x + 2] := next[x + 2] + e / 16.0;
  }

  method DitherRow(pix: array<Byte>, ghost img: seq<Byte>, w: nat, y: nat, errs: array<real>, next: array<real>)
    requires errs.Length == next.Length == w + 2 && errs != next
    requires pix.Length == |img| && Row(y, w) + w <= |img|
    requires forall i | Row(y, w) <= i < pix.Length :: pix[i] == img[i]
    requires RowBuffer(errs, img, w, 0, y)
    modifies pix, errs, next
    ensures forall i | 0 <= i < pix.Length && !(Row(y, w) <= i < Row(y, w) + w) :: pix[i] == old(pix[i])
    ensures forall x | 0 <= x < w :: pix[Row(y, w) + x] == Output(img, w, x, y)
    ensures RowBuffer(next, img, w, 0, y + 1)
  {
    hide Quantized, Clamp, Row, Error;
    ghost var start := Row(y, w);
    var k := 0;
    while k < next.Length
      invariant 0 <= k <= next.Length
      invariant forall j | 0 <= j < k :: next[j] == 0.0
      modifies next
    {
      next[k] := 0.0;
      k := k + 1;
    }
    SpilledNone(img, w, y);
    var x := 0;
    while x < w
      invariant 0 <= x <= w
      invariant forall i | start + x <= i < pix.Length :: pix[i] == img[i]
      invariant forall i | 0 <= i < pix.Length && !(start <= i < start + w) :: pix[i] == old(pix[i])
      invariant forall j | 0 <= j < x :: pix[start + j] == Output(img, w, j, y)
      invariant RowBuffer(errs, img, w, x, y)
      invariant NextBuffer(next, img, w, x, y)
    {
      var q := DitherPixel(pix[Row(y, w) + x], errs, next, x);
      ErrorOf(img, w, x, y, q);
      SpilledGrows(img, w, x, y);
      pix[Row(y, w) + x] := q;
      x := x + 1;
    }
    SpilledIsAbove(img, w, y);
  }

  lemma ErrorOf(img: seq<Byte>, w: nat, x: nat, y: nat, q: Byte)
    requires x < w && Row(y, w) + x < |img|
    requires q == Quantized(Clamp(img[Row(y, w) + x] as real + Incoming(img, w, x, y)))
    ensures q == Output(img, w, x, y)
    ensures Error(img, w, x, y) == Clamp(img[Row(y, w) + x] as real + Incoming(img, w, x, y)) - q as real
  {
  }

  lemma SpilledNone(img: seq<Byte>, w: nat, y: nat)
    ensures forall j | 0 <= j :: Spilled(img, w, 0, y, j) == 0.0
  {
  }

  lemma SpilledGrows(img: seq<Byte>, w: nat, x: nat, y: nat)
    ensures var e := Error(img, w, x, y); var x' := x + 1;
            && Spilled(img, w, x', y, x) == Spilled(img, w, x, y, x) + e * 3.0 / 16.0
            && Spilled(img, w, x', y, x + 1) == Spilled(img, w, x, y, x + 1) + e * 5.0 / 16.0
            && Spilled(img, w, x', y, x + 2) == Spilled(img, w, x, y, x + 2) + e / 16.0
            && forall j | !(x <= j <= x + 2) :: Spilled(img, w, x', y, j) == Spilled(img, w, x, y, j)
  {
  }

  lemma SpilledIsAbove(img: seq<Byte>, w: nat, y: nat)
    ensures forall j | 1 <= j <= w :: Spilled(img, w, w, y, j) == Above(img, w, j - 1, y + 1)
    ensures w > 0 ==> Incoming(img, w, 0, y + 1) == Above(img, w, 0, y + 1)
  {
  }

  /** The image after error diffusion: every pixel of the top `rows` rows shows the textbook's output. */
  ghost predicate Diffused(pix: seq<Byte>, img: seq<Byte>, w: nat, rows: nat)
    requires |pix| == |img| && Row(rows, w) <= |img|
  {
    && (forall x, y | 0 <= x < w && 0 <= y < rows :: Shows(pix, img, w, x, y))
    && forall i | Row(rows, w) <= i < |pix| :: pix[i] == img[i]
  }

  ghost predicate Shows(pix: seq<Byte>, img: seq<Byte>, w: nat, x: nat, y: nat)
    requires x < w
  {
    Row(y, w) + x < |pix| && pix[Row(y, w) + x] == Output(img, w, x, y)
  }

  /** One more row. */
  lemma DiffusedNext(before: seq<Byte>, after: seq<Byte>, img: seq<Byte>, w: nat, y: nat)
    requires |before| == |after| == |img| && Row(y, w) + w <= |img| && Diffused(before, img, w, y)
    requires forall i | 0 <= i < |after| && !(Row(y, w) <= i < Row(y, w) + w) :: after[i] == before[i]
    requires forall x | 0 <= x < w :: after[Row(y, w) + x] == Output(img, w, x, y)
    ensures Diffused(after, img, w, y + 1)
  {
    hide Output;
    forall x, v | 0 <= x < w && 0 <= v < y + 1
      ensures Shows(after, img, w, x, v)
    {
      if v < y {
        RowOrder(v, y, w);
        assert Shows(before, img, w, x, v);
      }
    }
  }

  /** `dither`: two row buffers, swapped after every row, give exactly the textbook's picture. */
  method DitherImage(pix: array<Byte>, w: nat, h: nat)
    requires pix.Length == Row(h, w)
    modifies pix
    ensures Diffused(pix[..], old(pix[..]), w, h)
  {
    hide Output, Incoming, Above, Shows;
    ghost var img := pix[..];
    var errs := new real[w + 2](_ => 0.0);
    var next := new real[w + 2](_ => 0.0);
    var y := 0;
    FirstRowReceivesNothing(img, w);
    while y < h
      invariant 0 <= y <= h && Row(y, w) <= pix.Length == |img|
      invariant errs.Length == next.Length == w + 2 && errs != next && fresh(errs) && fresh(next)
      invariant Diffused(pix[..], img, w, y)
      invariant RowBuffer(errs, img, w, 0, y)
    {
      if y + 1 < h {
        RowOrder(y, h, w);
      }
      assert Row(y + 1, w) == Row(y, w) + w <= pix.Length;
      ghost var before := pix[..];
      assert forall i | Row(y, w) <= i < pix.Length :: before[i] == img[i];
      DitherRow(pix, img, w, y, errs, next);
      DiffusedNext(before, pix[..], img, w, y);
      errs, next := next, errs;
      y := y + 1;
    }
  }

  lemma FirstRowReceivesNothing(img: seq<Byte>, w: nat)
    ensures forall x :: Above(img, w, x, 0) == 0.0
    ensures w > 0 ==> Incoming(img, w, 0, 0) == 0.0
  {
  }

  // ---------------------------------------------------------------------------------------------
  // Conservation
  // ---------------------------------------------------------------------------------------------

  /** What clamping to 0..255 throws away at one pixel. */
  function Loss(img: seq<Byte>, w: nat, x: int, y: int): (l: real)
    requires 0 <= x < w && 0 <= y
    ensures -8.5 <= l <= 8.5
  {
    Target(img, w, x, y) - Clamp(Target(img, w, x, y))
  }

  /** Only a value outside the gray range loses anything, and exactly what lies outside. */
  lemma LossExactly(img: seq<Byte>, w: nat, x: int, y: int)
    requires 0 <= x < w && 0 <= y
    ensures Loss(img, w, x, y) == 0.0 <==> 0.0 <= Target(img, w, x, y) <= 255.0
    ensures Target(img, w, x, y) < 0.0 ==> Loss(img, w, x, y) == Target(img, w, x, y)
    ensures Target(img, w, x, y) > 255.0 ==> Loss(img, w, x, y) == Target(img, w, x, y) - 255.0
  {
    hide Target;
  }

  /** The sum of the first `n` errors of a row. */
  ghost function ErrorSum(img: seq<Byte>, w: nat, y: int, n: nat): (s: real)
    ensures -8.5 * n as real <= s <= 8.5 * n as real
  {
    if n == 0 then 0.0 else ErrorSum(img, w, y, n - 1) + Error(img, w, n - 1, y)
  }

  ghost function AboveSum(img: seq<Byte>, w: nat, y: nat, n: nat): (s: real)
    ensures -4.78125 * n as real <= s <= 4.78125 * n as real
  {
    if n == 0 then 0.0 else AboveSum(img, w, y, n - 1) + Above(img, w, n - 1, y)
  }

  ghost function InputSum(img: seq<Byte>, w: nat, y: nat, n: nat): int {
    if n == 0 then 0 else InputSum(img, w, y, n - 1) + Gray(img, w, n - 1, y)
  }

  ghost function OutputSum(img: seq<Byte>, w: nat, y: nat, n: nat): int
    requires n <= w
  {
    if n == 0 then 0 else OutputSum(img, w, y, n - 1) + Output(img, w, n - 1, y)
  }

  ghost function LossSum(img: seq<Byte>, w: nat, y: nat, n: nat): real
    requires n <= w
  {
    if n == 0 then 0.0 else LossSum(img, w, y, n - 1) + Loss(img, w, n - 1, y)
  }

  /** Across one row: gray values and received errors come out as levels, losses and errors. */
  lemma {:induction false} RowBalance(img: seq<Byte>, w: nat, y: nat, n: nat)
    requires n <= w
    ensures InputSum(img, w, y, n) as real + AboveSum(img, w, y, n)
              + (ErrorSum(img, w, y, n) - Error(img, w, n - 1, y)) * 7.0 / 16.0
         == OutputSum(img, w, y, n) as real + LossSum(img, w, y, n) + ErrorSum(img, w, y, n)
  {
    hide Quantized, Clamp, Gray, Above;
    if n > 0 {
      RowBalance(img, w, y, n - 1);
      PixelBalance(img, w, n - 1, y);
    }
  }

  lemma PixelBalance(img: seq<Byte>, w: nat, x: nat, y: nat)
    requires x < w
    ensures Gray(img, w, x, y) as real + Above(img, w, x, y) + Error(img, w, x - 1, y) * 7.0 / 16.0
         == Output(img, w, x, y) as real + Loss(img, w, x, y) + Error(img, w, x, y)
  {
  }

  /** What a row passes down into the picture: 9/16 of its errors, except where they fall off its ends. */
  lemma {:induction false} PassedDown(img: seq<Byte>, w: nat, y: nat, n: nat)
    requires 0 < n <= w
    ensures AboveSum(img, w, y, n)
         == (ErrorSum(img, w, y - 1, n) - Error(img, w, 0, y - 1) + Error(img, w, n, y - 1)) * 3.0 / 16.0
                                      + ErrorSum(img, w, y - 1, n) * 5.0 / 16.0
                                      + (ErrorSum(img, w, y - 1, n) - Error(img, w, n - 1, y - 1)) / 16.0
  {
    hide Error;
    if n > 1 {
      PassedDown(img, w, y, n - 1);
    } else {
      assert AboveSum(img, w, y, 1) == AboveSum(img, w, y, 0) + Above(img, w, 0, y);
      assert ErrorSum(img, w, y - 1, 1) == ErrorSum(img, w, y - 1, 0) + Error(img, w, 0, y - 1);
      LeftOfPicture(img, w, y - 1);
    }
  }

  lemma LeftOfPicture(img: seq<Byte>, w: nat, y: int)
    ensures Error(img, w, -1, y) == 0.0 && Error(img, w, w, y) == 0.0
  {
  }

  /** Errors row `y` pushes over the left and right edges. */
  ghost function Edge(img: seq<Byte>, w: nat, y: nat): (e: real)
    ensures -5.84375 <= e <= 5.84375
  {
    Error(img, w, 0, y) * 3.0 / 16.0 + Error(img, w, w - 1, y) / 2.0
  }

  ghost function TotalInput(img: seq<Byte>, w: nat, rows: nat): int {
    if rows == 0 then 0 else TotalInput(img, w, rows - 1) + InputSum(img, w, rows - 1, w)
  }

  ghost function TotalOutput(img: seq<Byte>, w: nat, rows: nat): int {
    if rows == 0 then 0 else TotalOutput(img, w, rows - 1) + OutputSum(img, w, rows - 1, w)
  }

  ghost function TotalLoss(img: seq<Byte>, w: nat, rows: nat): real {
    if rows == 0 then 0.0 else TotalLoss(img, w, rows - 1) + LossSum(img, w, rows - 1, w)
  }

  /** Errors pushed over the side edges by the top rows. */
  ghost function TotalEdge(img: seq<Byte>, w: nat, rows: nat): (e: real)
    ensures -5.84375 * rows as real <= e <= 5.84375 * rows as real
  {
    if rows == 0 then 0.0 else TotalEdge(img, w, rows - 1) + Edge(img, w, rows - 1)
  }

  /**
   For every picture: the gray put in is the gray put out, plus what clamping discarded, plus the errors pushed over
   the left and right edges, plus what the last row still holds for a row below.
   */
  lemma {:induction false} Conservation(img: seq<Byte>, w: nat, rows: nat)
    ensures TotalInput(img, w, rows) as real
         == TotalOutput(img, w, rows) as real + TotalLoss(img, w, rows) + TotalEdge(img, w, rows)
             + AboveSum(img, w, rows, w)
  {
    hide Error, Above, Gray, Output, Loss;
    if rows == 0 {
      NothingAboveFirst(img, w, w);
    } else {
      Conservation(img, w, rows - 1);
      RowBalance(img, w, rows - 1, w);
      LeftOfPicture(img, w, rows - 1);
      if w > 0 {
        PassedDown(img, w, rows, w);
      }
    }
  }

  lemma {:induction false} NothingAboveFirst(img: seq<Byte>, w: nat, n: nat)
    ensures AboveSum(img, w, 0, n) == 0.0
  {
    if n > 0 {
      NothingAboveFirst(img, w, n - 1);
      FirstRowReceivesNothing(img, w);
    }
  }

  /**
   Apart from clamping, the tone of a whole picture moves by no more than a few levels per row and column of its border.
   */
  lemma ToneKept(img: seq<Byte>, w: nat, h: nat)
    ensures var change := TotalInput(img, w, h) as real - TotalOutput(img, w, h) as real - TotalLoss(img, w, h);
            -5.84375 * h as real - 4.78125 * w as real <= change <= 5.84375 * h as real + 4.78125 * w as real
  {
    Conservation(img, w, h);
  }
}
