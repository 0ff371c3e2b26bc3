/** From the grayscale preview to the native framebuffer: nibble packing, the 180-degree turn, and touch coordinates. */
module Framebuffer {
  import opened Common
  import opened Pixels

  // ---------------------------------------------------------------------------------------------
  // Packing
  // ---------------------------------------------------------------------------------------------

  /** The 4-bit level of a gray value. */
  function Level(gray: Byte): Nibble {
    gray / 17
  }

  function PackPair(left: Nibble, right: Nibble): Byte {
    right * 16 + left
  }

  /** Byte `i` of a packed row of gray values. */
  function PairAt(gray: seq<Byte>, i: nat): Byte
    requires 2 * i + 1 < |gray|
  {
    PackPair(Level(gray[2 * i]), Level(gray[2 * i + 1]))
  }

  /** Two pixels per byte, in scan order. */
  function Pack(pixels: seq<Nibble>): (packed: Bytes)
    requires |pixels| % 2 == 0
    ensures |packed| == |pixels| / 2
  {
    seq(|pixels| / 2, i requires 0 <= i < |pixels| / 2 => PackPair(pixels[2 * i], pixels[2 * i + 1]))
  }

  lemma UnpackPack(pixels: seq<Nibble>)
    requires |pixels| % 2 == 0
    ensures Unpack(Pack(pixels)) == pixels
  {
    forall k | 0 <= k < |pixels|
      ensures Unpack(Pack(pixels))[k] == pixels[k]
    {
      assert Pack(pixels)[k / 2] == PackPair(pixels[2 * (k / 2)], pixels[2 * (k / 2) + 1]);
    }
  }

  lemma PackUnpack(packed: Bytes)
    ensures Pack(Unpack(packed)) == packed
  {
    UnpackPack(Unpack(packed));
    UnpackInjective(Pack(Unpack(packed)), packed);
  }

  function Levels(gray: seq<Byte>): (pixels: seq<Nibble>)
    ensures |pixels| == |gray|
  {
    seq(|gray|, k requires 0 <= k < |gray| => Level(gray[k]))
  }

  lemma EvenRows(width: nat, y: nat)
    requires width % 2 == 0
    ensures y * width % 2 == 0
  {
    assert y * width == 2 * (y * (width / 2));
  }

  /** The packing loop of `Process`, for the even widths it insists on. */
  method PackRows(gray: seq<Byte>, width: nat, height: nat) returns (packed: array<Byte>)
    requires width % 2 == 0 && |gray| == width * height
    ensures |gray| % 2 == 0 && packed[..] == Pack(Levels(gray))
  {
    EvenRows(width, height);
    packed := new Byte[width * height / 2](_ => 0);
    var y := 0;
    while y < height
      invariant 0 <= y <= height && packed.Length == |gray| / 2
      invariant Packed(gray, packed, y * width)
    {
      EvenRows(width, y);
      RowFits(width, height, y);
      PackRow(gray, width, y * width, packed);
      y := y + 1;
    }
  }

  ghost predicate Packed(gray: seq<Byte>, packed: array<Byte>, count: int)
    requires packed.Length == |gray| / 2
    reads packed
  {
    forall i | 0 <= i < packed.Length && 2 * i < count :: packed[i] == PairAt(gray, i)
  }

  lemma RowFits(width: nat, height: nat, y: nat)
    requires y < height
    ensures 0 <= y * width && y * width + width <= width * height && (y + 1) * width == y * width + width
  {
    assert (height - y - 1) * width >= 0;
    assert width * height == y * width + width + (height - y - 1) * width;
  }

  /** One row: the left pixel goes to the low nibble. A right pixel is missing only for odd widths. */
  method PackRow(gray: seq<Byte>, width: nat, start: nat, packed: array<Byte>)
    requires width % 2 == 0 && start % 2 == 0 && start + width <= |gray| && packed.Length == |gray| / 2
    requires Packed(gray, packed, start)
    modifies packed
    ensures Packed(gray, packed, start + width)
  {
    var x := 0;
    while x < width
      invariant 0 <= x <= width && x % 2 == 0
      invariant Packed(gray, packed, start + x)
    {
      var a := Level(gray[start + x]);
      var b := 15;
      if x + 1 < width {
        b := Level(gray[start + x + 1]);
      }
      ghost var i := (start + x) / 2;
      assert 2 * i == start + x && PackPair(a, b) == PairAt(gray, i);
      packed[(start + x) / 2] := PackPair(a, b);
      x := x + 2;
    }
  }

  // ---------------------------------------------------------------------------------------------
  // The native orientation
  // ---------------------------------------------------------------------------------------------

  /** `value<<4 | value>>4` on a byte. */
  function SwapNibbles(value: Byte): Byte {
    value * 16 % 256 + value / 16
  }

  lemma Swapped(value: Byte)
    ensures SwapNibbles(value) % 16 == value / 16 && SwapNibbles(value) / 16 == value % 16
  {
    var high, low := value / 16, value % 16;
    assert value == 16 * high + low && (value as int) * 16 == 256 * high + 16 * low;
    assert SwapNibbles(value) == 16 * low + high;
  }

  function Rotated(packed: Bytes): (r: Bytes)
    ensures |r| == |packed|
  {
    seq(|packed|, i requires 0 <= i < |packed| => SwapNibbles(packed[|packed| - 1 - i]))
  }

  method RotatePacked180(packed: array<Byte>) returns (out: array<Byte>)
    ensures fresh(out) && out[..] == Rotated(packed[..])
  {
    out := new Byte[packed.Length](_ => 0);
    var i := 0;
    while i < packed.Length
      invariant 0 <= i <= packed.Length
      invariant forall j | packed.Length - i <= j < packed.Length ::
                  out[j] == SwapNibbles(packed[packed.Length - 1 - j])
    {
      out[packed.Length - 1 - i] := SwapNibbles(packed[i]);
      i := i + 1;
    }
  }

  /** Turning by 180 degrees reverses the pixels in scan order. */
  lemma RotatedPixel(packed: Bytes, k: nat)
    requires k < 2 * |packed|
    ensures PixelAt(Rotated(packed), k) == PixelAt(packed, 2 * |packed| - 1 - k)
  {
    var value := packed[|packed| - 1 - k / 2];
    assert Rotated(packed)[k / 2] == SwapNibbles(value);
    Swapped(value);
    assert (2 * |packed| - 1 - k) / 2 == |packed| - 1 - k / 2;
  }

  /** Turning twice gives the frame back. */
  lemma RotateTwice(packed: Bytes)
    ensures Rotated(Rotated(packed)) == packed
  {
    forall k | 0 <= k < 2 * |packed|
      ensures Unpack(Rotated(Rotated(packed)))[k] == Unpack(packed)[k]
    {
      RotatedPixel(Rotated(packed), k);
      RotatedPixel(packed, 2 * |packed| - 1 - k);
    }
    UnpackInjective(Rotated(Rotated(packed)), packed);
  }

  // ---------------------------------------------------------------------------------------------
  // Touch
  // ---------------------------------------------------------------------------------------------

  function PhysicalCoordinates(rawX: U32, rawY: U32, width: U32, height: U32): (r: Result<(U32, U32)>)
    ensures r.Ok? <==> rawX < width && rawY < height
  {
    if width == 0 || height == 0 || rawX >= width || rawY >= height then Err("touch coordinate outside display bounds")
    else Ok((width - 1 - rawX, height - 1 - rawY))
  }

  /** The framebuffer `Render` sends for a preview. */
  function WirePixels(gray: seq<Byte>): Bytes
    requires |gray| % 2 == 0
  {
    Rotated(Pack(Levels(gray)))
  }

  /** The framebuffer holds the preview's pixels in reverse scan order. */
  lemma WirePixel(gray: seq<Byte>, k: nat)
    requires |gray| % 2 == 0 && k < |gray|
    ensures PixelAt(WirePixels(gray), k) == Level(gray[|gray| - 1 - k])
  {
    var packed := Pack(Levels(gray));
    RotatedPixel(packed, k);
    UnpackPack(Levels(gray));
    assert Unpack(packed)[|gray| - 1 - k] == PixelAt(packed, |gray| - 1 - k);
  }

  lemma OppositePixel(width: int, height: int, x: int, y: int)
    requires 0 <= x < width && 0 <= y < height
    ensures 0 <= y * width + x < width * height
    ensures width * height - 1 - (y * width + x) == (height - 1 - y) * width + (width - 1 - x)
  {
    Distribute(height, y, width);
    NonNegative(height - 1 - y, width);
    NonNegative(y, width);
    Distribute(height - y, 1, width);
  }

  lemma Distribute(a: int, b: int, c: int)
    ensures (a - b) * c == a * c - b * c && a * c == c * a
  {
  }

  lemma NonNegative(a: int, c: int)
    requires 0 <= a && 0 <= c
    ensures 0 <= a * c
  {
  }

  /**
   What you touch is what you see: the pixel in the framebuffer at the native coordinates the tablet reports is the
   preview's pixel at the physical coordinates the server makes of them.
   */
  lemma TouchMeetsPreview(gray: seq<Byte>, width: U32, height: U32, rawX: U32, rawY: U32)
    requires width % 2 == 0 && |gray| == width * height && rawX < width && rawY < height
    ensures |gray| % 2 == 0 && PhysicalCoordinates(rawX, rawY, width, height).Ok?
    ensures var p := PhysicalCoordinates(rawX, rawY, width, height).value;
            && 0 <= rawY * width + rawX < 2 * |WirePixels(gray)| && 0 <= p.1 * width + p.0 < |gray|
            && PixelAt(WirePixels(gray), rawY * width + rawX) == Level(gray[p.1 * width + p.0])
            && (gray[p.1 * width + p.0] % 17 == 0 ==>
                  17 * PixelAt(WirePixels(gray), rawY * width + rawX) == gray[p.1 * width + p.0])
  {
    hide PixelAt, Rotated, Pack, Levels;
    EvenRows(width, height);
    assert |gray| == height * width;
    OppositePixel(width, height, rawX, rawY);
    WirePixel(gray, rawY * width + rawX);
  }
}
