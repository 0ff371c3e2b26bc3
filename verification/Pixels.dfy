/** Four-bit grayscale framebuffers: packing order, the native 180-degree turn and touch coordinates. */
module Pixels {
  import opened Common

  type Nibble = n: int | 0 <= n < 16

  /** The four-bit pixel number `k` of a packed buffer: the left pixel of a byte is its low nibble. */
  function PixelAt(packed: Bytes, k: nat): Nibble
    requires k < 2 * |packed|
  {
    if k % 2 == 0 then packed[k / 2] % 16 else packed[k / 2] / 16
  }

  /** All pixels of a packed buffer in scan order. */
  function Unpack(packed: Bytes): (pixels: seq<Nibble>)
    ensures |pixels| == 2 * |packed|
    ensures forall k | 0 <= k < |pixels| :: pixels[k] == PixelAt(packed, k)
  {
    seq(2 * |packed|, k requires 0 <= k < 2 * |packed| => PixelAt(packed, k))
  }

  lemma UnpackInjective(a: Bytes, b: Bytes)
    requires Unpack(a) == Unpack(b)
    ensures a == b
  {
    assert |a| == |b| by {
      assert |Unpack(a)| == 2 * |a|;
    }
    forall i | 0 <= i < |a|
      ensures a[i] == b[i]
    {
      assert Unpack(a)[2 * i] == PixelAt(a, 2 * i) && Unpack(b)[2 * i] == PixelAt(b, 2 * i);
      assert Unpack(a)[2 * i + 1] == PixelAt(a, 2 * i + 1) && Unpack(b)[2 * i + 1] == PixelAt(b, 2 * i + 1);
      assert a[i] == a[i] / 16 * 16 + a[i] % 16;
      assert b[i] == b[i] / 16 * 16 + b[i] % 16;
    }
  }
}
