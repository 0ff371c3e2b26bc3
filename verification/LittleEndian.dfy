/** Little-endian fields, as values and written in place into a buffer. */
module LittleEndian {
  import opened Common

  function Put32(n: U32): (b: Bytes)
    ensures |b| == 4
  {
    [n % 256, n / 256 % 256, n / 65536 % 256, n / 16777216]
  }

  function Get32(b: Bytes): U32
    requires |b| == 4
  {
    b[0] + 256 * (b[1] as int) + 65536 * (b[2] as int) + 16777216 * (b[3] as int)
  }

  function Put16(n: int): (b: Bytes)
    requires 0 <= n < 65536
    ensures |b| == 2
  {
    [n % 256, n / 256]
  }

  function Get16(b: Bytes): (n: int)
    requires |b| == 2
    ensures 0 <= n < 65536
  {
    b[0] + 256 * (b[1] as int)
  }

  lemma Get32Put32(n: U32)
    ensures Get32(Put32(n)) == n
  {
    assert n == 256 * (n / 256) + n % 256;
    assert n / 256 == 256 * (n / 65536) + n / 256 % 256;
    assert n / 65536 == 256 * (n / 16777216) + n / 65536 % 256;
  }

  lemma Put32Get32(b: Bytes)
    requires |b| == 4
    ensures Put32(Get32(b)) == b
  {
    assert Get32(b) / 256 == b[1] + 256 * (b[2] as int) + 65536 * (b[3] as int);
    assert Get32(b) / 65536 == b[2] + 256 * (b[3] as int);
    assert Get32(b) / 16777216 == b[3];
  }

  lemma Get16Put16(n: int)
    requires 0 <= n < 65536
    ensures Get16(Put16(n)) == n
  {
  }

  /** `le.PutUint32(buf[off:], v)` and `copy(buf[off:], data)`: the slice changes, everything beside it stays. */
  method Write(buf: array<Byte>, off: nat, data: Bytes)
    requires off + |data| <= buf.Length
    modifies buf
    ensures buf[off..off + |data|] == data
    ensures buf[..off] == old(buf[..off]) && buf[off + |data|..] == old(buf[off + |data|..])
    ensures forall i | 0 <= i < buf.Length && !(off <= i < off + |data|) :: buf[i] == old(buf[i])
  {
    var i := 0;
    while i < |data|
      invariant 0 <= i <= |data|
      invariant forall j | 0 <= j < i :: buf[off + j] == data[j]
      invariant forall j | 0 <= j < buf.Length && !(off <= j < off + |data|) :: buf[j] == old(buf[j])
    {
      buf[off + i] := data[i];
      i := i + 1;
    }
  }
}
