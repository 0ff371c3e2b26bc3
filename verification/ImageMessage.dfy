/** The logical image message: a 56-byte header, then each primitive's 24-byte header and packed pixels. */
module ImageMessage {
  import opened Common
  import opened LittleEndian
  import opened Delta
  import Lz4
  import Record

  type Uuid = b: Bytes | |b| == 16 witness seq(16, _ => 0)

  /** What `BuildImagePrimitives` accepts. */
  predicate ValidPrimitive(p: Primitive) {
    && 0 <= p.x <= 65535 && 0 <= p.y <= 65535 && 0 < p.width <= 65535 && 0 < p.height <= 65535
    && p.x + p.width <= 65536 && p.y + p.height <= 65536
    && p.width * p.height % 2 == 0 && |p.pixels| == p.width * p.height / 2
  }

  function PrimitiveHeader(p: Primitive): (h: Bytes)
    requires ValidPrimitive(p)
    ensures |h| == 24
  {
    Put32(1) + Put32(p.y * 65536 + p.x) + Put16(p.width) + Put16(p.height) + Put32(0x102) + Put32(4)
        + Put32(Trunc32(|p.pixels|))
  }

  ghost predicate AllValid(ps: seq<Primitive>) {
    forall p | p in ps :: ValidPrimitive(p)
  }

  function Primitives(ps: seq<Primitive>): Bytes
    requires AllValid(ps)
  {
    if ps == [] then [] else PrimitiveHeader(ps[0]) + ps[0].pixels + Primitives(ps[1..])
  }

  const ZERO: Bytes := [0, 0, 0, 0]

  function MessageHeader(uuid: Uuid, kind: U32, frameID: U32, count: nat, size: nat): (h: Bytes)
    ensures |h| == 56
  {
    ZERO + uuid + Put32(5) + Put32(kind) + Put32(Trunc32(size - 36)) + ZERO + Put32(frameID) + Put32(Trunc32(count))
    + ZERO + Put32(Trunc32(size - 56)) + ZERO
  }

  function Logical(uuid: Uuid, kind: U32, frameID: U32, ps: seq<Primitive>): Bytes
    requires AllValid(ps)
  {
    MessageHeader(uuid, kind, frameID, |ps|, 56 + |Primitives(ps)|) + Primitives(ps)
  }

  function AllPixels(ps: seq<Primitive>): Bytes {
    if ps == [] then [] else ps[0].pixels + AllPixels(ps[1..])
  }

  /** The checksum is over the pixels of all primitives in their order. */
  lemma {:induction false} PixelsConcatenate(first: seq<Primitive>, p: Primitive, second: seq<Primitive>)
    ensures AllPixels(first + [p] + second) == AllPixels(first) + p.pixels + AllPixels(second)
  {
    if first == [] {
      assert [] + [p] + second == [p] + second && ([p] + second)[1..] == second;
    } else {
      PixelsConcatenate(first[1..], p, second);
      assert (first + [p] + second)[1..] == first[1..] + [p] + second;
    }
  }

  /** A frame id of 0 is replaced by a checksum of the pixels, and that by 1 should it be 0 too. */
  function EffectiveID(frameID: U32, ps: seq<Primitive>, crc: Record.Checksum): (id: U32)
    ensures id != 0
  {
    if frameID != 0 then frameID
    else
      var sum := crc(AllPixels(ps));
      if sum == 0 then 1 else sum
  }

  /** What `BuildImagePrimitives` returns. */
  ghost function Build(uuid: Uuid, kind: U32, frameID: U32, ps: seq<Primitive>, compress: Lz4.Compressor,
                       crc: Record.Checksum): Result<Bytes> {
    if ps == [] then Err("image requires at least one primitive")
    else if !AllValid(ps) then Err("invalid packed image primitive")
    else
      match Lz4.Payload(Logical(uuid, kind, EffectiveID(frameID, ps, crc), ps), compress)
      case Err(m) => Err(m)
      case Ok(payload) =>
        if |payload| > Record.MAX_PAYLOAD then Err("pv3 payload exceeds limit")
        else Ok(Record.Wire(Record.Record(3, 0, 1, payload), crc))
  }

  // ---------------------------------------------------------------------------------------------
  // BuildImagePrimitives
  // ---------------------------------------------------------------------------------------------

  lemma PrimitivesSnoc(ps: seq<Primitive>, k: nat)
    requires AllValid(ps) && k < |ps|
    ensures AllValid(ps[..k]) && AllValid(ps[..k + 1])
    ensures Primitives(ps[..k + 1]) == Primitives(ps[..k]) + PrimitiveHeader(ps[k]) + ps[k].pixels
  {
    hide PrimitiveHeader;
    if k == 0 {
      assert ps[..1] == [ps[0]] && ps[..1][1..] == [];
    } else {
      PrimitivesSnoc(ps[1..], k - 1);
      assert ps[..k + 1][1..] == ps[1..][..k] && ps[..k][1..] == ps[1..][..k - 1];
      assert ps[..k + 1][0] == ps[0] && ps[..k][0] == ps[0];
    }
  }

  lemma PrimitivesPrefix(ps: seq<Primitive>, k: nat)
    requires AllValid(ps) && k <= |ps|
    ensures AllValid(ps[..k]) && |Primitives(ps[..k])| <= |Primitives(ps)|
    decreases |ps| - k
  {
    if k < |ps| {
      PrimitivesSnoc(ps, k);
      PrimitivesPrefix(ps, k + 1);
    } else {
      assert ps[..k] == ps;
    }
  }

  lemma ValidSnoc(ps: seq<Primitive>, k: nat)
    requires k < |ps| && AllValid(ps[..k]) && ValidPrimitive(ps[k])
    ensures AllValid(ps[..k + 1])
    ensures |Primitives(ps[..k + 1])| == |Primitives(ps[..k])| + 24 + |ps[k].pixels|
  {
    hide PrimitiveHeader, ValidPrimitive;
    var front := ps[..k + 1];
    forall p | p in front
      ensures ValidPrimitive(p)
    {
      assert front == ps[..k] + [ps[k]];
    }
    PrimitivesSnoc(front, k);
    assert front[..k] == ps[..k] && front[..k + 1] == front;
  }

  /** The validation loop, which also adds up the payload length. */
  method Validate(ps: seq<Primitive>) returns (ok: bool, payloadLength: nat)
    ensures ok <==> AllValid(ps)
    ensures ok <==> forall p | p in ps ::
              && 0 <= p.x && 0 <= p.y && 1 <= p.width <= 65535 && 1 <= p.height <= 65535
              && p.x + p.width <= 65536 && p.y + p.height <= 65536
              && p.width * p.height % 2 == 0 && |p.pixels| == p.width * p.height / 2
    ensures ok ==> payloadLength == |Primitives(ps)|
  {
    payloadLength := 0;
    var k := 0;
    while k < |ps|
      invariant 0 <= k <= |ps|
      invariant AllValid(ps[..k]) && payloadLength == |Primitives(ps[..k])|
    {
      var p := ps[k];
      var pixels := p.width * p.height;
      if p.x < 0 || p.y < 0 || p.x > 65535 || p.y > 65535 ||
         p.width <= 0 || p.height <= 0 || p.width > 65535 || p.height > 65535 ||
         p.x + p.width > 65536 || p.y + p.height > 65536 ||
         pixels % 2 != 0 || |p.pixels| != pixels / 2 {
        assert p in ps && !ValidPrimitive(p);
        return false, 0;
      }
      ValidSnoc(ps, k);
      payloadLength := payloadLength + 24 + |p.pixels|;
      k := k + 1;
    }
    assert ps[..k] == ps;
    ok := true;
  }

  /** The checksum loop over all pixel buffers. */
  method ChecksumPixels(ps: seq<Primitive>, crc: Record.Checksum) returns (sum: U32)
    ensures sum == crc(AllPixels(ps))
  {
    var written: Bytes := [];
    var k := 0;
    while k < |ps|
      invariant 0 <= k <= |ps|
      invariant written + AllPixels(ps[k..]) == AllPixels(ps)
    {
      assert written + AllPixels(ps[k..]) == written + ps[k].pixels + AllPixels(ps[k + 1..]);
      written := written + ps[k].pixels;
      k := k + 1;
    }
    assert written + [] == written;
    sum := crc(written);
  }

  method WriteHeader(buf: array<Byte>, uuid: Uuid, kind: U32, frameID: U32, count: nat)
    requires 56 <= buf.Length && forall i | 0 <= i < 56 :: buf[i] == 0
    modifies buf
    ensures buf[..56] == MessageHeader(uuid, kind, frameID, count, buf.Length)
  {
    hide Put32;
    Write(buf, 4, uuid);
    assert buf[..20] == ZERO + uuid;
    Write(buf, 20, Put32(5));
    assert buf[..24] == buf[..20] + buf[20..24];
    Write(buf, 24, Put32(kind));
    assert buf[..28] == buf[..24] + buf[24..28];
    Write(buf, 28, Put32(Trunc32(buf.Length - 36)));
    assert buf[..36] == buf[..28] + buf[28..32] + ZERO;
    Write(buf, 36, Put32(frameID));
    assert buf[..40] == buf[..36] + buf[36..40];
    Write(buf, 40, Put32(Trunc32(count)));
    assert buf[..48] == buf[..40] + buf[40..44] + ZERO;
    Write(buf, 48, Put32(Trunc32(buf.Length - 56)));
    assert buf[..56] == buf[..48] + buf[48..52] + ZERO;
  }

  method WritePrimitive(buf: array<Byte>, off: nat, p: Primitive)
    requires ValidPrimitive(p) && off + 24 + |p.pixels| <= buf.Length
    modifies buf
    ensures buf[..off + 24 + |p.pixels|] == old(buf[..off]) + PrimitiveHeader(p) + p.pixels
  {
    hide Put32, Put16;
    Write(buf, off, Put32(1) + Put32(p.y * 65536 + p.x) + Put16(p.width) + Put16(p.height) + Put32(0x102) + Put32(4)
          + Put32(Trunc32(|p.pixels|)));
    ghost var header := buf[off..off + 24];
    Write(buf, off + 24, p.pixels);
    assert buf[off..off + 24] == header;
    assert buf[..off + 24 + |p.pixels|] == buf[..off] + buf[off..off + 24] + buf[off + 24..off + 24 + |p.pixels|];
  }

  method BuildImagePrimitives(uuid: Uuid, kind: U32, frameID: U32, ps: seq<Primitive>, compress: Lz4.Compressor,
                              crc: Record.Checksum)
    returns (wire: Result<Bytes>)
    ensures wire == Build(uuid, kind, frameID, ps, compress, crc)
  {
    if |ps| == 0 {
      return Err("image requires at least one primitive");
    }
    var ok, payloadLength := Validate(ps);
    if !ok {
      return Err("invalid packed image primitive");
    }
    var id := frameID;
    if id == 0 {
      id := ChecksumPixels(ps, crc);
      if id == 0 {
        id := 1;
      }
    }
    var logical := EncodeLogical(uuid, kind, id, ps, payloadLength);
    var payload := Lz4.CompressChunks(logical, compress);
    if payload.Err? {
      return Err(payload.message);
    }
    wire := Record.MarshalRecord(Record.Record(3, 0, 1, payload.value), crc);
  }

  lemma NoPrimitives()
    ensures Primitives([]) == []
  {
  }

  lemma Associate(a: Bytes, b: Bytes, c: Bytes, d: Bytes)
    ensures a + b + c + d == a + (b + c + d)
  {
  }

  method EncodeLogical(uuid: Uuid, kind: U32, frameID: U32, ps: seq<Primitive>,
                       payloadLength: nat) returns (bytes: Bytes)
    requires AllValid(ps) && payloadLength == |Primitives(ps)|
    ensures bytes == Logical(uuid, kind, frameID, ps)
  {
    hide MessageHeader, PrimitiveHeader, ValidPrimitive, Primitives;
    assert ps[..0] == [] && Primitives([]) == [] by {
      NoPrimitives();
    }
    var logical := new Byte[56 + payloadLength](i => 0);
    WriteHeader(logical, uuid, kind, frameID, |ps|);
    ghost var header := logical[..56];
    var off, k := 56, 0;
    while k < |ps|
      invariant 0 <= k <= |ps| && AllValid(ps[..k])
      invariant off == 56 + |Primitives(ps[..k])| <= logical.Length
      invariant logical[..off] == header + Primitives(ps[..k])
    {
      PrimitivesSnoc(ps, k);
      PrimitivesPrefix(ps, k + 1);
      assert ps[k] in ps;
      Associate(header, Primitives(ps[..k]), PrimitiveHeader(ps[k]), ps[k].pixels);
      WritePrimitive(logical, off, ps[k]);
      off := off + 24 + |ps[k].pixels|;
      k := k + 1;
    }
    assert ps[..k] == ps;
    assert logical[..] == logical[..off];
    bytes := logical[..];
  }

  // ---------------------------------------------------------------------------------------------
  // Reading a message back
  // ---------------------------------------------------------------------------------------------

  datatype Message = Message(uuid: Uuid, kind: U32, frameID: U32, primitives: seq<Primitive>)

  /** Reads one primitive, insisting on its constants and on the length of its pixels. */
  function ParsePrimitive(b: Bytes): (r: Option<(Primitive, Bytes)>)
  {
    if |b| < 24 then None
    else
      var corner, size := Get32(b[4..8]), Get32(b[20..24]);
      if Get32(b[0..4]) != 1 || Get32(b[12..16]) != 0x102 || Get32(b[16..20]) != 4 || |b| < 24 + size then None
      else Some((Primitive(corner % 65536, corner / 65536, Get16(b[8..10]), Get16(b[10..12]), b[24..24 + size]),
                 b[24 + size..]))
  }

  function ParsePrimitives(b: Bytes, count: nat): Option<seq<Primitive>> {
    if count == 0 then (if b == [] then Some([]) else None)
    else
      match ParsePrimitive(b)
      case None => None
      case Some((p, rest)) =>
        if !ValidPrimitive(p) then None
        else
          match ParsePrimitives(rest, count - 1)
          case None => None
          case Some(ps) => Some([p] + ps)
  }

  /** A strict reader of a logical message: every constant and both embedded lengths have to agree. */
  function ParseLogical(b: Bytes): Option<Message> {
    if |b| < 56 then None
    else if b[0..4] != ZERO || Get32(b[20..24]) != 5 || Get32(b[28..32]) != Trunc32(|b| - 36) || b[32..36] != ZERO
         || b[44..48] != ZERO || Get32(b[48..52]) != Trunc32(|b| - 56) || b[52..56] != ZERO then None
    else
      match ParsePrimitives(b[56..], Get32(b[40..44]))
      case None => None
      case Some(ps) => Some(Message(b[4..20], Get32(b[24..28]), Get32(b[36..40]), ps))
  }

  /** The fields of a primitive header, read at their offsets. */
  lemma PrimitiveFields(p: Primitive, body: Bytes)
    requires ValidPrimitive(p)
    ensures var b := PrimitiveHeader(p) + body;
            && Get32(b[0..4]) == 1 && Get32(b[4..8]) == p.y * 65536 + p.x && Get16(b[8..10]) == p.width
            && Get16(b[10..12]) == p.height
            && Get32(b[12..16]) == 0x102 && Get32(b[16..20]) == 4 && Get32(b[20..24]) == Trunc32(|p.pixels|)
            && b[24..] == body
  {
    hide Put32, Put16, Get32, Get16;
    var b := PrimitiveHeader(p) + body;
    var corner := p.y * 65536 + p.x;
    assert b[0..4] == Put32(1) && b[4..8] == Put32(corner) && b[8..10] == Put16(p.width)
           && b[10..12] == Put16(p.height);
    assert b[12..16] == Put32(0x102) && b[16..20] == Put32(4) && b[20..24] == Put32(Trunc32(|p.pixels|));
    Get32Put32(1);
    Get32Put32(corner);
    Get16Put16(p.width);
    Get16Put16(p.height);
    Get32Put32(0x102);
    Get32Put32(4);
    Get32Put32(Trunc32(|p.pixels|));
  }

  lemma ParsePrimitiveInverts(p: Primitive, rest: Bytes)
    requires ValidPrimitive(p) && |p.pixels| < TWO32
    ensures ParsePrimitive(PrimitiveHeader(p) + p.pixels + rest) == Some((p, rest))
  {
    hide PrimitiveHeader, Get32, Get16;
    PrimitiveFields(p, p.pixels + rest);
    var b := PrimitiveHeader(p) + (p.pixels + rest);
    assert b == PrimitiveHeader(p) + p.pixels + rest;
    assert b[24..24 + |p.pixels|] == b[24..][..|p.pixels|] == p.pixels;
    assert b[24 + |p.pixels|..] == b[24..][|p.pixels|..] == rest;
  }

  lemma {:induction false} ParsePrimitivesInverts(ps: seq<Primitive>)
    requires AllValid(ps) && |Primitives(ps)| < TWO32
    ensures ParsePrimitives(Primitives(ps), |ps|) == Some(ps)
    ensures |ps| <= |Primitives(ps)|
  {
    hide ParsePrimitive, PrimitiveHeader, ValidPrimitive;
    if ps != [] {
      assert ps[0] in ps;
      var rest := Primitives(ps[1..]);
      assert Primitives(ps) == PrimitiveHeader(ps[0]) + ps[0].pixels + rest;
      ParsePrimitiveInverts(ps[0], rest);
      ParsePrimitivesInverts(ps[1..]);
      assert [ps[0]] + ps[1..] == ps;
    }
  }

  /** The fields of a message header, read at their offsets. */
  lemma HeaderFields(uuid: Uuid, kind: U32, frameID: U32, count: nat, size: nat, body: Bytes)
    requires count < TWO32
    ensures var b := MessageHeader(uuid, kind, frameID, count, size) + body;
            && b[0..4] == ZERO && b[4..20] == uuid && Get32(b[20..24]) == 5 && Get32(b[24..28]) == kind
            && Get32(b[28..32]) == Trunc32(size - 36) && b[32..36] == ZERO && Get32(b[36..40]) == frameID
            && Get32(b[40..44]) == count
            && b[44..48] == ZERO && Get32(b[48..52]) == Trunc32(size - 56) && b[52..56] == ZERO && b[56..] == body
  {
    hide Put32, Get32;
    var b := MessageHeader(uuid, kind, frameID, count, size) + body;
    assert b[20..24] == Put32(5) && b[24..28] == Put32(kind) && b[28..32] == Put32(Trunc32(size - 36));
    assert b[36..40] == Put32(frameID) && b[40..44] == Put32(count) && b[48..52] == Put32(Trunc32(size - 56));
    Get32Put32(5);
    Get32Put32(kind);
    Get32Put32(Trunc32(size - 36));
    Get32Put32(frameID);
    Get32Put32(count);
    Get32Put32(Trunc32(size - 56));
  }

  lemma ParseLogicalInverts(uuid: Uuid, kind: U32, frameID: U32, ps: seq<Primitive>)
    requires AllValid(ps) && |Logical(uuid, kind, frameID, ps)| < TWO32
    ensures ParseLogical(Logical(uuid, kind, frameID, ps)) == Some(Message(uuid, kind, frameID, ps))
  {
    hide MessageHeader, Primitives, ParsePrimitives, ValidPrimitive, Get32;
    ParsePrimitivesInverts(ps);
    HeaderFields(uuid, kind, frameID, |ps|, 56 + |Primitives(ps)|, Primitives(ps));
  }

  /**
   Any record `BuildImagePrimitives` returns, whatever follows it on the stream, reads back as the same UUID,
   sequence, frame id and primitives in order, and no length or count field on the way was truncated. Without a frame
   id, the checksum of all pixels stands in for it, or 1 should that be 0.
   */
  lemma WireRoundTrip(uuid: Uuid, kind: U32, frameID: U32, ps: seq<Primitive>, compress: Lz4.Compressor,
                      crc: Record.Checksum, rest: Bytes)
    ensures Build(uuid, kind, frameID, ps, compress, crc).Ok? ==>
              var wire, sum := Build(uuid, kind, frameID, ps, compress, crc).value, crc(AllPixels(ps));
              && (frameID != 0 ==> ReadsBack(wire, crc, rest, Message(uuid, kind, frameID, ps)))
              && (frameID == 0 && sum != 0 ==> ReadsBack(wire, crc, rest, Message(uuid, kind, sum, ps)))
              && (frameID == 0 && sum == 0 ==> ReadsBack(wire, crc, rest, Message(uuid, kind, 1, ps)))
  {
    hide Build, ReadsBack;
    EffectiveRoundTrip(uuid, kind, frameID, ps, compress, crc, rest);
  }

  lemma EffectiveRoundTrip(uuid: Uuid, kind: U32, frameID: U32, ps: seq<Primitive>, compress: Lz4.Compressor,
                           crc: Record.Checksum, rest: Bytes)
    ensures Build(uuid, kind, frameID, ps, compress, crc).Ok? ==>
              ReadsBack(Build(uuid, kind, frameID, ps, compress, crc).value, crc, rest,
                        Message(uuid, kind, EffectiveID(frameID, ps, crc), ps))
  {
    hide Lz4.Payload, Lz4.DecodePayload, Lz4.Sound, Record.ReadFrom, ParseLogical, EffectiveID, ValidPrimitive;
    if Build(uuid, kind, frameID, ps, compress, crc).Ok? {
      var logical := Logical(uuid, kind, EffectiveID(frameID, ps, crc), ps);
      var payload := Lz4.Payload(logical, compress).value;
      Lz4.PayloadBoundsSource(logical, compress);
      Record.ReadInvertsWire(Record.Record(3, 0, 1, payload), crc, rest);
      Lz4.ChunkRoundTrip(logical, compress);
      ParseLogicalInverts(uuid, kind, EffectiveID(frameID, ps, crc), ps);
    }
  }

  /**
   A record is built exactly if there is a primitive, all are valid, the compressor fails on no 4800 bytes of the
   message, and the payload is within the limit.
   */
  lemma BuildSucceeds(uuid: Uuid, kind: U32, frameID: U32, ps: seq<Primitive>, compress: Lz4.Compressor,
                      crc: Record.Checksum)
    ensures Build(uuid, kind, frameID, ps, compress, crc).Ok? <==>
              && ps != [] && AllValid(ps)
              && var logical := Logical(uuid, kind, EffectiveID(frameID, ps, crc), ps);
                 Lz4.NoneFails(logical, 0, compress) && Lz4.PayloadLength(logical, compress) <= 0x200_0000
  {
    hide Lz4.Payload, Lz4.NoneFails, EffectiveID, Logical, AllValid;
    if AllValid(ps) {
      Lz4.PayloadSucceeds(Logical(uuid, kind, EffectiveID(frameID, ps, crc), ps), compress);
    }
  }

  /** So every list of valid primitives of up to 16 MB is built, however badly it compresses. */
  lemma AlwaysBuilt(uuid: Uuid, kind: U32, frameID: U32, ps: seq<Primitive>, compress: Lz4.Compressor,
                    crc: Record.Checksum)
    requires ps != [] && AllValid(ps) && 56 + |Primitives(ps)| <= 16_000_000
    requires forall piece: Bytes :: !compress(piece).Fails?
    ensures Build(uuid, kind, frameID, ps, compress, crc).Ok?
  {
    hide Lz4.Payload, Primitives, EffectiveID, AllValid, MessageHeader;
    Lz4.SourceBoundsPayload(Logical(uuid, kind, EffectiveID(frameID, ps, crc), ps), compress);
    BuildSucceeds(uuid, kind, frameID, ps, compress, crc);
  }

  /** A stream starting with `wire` reads as one application record holding the message, and goes on with `rest`. */
  ghost predicate ReadsBack(wire: Bytes, crc: Record.Checksum, rest: Bytes, message: Message) {
    var (r, unread) := Record.ReadFrom(wire + rest, crc);
    && r.Read? && unread == rest && r.record.kind == 3 && r.record.word1 == 0 && r.record.word2 == 1
    && var logical := Lz4.DecodePayload(r.record.payload);
       logical.Some? && |logical.value| < TWO32 && ParseLogical(logical.value) == Some(message)
  }

  // ---------------------------------------------------------------------------------------------
  // Rendered frames
  // ---------------------------------------------------------------------------------------------

  lemma FullValid(cur: Bytes, w: int, h: int)
    requires FrameShape(w, h, cur) && w <= 65535 && h <= 65535
    ensures ValidPrimitive(Primitive(0, 0, w, h, cur))
  {
    assert w * h == 2 * (w / 2 * h) by {
      FrameRows(w, h, cur);
    }
  }

  lemma PlacedValid(p: Primitive, w: int, h: int)
    requires Placed(p, w, h) && w <= 65535 && h <= 65535
    ensures ValidPrimitive(p)
  {
    RowIsProduct(p.height, p.width);
  }

  /**
   The rectangle `changedPrimitive` picks passes the validation, within 16-bit dimensions, whatever the previous frame.
   */
  lemma ChangedValid(cur: Bytes, prev: Bytes, w: int, h: int, prevW: int, prevH: int)
    requires FrameShape(w, h, cur) && w <= 65535 && h <= 65535
    ensures ValidPrimitive(Changed(cur, prev, w, h, prevW, prevH))
  {
    var p := Changed(cur, prev, w, h, prevW, prevH);
    if p == Primitive(0, 0, w, h, cur) {
      FullValid(cur, w, h);
    } else {
      FrameRows(w, h, cur);
      BoxPlaced(cur, w / 2, h, ChangedBox(cur, prev, w / 2, h));
      PlacedValid(p, w, h);
    }
  }
}
