/** PV3 records: five little-endian header words and a payload, written whole and read back from a byte stream. */
module Record {
  import opened Common
  import opened LittleEndian

  const MAX_PAYLOAD: nat := 0x200_0000

  datatype Record = Record(kind: U32, word1: U32, word2: U32, payload: Bytes)

  /** `crc32.ChecksumIEEE`, left abstract. */
  type Checksum = Bytes -> U32

  datatype ReadError = EndOfStream | UnexpectedEnd | TooLong | BadChecksum

  datatype ReadResult = Read(record: Record) | Failed(error: ReadError)

  function Words(r: Record): (h: Bytes)
    ensures |h| == 16
  {
    Put32(r.kind) + Put32(r.word1) + Put32(r.word2) + Put32(Trunc32(|r.payload|))
  }

  /** Tablet records (word 2 zero) are checked over the header, server records over the payload. */
  function CheckWord(r: Record, crc: Checksum): U32 {
    if r.word2 == 0 then crc(Words(r)) else crc(r.payload)
  }

  /** The wire form of a record. */
  function Wire(r: Record, crc: Checksum): Bytes {
    Words(r) + Put32(CheckWord(r, crc)) + r.payload
  }

  method MarshalRecord(r: Record, crc: Checksum) returns (wire: Result<Bytes>)
    ensures wire == if |r.payload| > MAX_PAYLOAD then Err("pv3 payload exceeds limit") else Ok(Wire(r, crc))
  {
    if |r.payload| > MAX_PAYLOAD {
      return Err("pv3 payload exceeds limit");
    }
    var out := new Byte[20 + |r.payload|](i => 0);
    Write(out, 0, Put32(r.kind));
    Write(out, 4, Put32(r.word1));
    assert out[..8] == Put32(r.kind) + Put32(r.word1);
    Write(out, 8, Put32(r.word2));
    assert out[..12] == Put32(r.kind) + Put32(r.word1) + Put32(r.word2);
    Write(out, 12, Put32(Trunc32(|r.payload|)));
    assert out[..16] == Words(r);
    Write(out, 20, r.payload);
    assert out[..16] == Words(r);
    if r.word2 == 0 {
      Write(out, 16, Put32(crc(out[..16])));
    } else {
      Write(out, 16, Put32(crc(r.payload)));
    }
    assert out[16..20] == Put32(CheckWord(r, crc)) && out[..16] == Words(r);
    assert out[20..] == r.payload;
    assert out[..] == out[..16] + out[16..20] + out[20..];
    wire := Ok(out[..]);
  }

  // ---------------------------------------------------------------------------------------------
  // Reading
  // ---------------------------------------------------------------------------------------------

  /** What `ReadRecord` makes of a stream, and what it leaves unread. */
  function ReadFrom(stream: Bytes, crc: Checksum): (ReadResult, Bytes) {
    if |stream| < 20 then (Failed(if stream == [] then EndOfStream else UnexpectedEnd), [])
    else
      var n := Get32(stream[12..16]);
      if n > MAX_PAYLOAD then (Failed(TooLong), stream[20..])
      else if |stream| < 20 + n then (Failed(if |stream| == 20 then EndOfStream else UnexpectedEnd), [])
      else
        var r := Record(Get32(stream[0..4]), Get32(stream[4..8]), Get32(stream[8..12]), stream[20..20 + n]);
        var want := if r.word2 == 0 then crc(stream[..16]) else crc(r.payload);
        (if Get32(stream[16..20]) != want then Failed(BadChecksum) else Read(r), stream[20 + n..])
  }

  /** The receiving end of a connection. */
  class Reader {
    var unread: Bytes

    /** `io.ReadFull`: exactly `n` bytes, or an error after taking whatever was left. */
    method ReadFull(n: nat) returns (r: Result<Bytes>)
      modifies this
      ensures |old(unread)| >= n ==> r == Ok(old(unread)[..n]) && unread == old(unread)[n..]
      ensures |old(unread)| < n ==> r == Err(if old(unread) == [] then "EOF" else "unexpected EOF") && unread == []
    {
      if |unread| < n {
        r := Err(if unread == [] then "EOF" else "unexpected EOF");
        unread := [];
      } else {
        r := Ok(unread[..n]);
        unread := unread[n..];
      }
    }

    method ReadRecord(crc: Checksum) returns (r: ReadResult)
      modifies this
      ensures (r, unread) == ReadFrom(old(unread), crc)
    {
      ghost var stream := unread;
      var header := ReadFull(20);
      if header.Err? {
        return Failed(if header.message == "EOF" then EndOfStream else UnexpectedEnd);
      }
      var h := header.value;
      assert h[12..16] == stream[12..16];
      var n := Get32(h[12..16]);
      if n > MAX_PAYLOAD {
        return Failed(TooLong);
      }
      var payload := ReadFull(n);
      if payload.Err? {
        return Failed(if payload.message == "EOF" then EndOfStream else UnexpectedEnd);
      }
      assert payload.value == stream[20..20 + n] && unread == stream[20 + n..];
      assert h[0..4] == stream[0..4] && h[4..8] == stream[4..8] && h[8..12] == stream[8..12];
      assert h[16..20] == stream[16..20] && h[..16] == stream[..16];
      var rec := Record(Get32(h[0..4]), Get32(h[4..8]), Get32(h[8..12]), payload.value);
      var check := Get32(h[16..20]);
      var want := if rec.word2 == 0 then crc(h[..16]) else crc(payload.value);
      if check != want {
        return Failed(BadChecksum);
      }
      r := Read(rec);
    }
  }

  /** Reading what was marshalled returns the record and stops exactly behind it. */
  lemma ReadInvertsWire(r: Record, crc: Checksum, rest: Bytes)
    requires |r.payload| <= MAX_PAYLOAD
    ensures ReadFrom(Wire(r, crc) + rest, crc) == (Read(r), rest)
  {
    var s := Wire(r, crc) + rest;
    assert s[0..4] == Put32(r.kind) && s[4..8] == Put32(r.word1) && s[8..12] == Put32(r.word2);
    assert s[12..16] == Put32(|r.payload|) && s[16..20] == Put32(CheckWord(r, crc));
    Get32Put32(r.kind);
    Get32Put32(r.word1);
    Get32Put32(r.word2);
    Get32Put32(|r.payload|);
    Get32Put32(CheckWord(r, crc));
    assert s[..16] == Words(r);
    assert s[20..20 + |r.payload|] == r.payload && s[20 + |r.payload|..] == rest;
  }

  /** Conversely, every record read is the wire form of itself: no two byte strings read as the same record. */
  lemma WireInvertsRead(stream: Bytes, crc: Checksum)
    requires ReadFrom(stream, crc).0.Read?
    ensures var r := ReadFrom(stream, crc);
            |r.0.record.payload| <= MAX_PAYLOAD && stream == Wire(r.0.record, crc) + r.1
  {
    hide Put32, Get32;
    var r := ReadFrom(stream, crc);
    Put32Get32(stream[0..4]);
    Put32Get32(stream[4..8]);
    Put32Get32(stream[8..12]);
    Put32Get32(stream[12..16]);
    Put32Get32(stream[16..20]);
    assert stream[..16] == stream[0..4] + stream[4..8] + stream[8..12] + stream[12..16];
    assert stream == stream[..16] + stream[16..20] + stream[20..];
  }
}
