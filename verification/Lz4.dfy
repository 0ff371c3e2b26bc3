/**
 Raw LZ4 blocks and the chunks they are wrapped in. The decoder follows the LZ4 Block Format Description, section
 "Compressed block format"; a block ends with a sequence of literals, as "End of block conditions" requires.
 */
module Lz4 {
  import opened Common
  import opened LittleEndian

  const CHUNK: nat := 4800

  // ---------------------------------------------------------------------------------------------
  // Decoding a block
  // ---------------------------------------------------------------------------------------------

  /** Length bytes after a nibble of 15: each 255 asks for another byte. */
  function ReadExtension(b: Bytes, length: nat): (r: Option<(nat, Bytes)>)
    ensures r.Some? ==> |r.value.1| < |b| && length <= r.value.0 && r.value.0 - length < 255 * (|b| - |r.value.1|)
  {
    if b == [] then None
    else if b[0] == 255 then ReadExtension(b[1..], length + 255)
    else Some((length + b[0], b[1..]))
  }

  function ReadLength(nibble: nat, b: Bytes): (r: Option<(nat, Bytes)>)
    ensures r.Some? ==> |r.value.1| <= |b| && r.value.0 <= nibble + 255 * (|b| - |r.value.1|)
  {
    if nibble < 15 then Some((nibble, b)) else ReadExtension(b, nibble)
  }

  /** Copies `length` bytes from `offset` back, one at a time: the copy may overlap itself. */
  function CopyMatch(out: Bytes, offset: nat, length: nat): (r: Bytes)
    requires 0 < offset <= |out|
    ensures |r| == |out| + length
    decreases length
  {
    if length == 0 then out else CopyMatch(out + [out[|out| - offset]], offset, length - 1)
  }

  function DecodeSequences(b: Bytes, out: Bytes): (r: Option<Bytes>)
    ensures r.Some? ==> |r.value| <= |out| + 255 * |b|
    decreases |b|
  {
    if b == [] then None
    else
      match ReadLength(b[0] / 16, b[1..])
      case None => None
      case Some((literals, afterLength)) =>
        if |afterLength| < literals then None
        else
          var out1, rest := out + afterLength[..literals], afterLength[literals..];
          if rest == [] then Some(out1)
          else if |rest| < 2 then None
          else
            var offset := Get16(rest[..2]);
            if offset == 0 || offset > |out1| then None
            else
              match ReadLength(b[0] % 16, rest[2..])
              case None => None
              case Some((extra, next)) => DecodeSequences(next, CopyMatch(out1, offset, extra + 4))
  }

  function DecodeBlock(b: Bytes): (r: Option<Bytes>)
    ensures r.Some? ==> |r.value| <= 255 * |b|
  {
    DecodeSequences(b, [])
  }

  // ---------------------------------------------------------------------------------------------
  // The literal-only fallback
  // ---------------------------------------------------------------------------------------------

  function Extension(n: nat): Bytes {
    if n < 255 then [n] else [255] + Extension(n - 255)
  }

  /** A block of one sequence without a match. */
  function Literal(src: Bytes): (b: Bytes) {
    if |src| < 15 then [16 * |src|] + src else [0xF0] + Extension(|src| - 15) + src
  }

  method LiteralBlock(src: Bytes) returns (out: Bytes)
    ensures out == Literal(src)
  {
    if |src| < 15 {
      return [16 * |src|] + src;
    }
    out := [0xF0];
    var remaining := |src| - 15;
    while remaining >= 255
      invariant 0 <= remaining
      invariant out + Extension(remaining) == [0xF0] + Extension(|src| - 15)
    {
      assert out + Extension(remaining) == (out + [255]) + Extension(remaining - 255);
      out := out + [255];
      remaining := remaining - 255;
    }
    out := out + [remaining];
    out := out + src;
  }

  lemma {:induction false} ReadExtensionInverts(n: nat, rest: Bytes, length: nat)
    ensures ReadExtension(Extension(n) + rest, length) == Some((length + n, rest))
  {
    if n < 255 {
      assert ([n as Byte] + rest)[1..] == rest;
    } else {
      ReadExtensionInverts(n - 255, rest, length + 255);
      assert (Extension(n) + rest)[1..] == Extension(n - 255) + rest;
    }
  }

  /** The fallback decodes to its source at every length, the 15 and 255-step boundaries included. */
  lemma LiteralDecodes(src: Bytes)
    ensures DecodeBlock(Literal(src)) == Some(src)
  {
    var b := Literal(src);
    if |src| < 15 {
      assert b[1..] == src;
    } else {
      ReadExtensionInverts(|src| - 15, src, 15);
      assert b[1..] == Extension(|src| - 15) + src;
    }
    assert ReadLength(b[0] / 16, b[1..]) == Some((|src|, src));
    assert [] + src[..|src|] == src && src[|src|..] == [];
  }

  lemma {:induction false} ExtensionLength(n: nat)
    ensures |Extension(n)| == n / 255 + 1
  {
    if n >= 255 {
      ExtensionLength(n - 255);
    }
  }

  // ---------------------------------------------------------------------------------------------
  // Chunks
  // ---------------------------------------------------------------------------------------------

  /** `CompressBlock` into a buffer of `CompressBlockBound` bytes: an error, 0 bytes, or a block. */
  datatype Compression = Fails | Incompressible | Block(data: Bytes)

  function BlockBound(n: nat): nat {
    n + n / 255 + 16
  }

  ghost predicate Sound(compress: Bytes -> Compression) {
    forall src :: match compress(src)
      case Fails => true
      case Incompressible => true
      case Block(data) => 0 < |data| <= BlockBound(|src|) && DecodeBlock(data) == Some(src)
  }

  /** Any compressor whose blocks the decoder inverts. */
  type Compressor = c: Bytes -> Compression | Sound(c) ghost witness (src: Bytes) => Incompressible

  /** The payload of one chunk: the compressed block, or the literal one. */
  function ChunkData(src: Bytes, compress: Compressor): (r: Result<Bytes>)
    ensures r.Ok? ==> 0 < |r.value| <= BlockBound(|src|) && DecodeBlock(r.value) == Some(src)
  {
    match compress(src)
    case Fails => Err("compress")
    case Block(data) => Ok(data)
    case Incompressible =>
      LiteralDecodes(src);
      if |src| >= 15 then ExtensionLength(|src| - 15); Ok(Literal(src)) else Ok(Literal(src))
  }

  /** The body of the chunk loop: compress, or fall back when compression does not pay. */
  method CompressOne(block: Bytes, compress: Compressor) returns (r: Result<Bytes>)
    ensures r == ChunkData(block, compress)
  {
    match compress(block) {
      case Fails => r := Err("compress");
      case Block(data) => r := Ok(data);
      case Incompressible =>
        var buf := LiteralBlock(block);
        r := Ok(buf);
    }
  }

  // ---------------------------------------------------------------------------------------------
  // Chunk framing
  // ---------------------------------------------------------------------------------------------

  datatype Chunk = Chunk(index: U32, last: U32, size: U32, sourceSize: U32, data: Bytes)

  function Header(c: Chunk): (h: Bytes)
    ensures |h| == 24
  {
    Put32(c.index) + Put32(c.last) + Put32(c.size) + Put32(c.sourceSize) + Put32(0) + Put32(0)
  }

  function Serialise(cs: seq<Chunk>): Bytes {
    if cs == [] then [] else Header(cs[0]) + cs[0].data + Serialise(cs[1..])
  }

  /** Reads one chunk off the front of a payload. */
  function ParseChunk(b: Bytes): (r: Option<(Chunk, Bytes)>)
    ensures r.Some? ==> |r.value.1| < |b|
  {
    if |b| < 24 then None
    else
      var size := Get32(b[8..12]);
      if Get32(b[16..20]) != 0 || Get32(b[20..24]) != 0 || |b| < 24 + size then None
      else Some((Chunk(Get32(b[0..4]), Get32(b[4..8]), size, Get32(b[12..16]), b[24..24 + size]), b[24 + size..]))
  }

  function Parse(b: Bytes): Option<seq<Chunk>>
    decreases |b|
  {
    if b == [] then Some([])
    else
      match ParseChunk(b)
      case None => None
      case Some((c, rest)) =>
        match Parse(rest)
        case None => None
        case Some(cs) => Some([c] + cs)
  }

  lemma ParseChunkInverts(c: Chunk, rest: Bytes)
    requires c.size == |c.data|
    ensures ParseChunk(Header(c) + c.data + rest) == Some((c, rest))
  {
    var b := Header(c) + c.data + rest;
    assert b[0..4] == Put32(c.index) && b[4..8] == Put32(c.last) && b[8..12] == Put32(c.size);
    assert b[12..16] == Put32(c.sourceSize) && b[16..20] == Put32(0) && b[20..24] == Put32(0);
    Get32Put32(c.index);
    Get32Put32(c.last);
    Get32Put32(c.size);
    Get32Put32(c.sourceSize);
    Get32Put32(0);
    assert b[24..24 + c.size] == c.data && b[24 + c.size..] == rest;
  }

  lemma {:induction false} ParseInverts(cs: seq<Chunk>)
    requires forall c | c in cs :: c.size == |c.data|
    ensures Parse(Serialise(cs)) == Some(cs)
  {
    hide ParseChunk, Header;
    if cs != [] {
      ParseChunkInverts(cs[0], Serialise(cs[1..]));
      ParseInverts(cs[1..]);
      assert [cs[0]] + cs[1..] == cs;
    }
  }

  // ---------------------------------------------------------------------------------------------
  // CompressChunks
  // ---------------------------------------------------------------------------------------------

  /** `(len(src) - 1) / chunkSize`, truncated toward zero. */
  function LastIndex(src: Bytes): nat {
    if src == [] then 0 else (|src| - 1) / CHUNK
  }

  function ChunkEnd(src: Bytes, off: nat): nat {
    if off + CHUNK > |src| then |src| else off + CHUNK
  }

  function MakeChunk(src: Bytes, off: nat, index: nat, data: Bytes): Chunk
    requires off < |src|
  {
    Chunk(Trunc32(index), Trunc32(LastIndex(src)), Trunc32(|data|), ChunkEnd(src, off) - off, data)
  }

  /** The chunks of a source cut every 4800 bytes, from offset `off` on. */
  function ChunksFrom(src: Bytes, off: nat, index: nat, compress: Compressor): Result<seq<Chunk>>
    decreases |src| - off
  {
    if off >= |src| then Ok([])
    else
      match ChunkData(src[off..ChunkEnd(src, off)], compress)
      case Err(m) => Err(m)
      case Ok(data) =>
        match ChunksFrom(src, off + CHUNK, index + 1, compress)
        case Err(m) => Err(m)
        case Ok(rest) => Ok([MakeChunk(src, off, index, data)] + rest)
  }

  /** What `CompressChunks` returns. */
  function Payload(src: Bytes, compress: Compressor): Result<Bytes> {
    match ChunksFrom(src, 0, 0, compress)
    case Err(m) => Err(m)
    case Ok(cs) => Ok(Serialise(cs))
  }

  method CompressChunks(src: Bytes, compress: Compressor) returns (r: Result<Bytes>)
    ensures r == Payload(src, compress)
  {
    hide DecodeSequences, Header, ChunkData, Sound, ChunksFrom, Continues;
    var out: Bytes := [];
    ghost var done: seq<Chunk> := [];
    var finalIndex := if |src| == 0 then 0 else (|src| - 1) / CHUNK;
    var index, off := 0, 0;
    ghost var all := ChunksFrom(src, 0, 0, compress);
    NothingDone(all);
    while off < |src|
      invariant 0 <= off && 0 <= index && out == Serialise(done)
      invariant Continues(all, done, ChunksFrom(src, off, index, compress))
      decreases |src| - off
    {
      var end := ChunkEnd(src, off);
      var buf := CompressOne(src[off..end], compress);
      NextChunk(src, off, index, compress, all, done);
      if buf.Err? {
        return Err(buf.message);
      }
      var chunk := Chunk(Trunc32(index), Trunc32(finalIndex), Trunc32(|buf.value|), end - off, buf.value);
      SerialiseAppend(done, chunk);
      out := out + Header(chunk);
      out := out + buf.value;
      done := done + [chunk];
      index, off := index + 1, off + CHUNK;
    }
    AllDone(src, off, index, compress, all, done);
    r := Ok(out);
  }

  /** The chunks are those done and then the rest, or the rest's error. */
  predicate Continues(all: Result<seq<Chunk>>, done: seq<Chunk>, rest: Result<seq<Chunk>>) {
    if rest.Ok? then all == Ok(done + rest.value) else all == rest
  }

  lemma NothingDone(all: Result<seq<Chunk>>)
    ensures Continues(all, [], all)
  {
    assert all.Ok? ==> [] + all.value == all.value;
  }

  lemma ContinuesBehind(all: Result<seq<Chunk>>, done: seq<Chunk>, c: Chunk, later: Result<seq<Chunk>>)
    requires Continues(all, done, if later.Ok? then Ok([c] + later.value) else later)
    ensures Continues(all, done + [c], later)
  {
    if later.Ok? {
      assert done + ([c] + later.value) == done + [c] + later.value;
    }
  }

  lemma NextChunk(src: Bytes, off: nat, index: nat, compress: Compressor, all: Result<seq<Chunk>>, done: seq<Chunk>)
    requires off < |src| && Continues(all, done, ChunksFrom(src, off, index, compress))
    ensures match ChunkData(src[off..ChunkEnd(src, off)], compress)
            case Err(m) => all == Err(m)
            case Ok(data) =>
              Continues(all, done + [MakeChunk(src, off, index, data)],
                        ChunksFrom(src, off + CHUNK, index + 1, compress))
  {
    hide ChunkData, MakeChunk, Sound, DecodeBlock;
    var data := ChunkData(src[off..ChunkEnd(src, off)], compress);
    var later := ChunksFrom(src, off + CHUNK, index + 1, compress);
    if data.Ok? {
      hide Continues;
      ContinuesBehind(all, done, MakeChunk(src, off, index, data.value), later);
    }
  }

  lemma AllDone(src: Bytes, off: nat, index: nat, compress: Compressor, all: Result<seq<Chunk>>, done: seq<Chunk>)
    requires off >= |src| && Continues(all, done, ChunksFrom(src, off, index, compress))
    ensures all == Ok(done)
  {
    assert done + [] == done;
  }

  lemma {:induction false} SerialiseAppend(cs: seq<Chunk>, c: Chunk)
    ensures Serialise(cs + [c]) == Serialise(cs) + Header(c) + c.data
  {
    hide Header;
    if cs == [] {
      assert [c][1..] == [];
    } else {
      SerialiseAppend(cs[1..], c);
      assert (cs + [c])[1..] == cs[1..] + [c];
    }
  }

  // ---------------------------------------------------------------------------------------------
  // Reading the payload back
  // ---------------------------------------------------------------------------------------------

  /** The chunk is number `index` of `last + 1` and its block decodes to between 1 and 4800 announced bytes. */
  predicate Readable(c: Chunk, index: nat, last: nat) {
    && c.index == index && c.last == last
    && DecodeBlock(c.data).Some? && 0 < |DecodeBlock(c.data).value| <= CHUNK
    && |DecodeBlock(c.data).value| == c.sourceSize
  }

  function Piece(c: Chunk): Bytes {
    if DecodeBlock(c.data).Some? then DecodeBlock(c.data).value else []
  }

  /** The concatenation of all blocks, if the chunks are numbered without a gap up to the announced last one. */
  function Assemble(cs: seq<Chunk>, index: nat, last: nat): Option<Bytes>
    decreases |cs|
  {
    if cs == [] then (if index == last + 1 then Some([]) else None)
    else if !Readable(cs[0], index, last) then None
    else
      match Assemble(cs[1..], index + 1, last)
      case None => None
      case Some(rest) => Some(Piece(cs[0]) + rest)
  }

  /** A strict reader of a payload. */
  function DecodePayload(b: Bytes): Option<Bytes> {
    match Parse(b)
    case None => None
    case Some(cs) => if cs == [] then Some([]) else Assemble(cs, 0, |cs| - 1)
  }

  lemma {:induction false} ChunksAssemble(src: Bytes, off: nat, index: nat, compress: Compressor)
    requires off == CHUNK * index && ChunksFrom(src, off, index, compress).Ok? && LastIndex(src) < TWO32
    requires off < |src| || (src != [] && index == LastIndex(src) + 1)
    ensures var cs := ChunksFrom(src, off, index, compress).value;
            && index + |cs| == LastIndex(src) + 1
            && (forall c | c in cs :: c.size == |c.data|)
            && Assemble(cs, index, LastIndex(src)) == Some(if off < |src| then src[off..] else [])
    decreases |src| - off
  {
    hide DecodeBlock, ChunkData, Sound, MakeChunk, Readable, Piece, LastIndex;
    ChunkCount(src, off, index);
    if off < |src| {
      var end := ChunkEnd(src, off);
      var data := ChunkData(src[off..end], compress).value;
      MakeChunkReadable(src, off, index, compress);
      ChunksAssemble(src, off + CHUNK, index + 1, compress);
      assert src[off..end] + (if off + CHUNK < |src| then src[off + CHUNK..] else []) == src[off..];
    }
  }

  lemma ChunkCount(src: Bytes, off: nat, index: nat)
    requires off == CHUNK * index && src != []
    ensures off < |src| <==> index <= LastIndex(src)
    ensures off + CHUNK < |src| <==> index < LastIndex(src)
  {
  }

  lemma MakeChunkReadable(src: Bytes, off: nat, index: nat, compress: Compressor)
    requires off < |src| && index <= LastIndex(src) < TWO32 && ChunkData(src[off..ChunkEnd(src, off)], compress).Ok?
    ensures var piece := src[off..ChunkEnd(src, off)];
            var c := MakeChunk(src, off, index, ChunkData(piece, compress).value);
            c.size == |c.data| && Readable(c, index, LastIndex(src)) && Piece(c) == piece
  {
    hide DecodeBlock, ChunkData, Sound;
  }

  /**
   For every byte string, the chunks are numbered 0 to last, hold at most 4800 source bytes each, every block
   decodes, and the pieces make up the source again - as long as the chunk numbers fit their 32-bit field.
   */
  lemma ChunkRoundTrip(src: Bytes, compress: Compressor)
    requires LastIndex(src) < TWO32
    ensures Payload(src, compress).Ok? ==> DecodePayload(Payload(src, compress).value) == Some(src)
  {
    hide DecodeSequences, Header, Assemble, ParseChunk, Sound;
    if src == [] {
      assert Serialise([]) == [];
    } else if Payload(src, compress).Ok? {
      ChunksAssemble(src, 0, 0, compress);
      ParseInverts(ChunksFrom(src, 0, 0, compress).value);
      assert src[0..] == src;
    }
  }

  // ---------------------------------------------------------------------------------------------
  // When compression succeeds, and what becomes of each piece
  // ---------------------------------------------------------------------------------------------

  function PieceCount(src: Bytes): nat {
    (|src| + CHUNK - 1) / CHUNK
  }

  /** The `k`th 4800 bytes of the source; the last piece may be shorter. */
  function Cut(src: Bytes, k: nat): Bytes
    requires k < PieceCount(src)
  {
    if CHUNK * (k + 1) <= |src| then src[CHUNK * k..CHUNK * (k + 1)] else src[CHUNK * k..]
  }

  /** One sequence of literals, without a match behind it. */
  predicate OnlyLiterals(b: Bytes) {
    b != [] && b[0] % 16 == 0 &&
    match ReadLength(b[0] / 16, b[1..])
    case None => false
    case Some((literals, rest)) => |rest| == literals
  }

  lemma LiteralOnly(src: Bytes)
    ensures OnlyLiterals(Literal(src))
  {
    var b := Literal(src);
    if |src| < 15 {
      assert b[1..] == src;
    } else {
      ReadExtensionInverts(|src| - 15, src, 15);
      assert b[1..] == Extension(|src| - 15) + src;
    }
  }

  /** The compressor's block as it is; only where the compressor gives up, the piece as literals. */
  ghost predicate Encodes(data: Bytes, piece: Bytes, compress: Compressor) {
    match compress(piece)
    case Fails => false
    case Block(block) => data == block
    case Incompressible => OnlyLiterals(data) && DecodeBlock(data) == Some(piece)
  }

  lemma PieceEncoded(piece: Bytes, compress: Compressor)
    ensures ChunkData(piece, compress).Ok? <==> !compress(piece).Fails?
    ensures ChunkData(piece, compress).Ok? ==> Encodes(ChunkData(piece, compress).value, piece, compress)
  {
    LiteralDecodes(piece);
    LiteralOnly(piece);
  }

  /** The compressor fails on no piece from number `k` on. */
  ghost predicate NoneFails(src: Bytes, k: nat, compress: Compressor) {
    forall j | k <= j < PieceCount(src) :: !compress(Cut(src, j)).Fails?
  }

  lemma CutAt(src: Bytes, k: nat)
    ensures CHUNK * k < |src| <==> k < PieceCount(src)
    ensures k < PieceCount(src) ==> Cut(src, k) == src[CHUNK * k..ChunkEnd(src, CHUNK * k)]
  {
  }

  lemma FirstFails(src: Bytes, k: nat, compress: Compressor)
    requires k <= PieceCount(src)
    ensures NoneFails(src, k, compress) <==>
              k == PieceCount(src) || (!compress(Cut(src, k)).Fails? && NoneFails(src, k + 1, compress))
  {
    hide Cut, PieceCount;
  }

  /** The chunks from piece `k` on are there exactly if no piece fails, one for each, and encode them. */
  ghost predicate AllEncoded(src: Bytes, k: nat, compress: Compressor, r: Result<seq<Chunk>>) {
    && (r.Ok? <==> NoneFails(src, k, compress))
    && (r.Ok? ==> k + |r.value| == PieceCount(src))
    && (r.Ok? ==> forall j | 0 <= j < |r.value| :: Encodes(r.value[j].data, Cut(src, k + j), compress))
  }

  lemma EncodedBehind(src: Bytes, k: nat, compress: Compressor, chunk: Chunk, later: Result<seq<Chunk>>)
    requires k < PieceCount(src) && AllEncoded(src, k + 1, compress, later)
    requires !compress(Cut(src, k)).Fails? && Encodes(chunk.data, Cut(src, k), compress)
    ensures AllEncoded(src, k, compress, if later.Ok? then Ok([chunk] + later.value) else later)
  {
    hide Sound, Encodes, Cut, PieceCount, NoneFails;
    FirstFails(src, k, compress);
    if later.Ok? {
      var r := [chunk] + later.value;
      forall j | 0 <= j < |r|
        ensures Encodes(r[j].data, Cut(src, k + j), compress)
      {
        assert j > 0 ==> r[j] == later.value[j - 1] && k + j == (k + 1) + (j - 1);
      }
    }
  }

  lemma {:induction false} PiecesEncoded(src: Bytes, k: nat, compress: Compressor)
    requires k <= PieceCount(src)
    ensures AllEncoded(src, k, compress, ChunksFrom(src, CHUNK * k, k, compress))
    decreases PieceCount(src) - k
  {
    hide Sound, Encodes, ChunkData, Cut, PieceCount, LastIndex, ChunkEnd, NoneFails, AllEncoded;
    CutAt(src, k);
    if k < PieceCount(src) {
      PieceEncoded(Cut(src, k), compress);
      PiecesEncoded(src, k + 1, compress);
      var data := ChunkData(Cut(src, k), compress);
      if data.Ok? {
        EncodedBehind(src, k, compress, MakeChunk(src, CHUNK * k, k, data.value),
                      ChunksFrom(src, CHUNK * (k + 1), k + 1, compress));
      } else {
        FailsHere(src, k, compress, data.message);
      }
    } else {
      NoPieceLeft(src, k, compress);
    }
  }

  lemma FailsHere(src: Bytes, k: nat, compress: Compressor, message: string)
    requires k < PieceCount(src) && compress(Cut(src, k)).Fails?
    ensures AllEncoded(src, k, compress, Err(message))
  {
  }

  lemma NoPieceLeft(src: Bytes, k: nat, compress: Compressor)
    requires k == PieceCount(src)
    ensures AllEncoded(src, k, compress, Ok([]))
  {
  }

  /**
   Compression succeeds exactly if the compressor fails on no piece of 4800 bytes; giving up on one is no failure. The
   chunks read back are one for each piece: the compressor's block, or literals where it gave up.
   */
  lemma PayloadSucceeds(src: Bytes, compress: Compressor)
    ensures Payload(src, compress).Ok? <==> NoneFails(src, 0, compress)
    ensures Payload(src, compress).Ok? ==>
              && Parse(Payload(src, compress).value).Some?
              && var chunks := Parse(Payload(src, compress).value).value;
                 && |chunks| == PieceCount(src)
                 && forall k | 0 <= k < |chunks| :: Encodes(chunks[k].data, Cut(src, k), compress)
  {
    hide Parse, ParseChunk, Header, Serialise, Encodes, Cut, PieceCount, Sound, ChunkData, NoneFails;
    PiecesEncoded(src, 0, compress);
    if Payload(src, compress).Ok? {
      var chunks := ChunksFrom(src, 0, 0, compress).value;
      SizesFit(src, 0, 0, compress);
      ParseInverts(chunks);
    }
  }

  /** No chunk is too long for its length field. */
  lemma {:induction false} SizesFit(src: Bytes, off: nat, index: nat, compress: Compressor)
    requires ChunksFrom(src, off, index, compress).Ok?
    ensures forall c | c in ChunksFrom(src, off, index, compress).value :: c.size == |c.data|
    decreases |src| - off
  {
    hide DecodeBlock, Sound, LastIndex;
    if off < |src| {
      SizesFit(src, off + CHUNK, index + 1, compress);
      var data := ChunkData(src[off..ChunkEnd(src, off)], compress).value;
      assert |data| < TWO32;
    }
  }

  // ---------------------------------------------------------------------------------------------
  // Sizes
  // ---------------------------------------------------------------------------------------------

  /**
   A block expands at most 255-fold and a chunk costs at least its header: the payload bounds the source from above.
   */
  lemma {:induction false} ChunksBoundSource(src: Bytes, off: nat, index: nat, compress: Compressor)
    requires ChunksFrom(src, off, index, compress).Ok? && off < |src|
    ensures 10920 * (|src| - off) <= 1224000 * |Serialise(ChunksFrom(src, off, index, compress).value)|
    ensures |Serialise(ChunksFrom(src, off, index, compress).value)|
              <= 2 * (|src| - off) + 40 * ((|src| - off - 1) / CHUNK + 1)
    decreases |src| - off
  {
    hide DecodeBlock, ChunkData, Sound, MakeChunk, Header, LastIndex;
    var end := ChunkEnd(src, off);
    var data := ChunkData(src[off..end], compress).value;
    assert |src[off..end]| <= 255 * |data|;
    var chunk := MakeChunk(src, off, index, data);
    assert chunk.data == data by {
      MakeChunkData(src, off, index, data);
    }
    if off + CHUNK < |src| {
      ChunksBoundSource(src, off + CHUNK, index + 1, compress);
    } else {
      assert ChunksFrom(src, off + CHUNK, index + 1, compress).value == [];
    }
  }

  lemma MakeChunkData(src: Bytes, off: nat, index: nat, data: Bytes)
    requires off < |src|
    ensures MakeChunk(src, off, index, data).data == data
  {
  }

  /** A payload within the record limit of 32 MiB comes from less than 4 GiB of source: no length field can overflow. */
  lemma PayloadBoundsSource(src: Bytes, compress: Compressor)
    ensures Payload(src, compress).Ok? && |Payload(src, compress).value| <= 0x200_0000 ==> |src| < TWO32
  {
    hide DecodeBlock, ChunkData, Sound, MakeChunk, Header;
    if src != [] && Payload(src, compress).Ok? {
      ChunksBoundSource(src, 0, 0, compress);
    }
  }

  /** The length of the payload, 0 if there is none. */
  function PayloadLength(src: Bytes, compress: Compressor): nat {
    match Payload(src, compress)
    case Err(_) => 0
    case Ok(payload) => |payload|
  }

  /** A source of up to 16 MB always fits the record limit, however badly it compresses. */
  lemma SourceBoundsPayload(src: Bytes, compress: Compressor)
    requires |src| <= 16_000_000
    ensures Payload(src, compress).Ok? ==> |Payload(src, compress).value| <= 0x200_0000
  {
    hide DecodeBlock, ChunkData, Sound, MakeChunk, Header;
    if src != [] && Payload(src, compress).Ok? {
      ChunksBoundSource(src, 0, 0, compress);
    }
  }
}
