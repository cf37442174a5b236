/** The frame format (src/protocol.cpp) on big-endian words (src/utils.cpp). */
module Protocol {
  import opened Basics

  // ---------------------------------------------------------------- big-endian words

  function Power256(n: nat): (p: nat)
    ensures p > 0
  {
    if n == 0 then 1 else 0x100 * Power256(n - 1)
  }

  /** The `n` low-order bytes of `v`, most significant first. */
  function BigEndian(n: nat, v: nat): (r: Bytes)
    ensures |r| == n
  {
    if n == 0 then [] else BigEndian(n - 1, v / 0x100) + [v % 0x100]
  }

  function WordValue(b: Bytes): nat {
    if b == [] then 0 else 0x100 * WordValue(b[..|b| - 1]) + b[|b| - 1]
  }

  lemma {:induction false} WordValueOfBigEndian(n: nat, v: nat)
    requires v < Power256(n)
    ensures WordValue(BigEndian(n, v)) == v
  {
    if n > 0 {
      WordValueOfBigEndian(n - 1, v / 0x100);
      assert BigEndian(n, v)[..n - 1] == BigEndian(n - 1, v / 0x100);
    }
  }

  lemma {:induction false} BigEndianOfWordValue(b: Bytes)
    ensures WordValue(b) < Power256(|b|)
    ensures BigEndian(|b|, WordValue(b)) == b
  {
    if b != [] {
      BigEndianOfWordValue(b[..|b| - 1]);
    }
  }

  method WriteU16Be(p: array<Byte>, at: nat, v: U16)
    requires at + 2 <= p.Length
    modifies p
    ensures p[..] == old(p[..at]) + BigEndian(2, v) + old(p[at + 2..])
  {
    p[at] := v / 0x100;
    p[at + 1] := v % 0x100;
    assert BigEndian(1, v / 0x100) == BigEndian(0, v / 0x1_0000) + [v / 0x100];
  }

  method WriteU32Be(p: array<Byte>, at: nat, v: U32)
    requires at + 4 <= p.Length
    modifies p
    ensures p[..] == old(p[..at]) + BigEndian(4, v) + old(p[at + 4..])
  {
    hide BigEndian;
    ghost var was := p[..];
    p[at] := v / 0x100_0000;
    p[at + 1] := v / 0x1_0000 % 0x100;
    p[at + 2] := v / 0x100 % 0x100;
    p[at + 3] := v % 0x100;
    FourBytes(v);
    assert p[..] == was[..at] + BigEndian(4, v) + was[at + 4..];
  }

  lemma FourBytes(v: U32)
    ensures BigEndian(4, v) == [v / 0x100_0000, v / 0x1_0000 % 0x100, v / 0x100 % 0x100, v % 0x100]
  {
    assert BigEndian(1, v / 0x100_0000) == BigEndian(0, v / 0x1_0000_0000) + [v / 0x100_0000];
    assert v / 0x1_0000 / 0x100 == v / 0x100_0000;
    assert BigEndian(2, v / 0x1_0000) == [v / 0x100_0000, v / 0x1_0000 % 0x100];
    assert v / 0x100 / 0x100 == v / 0x1_0000;
    assert BigEndian(3, v / 0x100) == BigEndian(2, v / 0x1_0000) + [v / 0x100 % 0x100];
  }

  method WriteU64Be(p: array<Byte>, at: nat, v: U64)
    requires at + 8 <= p.Length
    modifies p
    ensures p[..] == old(p[..at]) + BigEndian(8, v) + old(p[at + 8..])
  {
    hide BigEndian;
    ghost var was := p[..];
    WriteU32Be(p, at, v / 0x1_0000_0000);
    ghost var half := p[..];
    WriteU32Be(p, at + 4, v % 0x1_0000_0000);
    EightBytes(v);
    TwoWrites(was, half, p[..], at, BigEndian(4, v / 0x1_0000_0000), BigEndian(4, v % 0x1_0000_0000));
  }

  lemma TwoWrites(was: Bytes, half: Bytes, now: Bytes, at: nat, a: Bytes, b: Bytes)
    requires at + |a| + |b| <= |was| && half == was[..at] + a + was[at + |a|..]
    requires now == half[..at + |a|] + b + half[at + |a| + |b|..]
    ensures now == was[..at] + (a + b) + was[at + |a| + |b|..]
  {
    assert half[..at + |a|] == was[..at] + a;
    assert half[at + |a| + |b|..] == was[at + |a| + |b|..];
  }

  lemma EightBytes(v: U64)
    ensures BigEndian(8, v) == BigEndian(4, v / 0x1_0000_0000) + BigEndian(4, v % 0x1_0000_0000)
  {
    var high, low := BigEndian(4, v / 0x1_0000_0000), BigEndian(4, v % 0x1_0000_0000);
    assert Power256(4) == TWO_TO_THE_32;
    WordValueOfBigEndian(4, v / 0x1_0000_0000);
    WordValueOfBigEndian(4, v % 0x1_0000_0000);
    WordValueConcat(high, low);
    BigEndianOfWordValue(high + low);
  }

  lemma {:induction false} WordValueConcat(b: Bytes, low: Bytes)
    ensures WordValue(b + low) == WordValue(b) * Power256(|low|) + WordValue(low)
  {
    if low == [] {
      assert b + low == b;
    } else {
      var init := low[..|low| - 1];
      WordValueConcat(b, init);
      assert (b + low)[..|b + low| - 1] == b + init;
      assert 0x100 * (WordValue(b) * Power256(|init|)) == WordValue(b) * (0x100 * Power256(|init|));
    }
  }

  /** std::memcpy into a buffer. */
  method CopyInto(p: array<Byte>, at: nat, src: Bytes)
    requires at + |src| <= p.Length
    modifies p
    ensures p[..] == old(p[..at]) + src + old(p[at + |src|..])
  {
    ghost var was := p[..];
    for i := 0 to |src|
      invariant p[..] == was[..at] + src[..i] + was[at + i..]
    {
      p[at + i] := src[i];
      assert src[..i + 1] == src[..i] + [src[i]];
    }
  }

  // ---------------------------------------------------------------- frames

  const HEADER_SIZE: nat := 12
  const MAX_FRAME_SIZE: nat := 2 * 1024 * 1024
  const MAGIC: Bytes := [0x43, 0x53, 0x54, 0x52]  // "CSTR"
  const VERSION: Byte := 1
  const JSON: Byte := 0
  const CHUNK: Byte := 1

  datatype Frame = Frame(kind: Byte, flags: U16, payload: Bytes)

  datatype Header = Header(kind: Byte, flags: U16, length: U32)

  predicate Legal(f: Frame) { |f.payload| <= MAX_FRAME_SIZE }

  /** A frame on the wire. */
  function Wire(f: Frame): (r: Bytes)
    ensures |r| == HEADER_SIZE + |f.payload|
  {
    MAGIC + [VERSION, f.kind] + BigEndian(2, f.flags) + BigEndian(4, |f.payload|) + f.payload
  }

  /** The layout, byte by byte: "CSTR", version 1, the kind, and flags and length with the high byte first. */
  lemma WireLayout(f: Frame)
    requires Legal(f)
    ensures var w, n := Wire(f), |f.payload|;
            && w[..6] == [0x43, 0x53, 0x54, 0x52, 1, f.kind]
            && w[6] == f.flags / 0x100 && w[7] == f.flags % 0x100
            && w[8] == n / 0x100_0000 && w[9] == n / 0x1_0000 % 0x100 && w[10] == n / 0x100 % 0x100
            && w[11] == n % 0x100
            && w[12..] == f.payload
  {
    FourBytes(|f.payload|);
    assert BigEndian(1, f.flags / 0x100) == BigEndian(0, f.flags / 0x1_0000) + [f.flags / 0x100];
    var w := Wire(f);
    assert w[6..8] == BigEndian(2, f.flags) && w[8..12] == BigEndian(4, |f.payload|);
    hide BigEndian;
  }

  method Encode(kind: Byte, payload: Bytes, flags: U16) returns (r: Result<Bytes>)
    ensures r == if |payload| > MAX_FRAME_SIZE then Err(PayloadTooLarge)
                 else Ok(Wire(Frame(kind, flags, payload)))
  {
    if |payload| > MAX_FRAME_SIZE {
      return Err(PayloadTooLarge);
    }
    var out := new Byte[HEADER_SIZE + |payload|];
    CopyInto(out, 0, MAGIC);
    out[4] := VERSION;
    out[5] := kind;
    WriteU16Be(out, 6, flags);
    WriteU32Be(out, 8, |payload|);
    assert out[..HEADER_SIZE] == MAGIC + [VERSION, kind] + BigEndian(2, flags) + BigEndian(4, |payload|);
    ghost var head := out[..HEADER_SIZE];
    if payload != [] {
      CopyInto(out, HEADER_SIZE, payload);
    }
    assert out[..] == head + payload;
    return Ok(out[..]);
  }

  function ReadU16Be(p: Bytes, at: nat): U16
    requires at + 2 <= |p|
  {
    0x100 * (p[at] as int) + p[at + 1] as int
  }

  function ReadU32Be(p: Bytes, at: nat): U32
    requires at + 4 <= |p|
  {
    0x100_0000 * (p[at] as int) + 0x1_0000 * (p[at + 1] as int) + 0x100 * (p[at + 2] as int) + p[at + 3] as int
  }

  function ReadU64Be(p: Bytes, at: nat): U64
    requires at + 8 <= |p|
  {
    0x100_0000_0000_0000 * (p[at] as int) + 0x1_0000_0000_0000 * (p[at + 1] as int)
      + 0x100_0000_0000 * (p[at + 2] as int) + 0x1_0000_0000 * (p[at + 3] as int)
      + 0x100_0000 * (p[at + 4] as int) + 0x1_0000 * (p[at + 5] as int)
      + 0x100 * (p[at + 6] as int) + p[at + 7] as int
  }

  /** Each reader returns the value of the bytes it reads. */
  lemma ReadWords(p: Bytes, at: nat)
    ensures at + 2 <= |p| ==> ReadU16Be(p, at) == WordValue(p[at..at + 2])
    ensures at + 4 <= |p| ==> ReadU32Be(p, at) == WordValue(p[at..at + 4])
    ensures at + 8 <= |p| ==> ReadU64Be(p, at) == WordValue(p[at..at + 8])
  {
    hide WordValue, ReadU16Be, ReadU32Be, ReadU64Be;
    if at + 2 <= |p| {
      ReadWord16(p, at);
    }
    if at + 4 <= |p| {
      ReadWord32(p, at);
    }
    if at + 8 <= |p| {
      ReadWord64(p, at);
    }
  }

  lemma ReadWord16(p: Bytes, at: nat)
    requires at + 2 <= |p|
    ensures ReadU16Be(p, at) == WordValue(p[at..at + 2])
  {
    OneMore([], p[at]);
    OneMore([p[at]], p[at + 1]);
    assert p[at..at + 2] == [p[at]] + [p[at + 1]];
  }

  lemma ReadWord32(p: Bytes, at: nat)
    requires at + 4 <= |p|
    ensures ReadU32Be(p, at) == WordValue(p[at..at + 4])
  {
    ReadWord16(p, at);
    OneMore(p[at..at + 2], p[at + 2]);
    OneMore(p[at..at + 3], p[at + 3]);
    assert p[at..at + 3] == p[at..at + 2] + [p[at + 2]];
    assert p[at..at + 4] == p[at..at + 3] + [p[at + 3]];
  }

  lemma ReadWord64(p: Bytes, at: nat)
    requires at + 8 <= |p|
    ensures ReadU64Be(p, at) == WordValue(p[at..at + 8])
  {
    assert Power256(4) == TWO_TO_THE_32;
    hide WordValue, Power256;
    ReadWord32(p, at);
    ReadWord32(p, at + 4);
    assert p[at..at + 8] == p[at..at + 4] + p[at + 4..at + 8];
    WordValueConcat(p[at..at + 4], p[at + 4..at + 8]);
  }

  lemma OneMore(b: Bytes, x: Byte)
    ensures WordValue(b + [x]) == 0x100 * WordValue(b) + x
  {
    assert (b + [x])[..|b|] == b;
  }

  /** The header at the head of a buffer of at least twelve bytes. */
  function ParseHeader(h: Bytes): Option<Header>
    requires |h| >= HEADER_SIZE
  {
    if h[0] != MAGIC[0] || h[1] != MAGIC[1] || h[2] != MAGIC[2] || h[3] != MAGIC[3] then None
    else
      var length := ReadU32Be(h, 8);
      if h[4] == VERSION && length <= MAX_FRAME_SIZE
      then Some(Header(h[5], ReadU16Be(h, 6), length))
      else None
  }

  /** Which headers are refused: a wrong magic, a version other than 1, or a length above 2 MiB. */
  lemma HeaderRefused(h: Bytes)
    requires |h| >= HEADER_SIZE
    ensures ParseHeader(h).None? <==>
              || h[..4] != [0x43, 0x53, 0x54, 0x52] || h[4] != 1
              || 0x100_0000 * (h[8] as int) + 0x1_0000 * (h[9] as int) + 0x100 * (h[10] as int) + h[11] as int
                 > 0x20_0000
  {
    assert h[..4] == [h[0], h[1], h[2], h[3]];
  }

  /** Every legal frame's header parses to that frame's fields, whatever follows it. */
  lemma ParseHeaderOfWire(f: Frame, h: Bytes)
    requires Legal(f) && |h| >= HEADER_SIZE && h[..HEADER_SIZE] == Wire(f)[..HEADER_SIZE]
    ensures ParseHeader(h) == Some(Header(f.kind, f.flags, |f.payload|))
  {
    var w := h[..HEADER_SIZE];
    assert w[..4] == MAGIC && w[4] == VERSION && w[5] == f.kind;
    assert h[6..8] == w[6..8] == BigEndian(2, f.flags);
    assert h[8..12] == w[8..12] == BigEndian(4, |f.payload|);
    ReadWords(h, 6);
    ReadWords(h, 8);
    assert Power256(2) == TWO_TO_THE_16 && Power256(4) == TWO_TO_THE_32;
    WordValueOfBigEndian(2, f.flags);
    WordValueOfBigEndian(4, |f.payload|);
  }

  /** Only the bytes of that frame parse to its header: parsing accepts nothing else. */
  lemma WireOfParseHeader(h: Bytes, payload: Bytes)
    requires |h| == HEADER_SIZE && ParseHeader(h).Some?
    requires |payload| == ParseHeader(h).value.length
    ensures var p := ParseHeader(h).value; Wire(Frame(p.kind, p.flags, payload)) == h + payload
  {
    assert h == MAGIC + [VERSION, h[5]] + h[6..8] + h[8..12];
    ReadWords(h, 6);
    ReadWords(h, 8);
    BigEndianOfWordValue(h[6..8]);
    BigEndianOfWordValue(h[8..12]);
  }

  // ---------------------------------------------------------------- chunks

  datatype Chunk = Chunk(fileId: Bytes, offset: U64, data: Bytes)

  function ChunkPayload(c: Chunk): Bytes {
    c.fileId + BigEndian(8, c.offset) + c.data
  }

  method EncodeChunk(fileId: Bytes, offset: U64, data: Bytes) returns (r: Result<Bytes>)
    ensures r == if |fileId| != 32 then Err(BadRequest)
                 else if 40 + |data| > MAX_FRAME_SIZE then Err(PayloadTooLarge)
                 else Ok(Wire(Frame(CHUNK, 0, ChunkPayload(Chunk(fileId, offset, data)))))
  {
    if |fileId| != 32 {
      return Err(BadRequest);
    }
    var payload := new Byte[40 + |data|];
    CopyInto(payload, 0, fileId);
    WriteU64Be(payload, 32, offset);
    ghost var head := payload[..40];
    assert head == fileId + BigEndian(8, offset);
    if data != [] {
      CopyInto(payload, 40, data);
    }
    assert payload[..] == head + data;
    r := Encode(CHUNK, payload[..], 0);
  }

  function DecodeChunk(payload: Bytes): Option<Chunk> {
    if |payload| < 40 then None
    else Some(Chunk(payload[..32], ReadU64Be(payload, 32), payload[40..]))
  }

  lemma WordBound()
    ensures Power256(8) == TWO_TO_THE_64
  {
    assert Power256(4) == TWO_TO_THE_32;
    assert Power256(8) == 0x100 * (0x100 * (0x100 * (0x100 * Power256(4)))) by {
      assert Power256(6) == 0x100 * (0x100 * Power256(4));
    }
  }

  /** decodeChunk undoes encodeChunk. */
  lemma DecodeChunkOfPayload(c: Chunk)
    requires |c.fileId| == 32
    ensures DecodeChunk(ChunkPayload(c)) == Some(c)
  {
    var p := ChunkPayload(c);
    assert p[..32] == c.fileId && p[32..40] == BigEndian(8, c.offset) && p[40..] == c.data;
    ReadWords(p, 32);
    WordBound();
    WordValueOfBigEndian(8, c.offset);
  }

  /** The id, the offset with the high byte first, and the bytes. */
  lemma ChunkLayout(c: Chunk)
    requires |c.fileId| == 32
    ensures var p := ChunkPayload(c);
            && p[..32] == c.fileId && p[40..] == c.data
            && c.offset == 0x100_0000_0000_0000 * (p[32] as int) + 0x1_0000_0000_0000 * (p[33] as int)
                           + 0x100_0000_0000 * (p[34] as int) + 0x1_0000_0000 * (p[35] as int)
                           + 0x100_0000 * (p[36] as int) + 0x1_0000 * (p[37] as int)
                           + 0x100 * (p[38] as int) + p[39] as int
  {
    hide BigEndian;
    DecodeChunkOfPayload(c);
  }

  /** encodeChunk undoes decodeChunk: no two payloads decode alike. */
  lemma PayloadOfDecodeChunk(payload: Bytes)
    requires DecodeChunk(payload).Some?
    ensures ChunkPayload(DecodeChunk(payload).value) == payload
    ensures |DecodeChunk(payload).value.fileId| == 32
  {
    ReadWords(payload, 32);
    BigEndianOfWordValue(payload[32..40]);
    assert payload == payload[..32] + payload[32..40] + payload[40..];
  }
}
