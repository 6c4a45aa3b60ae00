/** ISFP frames: a 20-byte big-endian header followed by the compressed payload. */
module Codec {
  import opened Bytes

  const MAGIC: nat := 0x5057
  const VERSION: byte := 1
  const HEADER_SIZE: nat := 20
  const MAX_FRAME_LEN: nat := 0x10_0000
  const MAX_DECOMPRESSED_LEN: nat := 0x100_0000

  const TYPE_DATA: byte := 1
  const TYPE_HEARTBEAT: byte := 2
  const TYPE_DATA_ZSTD: byte := 4

  const ACK_SUCCESS: byte := 0xff
  const ACK_FAIL: byte := 0x00

  datatype Error =
    | TooShort
    | BadMagic
    | BadVersion
    | TooLarge
    | LengthMismatch
    | BadCrc
    | HeartbeatWithPayload
    | UnsupportedType

  datatype Result<+T> = Ok(value: T) | Err(error: Error)

  /** A parsed header. Magic and version are fixed, so a header that parses is given by the rest. */
  datatype Header = Header(typ: byte, seqNo: u64, length: u32, crc: u32)

  datatype Frame = Frame(typ: byte, seqNo: u64, crc: u32, payload: bytes)

  function HeaderBytes(h: Header): (s: bytes)
    ensures |s| == HEADER_SIZE
  {
    Be(MAGIC, 2) + [VERSION] + [h.typ] + Be(h.seqNo, 8) + Be(h.length, 4) + Be(h.crc, 4)
  }

  function ParseHeader(buf: bytes): Result<Header> {
    if |buf| < HEADER_SIZE then Err(TooShort)
    else if UnBe(buf[0..2]) != MAGIC then Err(BadMagic)
    else if buf[2] != VERSION then Err(BadVersion)
    else
      Widths();
      var length := UnBe(buf[12..16]);
      if HEADER_SIZE + length > MAX_FRAME_LEN then Err(TooLarge)
      else Ok(Header(buf[3], UnBe(buf[4..12]), length, UnBe(buf[16..20])))
  }

  function Decode(crcOf: bytes -> u32, frame: bytes): Result<Frame> {
    if |frame| < HEADER_SIZE then Err(TooShort)
    else
      match ParseHeader(frame[..HEADER_SIZE])
      case Err(e) => Err(e)
      case Ok(h) =>
        if |frame| != HEADER_SIZE + h.length then Err(LengthMismatch)
        else if crcOf(frame[HEADER_SIZE..]) != h.crc then Err(BadCrc)
        else Ok(Frame(h.typ, h.seqNo, h.crc, frame[HEADER_SIZE..]))
  }

  /** Bytes of a frame: what EncodeRaw lays out. */
  function FrameBytes(f: Frame): bytes
    requires |f.payload| < U32
  {
    HeaderBytes(Header(f.typ, f.seqNo, |f.payload|, f.crc)) + f.payload
  }

  /** Fills the first 20 bytes of `dst`, field by field. */
  method PutHeader(dst: array<byte>, h: Header)
    requires dst.Length >= HEADER_SIZE
    modifies dst
    ensures dst[..] == HeaderBytes(h) + old(dst[HEADER_SIZE..])
  {
    PutBe(dst, 0, MAGIC, 2);
    dst[2] := VERSION;
    dst[3] := h.typ;
    PutBe(dst, 4, h.seqNo, 8);
    PutBe(dst, 12, h.length, 4);
    PutBe(dst, 16, h.crc, 4);
    assert dst[0..2] == Be(MAGIC, 2) && dst[4..12] == Be(h.seqNo, 8) && dst[12..16] == Be(h.length, 4);
    assert dst[..] == dst[0..2] + [dst[2]] + [dst[3]] + dst[4..12] + dst[12..16] + dst[16..20] + dst[20..];
  }

  method EncodeRaw(typ: byte, seqNo: u64, payload: bytes, crc: u32) returns (out: array<byte>)
    requires |payload| < U32
    ensures fresh(out)
    ensures out[..] == FrameBytes(Frame(typ, seqNo, crc, payload))
  {
    out := new byte[HEADER_SIZE + |payload|](_ => 0);
    for i := 0 to |payload|
      invariant forall j :: 0 <= j < i ==> out[HEADER_SIZE + j] == payload[j]
    {
      out[HEADER_SIZE + i] := payload[i];
    }
    assert out[HEADER_SIZE..] == payload;
    PutHeader(out, Header(typ, seqNo, |payload|, crc));
  }

  /** The framing part of Encode: size and type checks around the chosen compressor. */
  function Encode(crcOf: bytes -> u32, gzip: bytes -> bytes, zstd: bytes -> bytes,
                  typ: byte, seqNo: u64, payload: bytes): Result<bytes>
  {
    if typ == TYPE_HEARTBEAT then
      if |payload| != 0 then Err(HeartbeatWithPayload)
      else Ok(FrameBytes(Frame(typ, seqNo, 0, [])))
    else if |payload| > MAX_DECOMPRESSED_LEN then Err(TooLarge)
    else if typ != TYPE_DATA && typ != TYPE_DATA_ZSTD then Err(UnsupportedType)
    else
      var packed := if typ == TYPE_DATA then gzip(payload) else zstd(payload);
      if HEADER_SIZE + |packed| > MAX_FRAME_LEN then Err(TooLarge)
      else Ok(FrameBytes(Frame(typ, seqNo, crcOf(packed), packed)))
  }

  /** A frame as the WAL stores and rescans it: its header parses and states the frame's own length. */
  predicate ValidFrame(f: bytes) {
    && HEADER_SIZE <= |f| <= MAX_FRAME_LEN
    && var h := ParseHeader(f[..HEADER_SIZE]);
       h.Ok? && |f| == HEADER_SIZE + h.value.length
  }

  function SeqOf(f: bytes): (s: nat)
    requires |f| >= HEADER_SIZE
    ensures s < U64
  {
    Widths();
    UnBe(f[4..12])
  }

  /** AppendBatch overwrites bytes 4..12 of an encoded frame with the number it assigns. */
  function RewriteSeq(f: bytes, s: nat): (r: bytes)
    requires |f| >= HEADER_SIZE
    ensures |r| == |f|
  {
    f[..4] + Be(s % U64, 8) + f[12..]
  }

  lemma HeaderFields(h: Header, rest: bytes)
    ensures var s := HeaderBytes(h) + rest;
            && s[0..2] == Be(MAGIC, 2) && s[2] == VERSION && s[3] == h.typ
            && s[4..12] == Be(h.seqNo, 8) && s[12..16] == Be(h.length, 4) && s[16..20] == Be(h.crc, 4)
  {
  }

  lemma ParsedFields(buf: bytes)
    requires ParseHeader(buf).Ok?
    ensures |buf| >= HEADER_SIZE
    ensures ParseHeader(buf).value.seqNo == UnBe(buf[4..12]) && ParseHeader(buf).value.typ == buf[3]
  {
  }

  lemma ParseAfterPut(h: Header, rest: bytes)
    requires HEADER_SIZE + h.length <= MAX_FRAME_LEN
    ensures ParseHeader(HeaderBytes(h) + rest) == Ok(h)
  {
    Widths();
    HeaderFields(h, rest);
    UnBeOfBe(MAGIC, 2);
    UnBeOfBe(h.seqNo, 8);
    UnBeOfBe(h.length, 4);
    UnBeOfBe(h.crc, 4);
  }

  lemma PutAfterParse(buf: bytes)
    requires ParseHeader(buf).Ok?
    ensures HeaderBytes(ParseHeader(buf).value) == buf[..HEADER_SIZE]
  {
    BeOfUnBe(buf[0..2]);
    BeOfUnBe(buf[4..12]);
    BeOfUnBe(buf[12..16]);
    BeOfUnBe(buf[16..20]);
    assert buf[..HEADER_SIZE]
        == buf[0..2] + [buf[2]] + [buf[3]] + buf[4..12] + buf[12..16] + buf[16..20];
  }

  /** Decode inverts the framing for every type, sequence number and payload within the limit. */
  lemma DecodeAfterEncode(crcOf: bytes -> u32, f: Frame)
    requires HEADER_SIZE + |f.payload| <= MAX_FRAME_LEN
    requires f.crc == crcOf(f.payload)
    ensures Decode(crcOf, FrameBytes(f)) == Ok(f)
    ensures ValidFrame(FrameBytes(f)) && SeqOf(FrameBytes(f)) == f.seqNo
  {
    var h := Header(f.typ, f.seqNo, |f.payload|, f.crc);
    ParseAfterPut(h, []);
    assert HeaderBytes(h) + [] == HeaderBytes(h);
    assert FrameBytes(f)[..HEADER_SIZE] == HeaderBytes(h);
    assert FrameBytes(f)[HEADER_SIZE..] == f.payload;
    HeaderFields(h, f.payload);
    Widths();
    UnBeOfBe(f.seqNo, 8);
  }

  /** Whatever Encode produces decodes to the type, number and compressed payload that went in. */
  lemma EncodeDecodes(crcOf: bytes -> u32, gzip: bytes -> bytes, zstd: bytes -> bytes,
                      typ: byte, seqNo: u64, payload: bytes)
    requires crcOf([]) == 0
    ensures var e := Encode(crcOf, gzip, zstd, typ, seqNo, payload);
            e.Ok? ==>
              && ValidFrame(e.value)
              && var packed := if typ == TYPE_HEARTBEAT then [] else if typ == TYPE_DATA then gzip(payload) else zstd(payload);
                 Decode(crcOf, e.value) == Ok(Frame(typ, seqNo, crcOf(packed), packed))
  {
    var e := Encode(crcOf, gzip, zstd, typ, seqNo, payload);
    if e.Ok? {
      var packed := if typ == TYPE_HEARTBEAT then [] else if typ == TYPE_DATA then gzip(payload) else zstd(payload);
      DecodeAfterEncode(crcOf, Frame(typ, seqNo, crcOf(packed), packed));
    }
  }

  /** Re-encoding any frame that decodes gives back the same bytes. */
  lemma EncodeAfterDecode(crcOf: bytes -> u32, frame: bytes)
    requires Decode(crcOf, frame).Ok?
    ensures FrameBytes(Decode(crcOf, frame).value) == frame
  {
    PutAfterParse(frame[..HEADER_SIZE]);
    assert frame == frame[..HEADER_SIZE] + frame[HEADER_SIZE..];
  }

  lemma RewriteSlices(f: bytes, s: nat)
    requires s < U64 && |f| >= HEADER_SIZE
    ensures var r := RewriteSeq(f, s);
            && r[0..2] == f[0..2] && r[2] == f[2] && r[3] == f[3] && r[4..12] == Be(s, 8)
            && r[12..16] == f[12..16] && r[16..20] == f[16..20] && r[20..] == f[20..]
            && r[..20] == RewriteSeq(f[..20], s)
  {
    hide Be;
    assert f[..20][..4] == f[..4] && f[..20][12..] == f[12..20];
  }

  lemma ParseRewritten(buf: bytes, s: nat)
    requires s < U64 && |buf| >= HEADER_SIZE
    ensures ParseHeader(RewriteSeq(buf, s)) == (match ParseHeader(buf)
                                                case Ok(h) => Ok(h.(seqNo := s))
                                                case Err(e) => Err(e))
  {
    RewriteSlices(buf, s);
    Widths();
    UnBeOfBe(s, 8);
  }

  /** Overwriting bytes 4..12 changes the decoded sequence number and nothing else. */
  lemma RewriteChangesOnlySeq(crcOf: bytes -> u32, frame: bytes, s: nat)
    requires s < U64 && |frame| >= HEADER_SIZE
    ensures Decode(crcOf, RewriteSeq(frame, s)) == (match Decode(crcOf, frame)
                                                    case Ok(f) => Ok(f.(seqNo := s))
                                                    case Err(e) => Err(e))
    ensures ValidFrame(frame) ==> ValidFrame(RewriteSeq(frame, s))
    ensures SeqOf(RewriteSeq(frame, s)) == s
  {
    RewriteSlices(frame, s);
    ParseRewritten(frame[..HEADER_SIZE], s);
    Widths();
    UnBeOfBe(s, 8);
  }
}
