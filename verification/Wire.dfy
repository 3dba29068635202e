/** The maboo-wire frame format: what both writers put on a stream and what both readers make of it. */
module Wire {
  import opened Bytes

  const MAGIC0: Byte := 0x4D
  const MAGIC1: Byte := 0x42
  const VERSION: Byte := 0x01
  const HEADER_SIZE := 14

  const TYPE_REQUEST := 0x01
  const TYPE_RESPONSE := 0x02
  const TYPE_STREAM_DATA := 0x03
  const TYPE_STREAM_CLOSE := 0x04
  const TYPE_WORKER_READY := 0x05
  const TYPE_WORKER_STOP := 0x06
  const TYPE_PING := 0x07
  const TYPE_ERROR := 0x08

  /** Go's fields are fixed-width; PHP's are plain integers, hence the wide types. */
  datatype Frame = Frame(kind: int, flags: int, streamId: int, headers: seq<Byte>, payload: seq<Byte>)

  /** The 14 leading bytes. Every field is cut to its width, as the writers do. */
  function Header(f: Frame): (r: seq<Byte>)
    ensures |r| == HEADER_SIZE
  {
    [MAGIC0, MAGIC1, VERSION, f.kind % 256, f.flags % 256]
      + BE(f.streamId, 2) + BE(|f.headers|, 3) + BE(|f.payload|, 4)
  }

  function Encode(f: Frame): seq<Byte> {
    Header(f) + f.headers + f.payload
  }

  /** Accept: the frame and what follows it. Reject: what an unsuccessful read leaves on the stream. */
  datatype Parsed = Accept(frame: Frame, rest: seq<Byte>) | Reject(rest: seq<Byte>)

  function Parse(b: seq<Byte>): Parsed {
    if |b| < HEADER_SIZE then Reject([])
    else if b[0] != MAGIC0 || b[1] != MAGIC1 || b[2] != VERSION then Reject(b[HEADER_SIZE..])
    else
      var (h, p) := (FromBE(b[7..10]), FromBE(b[10..14]));
      if |b| < HEADER_SIZE + h + p then Reject([])
      else Accept(Frame(b[3], b[4], FromBE(b[5..7]), b[14..14 + h], b[14 + h..14 + h + p]), b[14 + h + p..])
  }

  predicate Representable(f: Frame) {
    && 0 <= f.kind < 256 && 0 <= f.flags < 256 && 0 <= f.streamId < U16
    && |f.headers| < U24 && |f.payload| < U32
  }

  lemma HeaderFields(f: Frame, rest: seq<Byte>)
    ensures var b := Encode(f) + rest;
      && |b| >= HEADER_SIZE
      && b[0] == MAGIC0 && b[1] == MAGIC1 && b[2] == VERSION && b[3] == f.kind % 256 && b[4] == f.flags % 256
      && b[5..7] == BE(f.streamId, 2) && b[7..10] == BE(|f.headers|, 3) && b[10..14] == BE(|f.payload|, 4)
      && b[14..] == f.headers + f.payload + rest
  {
  }

  /** Where three concatenated parts lie behind the first `at` bytes. */
  lemma Cut(b: seq<Byte>, at: nat, x: seq<Byte>, y: seq<Byte>, z: seq<Byte>)
    requires at <= |b| && b[at..] == x + y + z
    ensures |b| == at + |x| + |y| + |z|
    ensures b[at..at + |x|] == x && b[at + |x|..at + |x| + |y|] == y && b[at + |x| + |y|..] == z
  {
    assert b[at..at + |x|] == b[at..][..|x|];
    assert b[at + |x|..at + |x| + |y|] == b[at..][|x|..|x| + |y|];
    assert b[at + |x| + |y|..] == b[at..][|x| + |y|..];
  }

  /** The numbers of a representable frame come back from their bytes. */
  lemma FieldValues(f: Frame)
    requires Representable(f)
    ensures FromBE(BE(f.streamId, 2)) == f.streamId
    ensures FromBE(BE(|f.headers|, 3)) == |f.headers| && FromBE(BE(|f.payload|, 4)) == |f.payload|
  {
    hide BE, FromBE;
    Pows();
    BERoundTrip(f.streamId, 2);
    BERoundTrip(|f.headers|, 3);
    BERoundTrip(|f.payload|, 4);
  }

  lemma ParseEncode(f: Frame, rest: seq<Byte>)
    requires Representable(f)
    ensures Parse(Encode(f) + rest) == Accept(f, rest)
  {
    hide BE, FromBE, Encode;
    HeaderFields(f, rest);
    FieldValues(f);
    Cut(Encode(f) + rest, HEADER_SIZE, f.headers, f.payload, rest);
  }

  lemma FieldRanges(b: seq<Byte>)
    requires |b| >= HEADER_SIZE
    ensures FromBE(b[5..7]) < U16 && FromBE(b[7..10]) < U24 && FromBE(b[10..14]) < U32
    ensures b == b[..5] + BE(FromBE(b[5..7]), 2) + BE(FromBE(b[7..10]), 3) + BE(FromBE(b[10..14]), 4) + b[14..]
  {
    hide BE, FromBE;
    Pows();
    FromBERoundTrip(b[5..7]);
    FromBERoundTrip(b[7..10]);
    FromBERoundTrip(b[10..14]);
  }

  /** What is accepted is in range, and its bytes are the one encoding of the frame. */
  lemma EncodeParse(b: seq<Byte>)
    requires Parse(b).Accept?
    ensures Representable(Parse(b).frame) && b == Encode(Parse(b).frame) + Parse(b).rest
  {
    hide BE, FromBE;
    var (f, rest) := (Parse(b).frame, Parse(b).rest);
    FieldRanges(b);
    assert b[..5] == [MAGIC0, MAGIC1, VERSION, f.kind % 256, f.flags % 256];
    assert b[14..] == f.headers + f.payload + rest;
    assert b == Header(f) + b[14..];
  }

  /** The layout, byte by byte: "MB", version 1, type, flags, and stream id, header length and payload length
      with their most significant byte first. */
  lemma Layout(f: Frame)
    requires Representable(f)
    ensures var b := Encode(f);
      && |b| == 14 + |f.headers| + |f.payload|
      && b[..5] == [0x4D, 0x42, 0x01, f.kind, f.flags]
      && f.streamId == 256 * b[5] as int + b[6] as int
      && |f.headers| == 65536 * b[7] as int + 256 * b[8] as int + b[9] as int
      && |f.payload| == 16777216 * b[10] as int + 65536 * b[11] as int + 256 * b[12] as int + b[13] as int
      && b[14..] == f.headers + f.payload
  {
    hide FromBE, BE, Encode;
    HeaderFields(f, []);
    assert Encode(f) + [] == Encode(f) && f.headers + f.payload + [] == f.headers + f.payload;
    FieldValues(f);
    var b := Encode(f);
    assert b[..5] == [b[0], b[1], b[2], b[3], b[4]];
    Digits2(b[5..7]);
    Digits3(b[7..10]);
    Digits4(b[10..14]);
  }

  lemma Digits2(b: seq<Byte>)
    requires |b| == 2
    ensures FromBE(b) == 256 * b[0] as int + b[1] as int
  {
    assert b[..1][..0] == [];
  }

  lemma Digits3(b: seq<Byte>)
    requires |b| == 3
    ensures FromBE(b) == 65536 * b[0] as int + 256 * b[1] as int + b[2] as int
  {
    Digits2(b[..2]);
  }

  lemma Digits4(b: seq<Byte>)
    requires |b| == 4
    ensures FromBE(b) == 16777216 * b[0] as int + 65536 * b[1] as int + 256 * b[2] as int + b[3] as int
  {
    Digits3(b[..3]);
  }

  /** A frame survives the trip exactly when its fields fit their widths. */
  lemma RoundTripIff(f: Frame, rest: seq<Byte>)
    ensures Parse(Encode(f) + rest) == Accept(f, rest) <==> Representable(f)
  {
    if Representable(f) {
      ParseEncode(f, rest);
    } else if Parse(Encode(f) + rest) == Accept(f, rest) {
      EncodeParse(Encode(f) + rest);
      assert false;
    }
  }

  /** No strict prefix of an accepted frame is accepted, whatever follows the frame. */
  lemma PrefixRejected(b: seq<Byte>, k: nat)
    requires Parse(b).Accept? && k < |b| - |Parse(b).rest|
    ensures Parse(b[..k]) == Reject([])
  {
    if k >= HEADER_SIZE {
      assert b[..k][7..10] == b[7..10] && b[..k][10..14] == b[10..14];
    }
  }

  // --- streams of frames ---

  function EncodeAll(fs: seq<Frame>): seq<Byte> {
    if fs == [] then [] else Encode(fs[0]) + EncodeAll(fs[1..])
  }

  lemma {:induction false} EncodeAllAppend(fs: seq<Frame>, f: Frame)
    ensures EncodeAll(fs + [f]) == EncodeAll(fs) + Encode(f)
  {
    if fs == [] {
      assert EncodeAll([f]) == Encode(f) + EncodeAll([]);
    } else {
      assert (fs + [f])[1..] == fs[1..] + [f];
      EncodeAllAppend(fs[1..], f);
    }
  }

  /** The stream determines the frames: two lists with the same bytes are the same list. */
  lemma {:induction false} StreamDecodesUniquely(fs: seq<Frame>, gs: seq<Frame>)
    requires forall f :: f in fs ==> Representable(f)
    requires forall g :: g in gs ==> Representable(g)
    requires EncodeAll(fs) == EncodeAll(gs)
    ensures fs == gs
  {
    if fs != [] && gs != [] {
      ParseEncode(fs[0], EncodeAll(fs[1..]));
      ParseEncode(gs[0], EncodeAll(gs[1..]));
      StreamDecodesUniquely(fs[1..], gs[1..]);
    }
  }
}
