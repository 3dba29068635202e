/** The two writers and the two readers as they run: Go's on reused buffers, PHP's by string building and
    by a loop of short reads. All four are proved against the one format in Wire. */
module WireIO {
  import opened Common
  import opened Bytes
  import opened Slices
  import opened Wire

  /** The receiving end of a pipe. A read returns any non-empty part of what is there, up to a maximum, and
      nothing at end of file. */
  class ByteStream {
    var rest: seq<Byte>
    var chunks: seq<nat>

    /** `chunks` is the environment's choice of sizes. */
    constructor (bytes: seq<Byte>, chunks: seq<nat>)
      ensures rest == bytes
    {
      rest := bytes;
      this.chunks := chunks;
    }

    method Read(max: nat) returns (chunk: seq<Byte>)
      requires max > 0
      modifies this
      ensures chunk + rest == old(rest)
      ensures |chunk| <= max && (old(rest) != [] ==> chunk != [])
    {
      var size := if chunks == [] || chunks[0] == 0 then 1 else chunks[0];
      if chunks != [] { chunks := chunks[1..]; }
      if size > max { size := max; }
      if size > |rest| { size := |rest|; }
      chunk := rest[..size];
      rest := rest[size..];
    }
  }

  /** The sending end: it takes what it is given, or fails after a prefix of it. */
  class Sink {
    var sent: seq<Byte>
    var room: nat      // how many more bytes the other side will take

    method Write(b: seq<Byte>) returns (ok: bool)
      modifies this
      ensures ok == (|b| <= old(room))
      ensures sent == old(sent) + (if ok then b else b[..old(room)])
      ensures room == old(room) - (if ok then |b| else old(room))
    {
      ok := |b| <= room;
      sent := sent + (if ok then b else b[..room]);
      room := if ok then room - |b| else 0;
    }
  }

  // --- writing ---

  lemma BESmall(n: int)
    ensures BE(n, 2) == [n / 256 % 256, n % 256]
    ensures BE(n, 3) == [n / 65536 % 256, n / 256 % 256, n % 256]
    ensures BE(n, 4) == [n / 16777216 % 256, n / 65536 % 256, n / 256 % 256, n % 256]
  {
    assert n / 256 / 256 == n / 65536 && n / 256 / 256 / 256 == n / 16777216;
    assert BE(n, 1) == BE(n / 256, 0) + [n % 256];
    assert BE(n / 256, 1) == BE(n / 256 / 256, 0) + [n / 256 % 256];
    assert BE(n / 256, 2) == BE(n / 256 / 256, 1) + [n / 256 % 256];
  }

  /** The bytes a failing or succeeding write of b puts on a sink with that much room. */
  function Taken(b: seq<Byte>, room: nat): seq<Byte> {
    if |b| <= room then b else b[..room]
  }

  /** Go's WriteFrame on a pooled buffer. What the buffer held and how large it was do not matter: the
      bytes written are the frame's. The buffer goes back to the pool with a backing array that is its own,
      never the caller's headers or payload. */
  method GoWriteFrame(buf: ByteSlice, kind: Byte, flags: Byte, streamId: int, headers: array<Byte>,
      payload: array<Byte>, w: Sink)
      returns (ok: bool)
    requires buf.Valid() && buf.store != headers && buf.store != payload
    modifies buf, buf.store, w
    ensures buf.Valid() && buf.store != headers && buf.store != payload
    ensures buf.store == old(buf.store) || fresh(buf.store)
    ensures headers[..] == old(headers[..]) && payload[..] == old(payload[..])
    ensures var b := Encode(Frame(kind, flags, streamId, headers[..], payload[..]));
      && ok == (|b| <= old(w.room)) && w.sent == old(w.sent) + Taken(b, old(w.room))
      && w.room == old(w.room) - |Taken(b, old(w.room))|
  {
    ghost var f := Frame(kind, flags, streamId, headers[..], payload[..]);
    var total := HEADER_SIZE + headers.Length + payload.Length;
    buf.len := 0;
    if buf.store.Length < total { buf.Reallocate(total); }
    FillHeader(buf, kind, flags, streamId, headers.Length, payload.Length);
    assert buf.Contents() == Header(f);
    buf.Append(headers);
    buf.Append(payload);
    assert buf.Contents() == Encode(f);
    ok := w.Write(buf.store[..buf.len]);
  }

  lemma HeaderBytes(kind: Byte, flags: Byte, streamId: int, hdrSize: nat, payloadSize: nat)
    ensures [MAGIC0, MAGIC1, VERSION, kind, flags] + BE(streamId, 2) + BE(hdrSize, 3) + BE(payloadSize, 4) ==
            [MAGIC0, MAGIC1, VERSION, kind, flags, streamId / 256 % 256, streamId % 256,
             hdrSize / 65536 % 256, hdrSize / 256 % 256, hdrSize % 256,
             payloadSize / 16777216 % 256, payloadSize / 65536 % 256, payloadSize / 256 % 256, payloadSize % 256]
  {
    hide BE;
    BESmall(streamId);
    BESmall(hdrSize);
    BESmall(payloadSize);
  }

  /** All 14 positions are overwritten. */
  method FillHeader(buf: ByteSlice, kind: Byte, flags: Byte, streamId: int, hdrSize: nat, payloadSize: nat)
    requires buf.Valid() && buf.store.Length >= HEADER_SIZE
    modifies buf`len, buf.store
    ensures buf.Valid() && buf.len == HEADER_SIZE
    ensures buf.Contents() == [MAGIC0, MAGIC1, VERSION, kind, flags]
                              + BE(streamId, 2) + BE(hdrSize, 3) + BE(payloadSize, 4)
  {
    hide BE;
    HeaderBytes(kind, flags, streamId, hdrSize, payloadSize);
    var b := buf.store;
    buf.len := HEADER_SIZE;
    b[0], b[1], b[2], b[3], b[4] := MAGIC0, MAGIC1, VERSION, kind, flags;
    b[5], b[6] := streamId / 256 % 256, streamId % 256;
    b[7], b[8], b[9] := hdrSize / 65536 % 256, hdrSize / 256 % 256, hdrSize % 256;
    b[10], b[11] := payloadSize / 16777216 % 256, payloadSize / 65536 % 256;
    b[12], b[13] := payloadSize / 256 % 256, payloadSize % 256;
    assert b[..14] == [b[0], b[1], b[2], b[3], b[4], b[5], b[6], b[7], b[8], b[9], b[10], b[11], b[12], b[13]];
  }

  /** Writing in pieces is writing the whole, also when the other side stops taking bytes half way. */
  lemma TakenInPieces(a: seq<Byte>, b: seq<Byte>, room: nat)
    ensures Taken(a + b, room) == Taken(a, room) + Taken(b, room - |Taken(a, room)|)
  {
  }

  method PhpHeader(f: Frame) returns (header: seq<Byte>)
    ensures header == Header(f)
  {
    hide BE;
    var hdrSize, payloadSize := |f.headers|, |f.payload|;
    BESmall(f.streamId);
    BESmall(hdrSize);
    BESmall(payloadSize);
    header := [MAGIC0, MAGIC1];
    header := header + [VERSION];
    header := header + [f.kind % 256];
    header := header + [f.flags % 256];
    header := header + [f.streamId / 256 % 256, f.streamId % 256];
    header := header + [hdrSize / 65536 % 256];
    header := header + [hdrSize / 256 % 256];
    header := header + [hdrSize % 256];
    header := header + [payloadSize / 16777216 % 256, payloadSize / 65536 % 256];
    header := header + [payloadSize / 256 % 256, payloadSize % 256];
  }

  /** PHP's writeFrame: the header string, then up to three fwrite calls whose results are ignored. */
  method PhpWriteFrame(f: Frame, stream: Sink)
    modifies stream
    ensures stream.sent == old(stream.sent) + Taken(Encode(f), old(stream.room))
    ensures stream.room == old(stream.room) - |Taken(Encode(f), old(stream.room))|
  {
    hide Header;
    TakenInPieces(Header(f), f.headers, stream.room);
    TakenInPieces(Header(f) + f.headers, f.payload, stream.room);
    var header := PhpHeader(f);
    var ok := stream.Write(header);
    if |f.headers| > 0 { ok := stream.Write(f.headers); }
    if |f.payload| > 0 { ok := stream.Write(f.payload); }
  }

  // --- reading ---

  /** PHP's readExact: as many reads as it takes. None stands for the exception at end of file. */
  method ReadExact(stream: ByteStream, length: nat) returns (r: Option<seq<Byte>>)
    modifies stream
    ensures if |old(stream.rest)| >= length
            then r == Some(old(stream.rest)[..length]) && stream.rest == old(stream.rest)[length..]
            else r == None && stream.rest == []
  {
    var data: seq<Byte> := [];
    var remaining := length;
    while remaining > 0
      invariant 0 <= remaining && |data| + remaining == length
      invariant data + stream.rest == old(stream.rest)
    {
      var chunk := stream.Read(remaining);
      if chunk == [] {
        assert stream.rest == [];
        return None;
      }
      data := data + chunk;
      remaining := remaining - |chunk|;
    }
    assert data + stream.rest == old(stream.rest) && |data| == length;
    assert old(stream.rest)[..length] == data && old(stream.rest)[length..] == stream.rest;
    r := Some(data);
  }

  /** Both readers against the one parser: the same frames accepted, the same bytes consumed. */
  predicate ReadsLike(before: seq<Byte>, r: Option<Frame>, after: seq<Byte>) {
    match Parse(before)
    case Accept(f, rest) => r == Some(f) && after == rest
    case Reject(rest) => r == None && after == rest
  }

  method PhpReadFrame(stream: ByteStream) returns (r: Option<Frame>)
    modifies stream
    ensures ReadsLike(old(stream.rest), r, stream.rest)
  {
    ghost var b := stream.rest;
    var got := ReadExact(stream, HEADER_SIZE);
    if got.None? { return None; }
    var header := got.value;
    if header[0] != MAGIC0 || header[1] != MAGIC1 { return None; }
    if header[2] != VERSION { return None; }
    HeaderSlices(b);
    var hdrSize, payloadSize := FromBE(header[7..10]), FromBE(header[10..14]);
    var headers: seq<Byte>, payload: seq<Byte> := [], [];
    if hdrSize > 0 {
      got := ReadExact(stream, hdrSize);
      if got.None? { return None; }
      headers := got.value;
    }
    if payloadSize > 0 {
      got := ReadExact(stream, payloadSize);
      if got.None? { return None; }
      payload := got.value;
    }
    Tails(b, HEADER_SIZE, hdrSize, payloadSize);
    r := Some(Frame(header[3], header[4], FromBE(header[5..7]), headers, payload));
  }

  lemma HeaderSlices(b: seq<Byte>)
    requires |b| >= HEADER_SIZE
    ensures b[..HEADER_SIZE][5..7] == b[5..7] && b[..HEADER_SIZE][7..10] == b[7..10]
    ensures b[..HEADER_SIZE][10..14] == b[10..14]
  {
  }

  lemma Tails(b: seq<Byte>, i: nat, h: nat, p: nat)
    requires i + h + p <= |b|
    ensures b[i..][..h] == b[i..i + h] && b[i..][h..][..p] == b[i + h..i + h + p] && b[i..][h..][p..] == b[i + h + p..]
    ensures b[i..][..h + p][..h] == b[i..i + h] && b[i..][..h + p][h..] == b[i + h..i + h + p]
    ensures b[i..][h + p..] == b[i + h + p..]
  {
  }

  /** io.ReadFull into a buffer that may hold anything. */
  method ReadFull(r: ByteStream, buf: array<Byte>) returns (ok: bool)
    modifies r, buf
    ensures ok == (|old(r.rest)| >= buf.Length)
    ensures ok ==> buf[..] == old(r.rest)[..buf.Length] && r.rest == old(r.rest)[buf.Length..]
    ensures !ok ==> r.rest == []
  {
    var n := 0;
    while n < buf.Length
      invariant 0 <= n <= buf.Length
      invariant buf[..n] + r.rest == old(r.rest)
    {
      var chunk := r.Read(buf.Length - n);
      if chunk == [] {
        assert r.rest == [] && |old(r.rest)| == n;
        return false;
      }
      CopyInto(buf, n, chunk);
      n := n + |chunk|;
    }
    assert buf[..] == buf[..n];
    ok := true;
  }

  method CopyInto(buf: array<Byte>, at: nat, chunk: seq<Byte>)
    requires at + |chunk| <= buf.Length
    modifies buf
    ensures buf[..at + |chunk|] == old(buf[..at]) + chunk
  {
    var i := 0;
    while i < |chunk|
      invariant 0 <= i <= |chunk|
      invariant forall k :: 0 <= k < at ==> buf[k] == old(buf[k])
      invariant forall k :: 0 <= k < i ==> buf[at + k] == chunk[k]
    {
      buf[at + i] := chunk[i];
      i := i + 1;
    }
  }

  /** Go's ReadFrame: a pooled header buffer, then one read for headers and payload together. */
  method GoReadFrame(r: ByteStream, header: array<Byte>) returns (f: Option<Frame>)
    requires header.Length == HEADER_SIZE
    modifies r, header
    ensures ReadsLike(old(r.rest), f, r.rest)
  {
    ghost var b := r.rest;
    var ok := ReadFull(r, header);
    if !ok { return None; }
    if header[0] != MAGIC0 || header[1] != MAGIC1 { return None; }
    if header[2] != VERSION { return None; }
    HeaderSlices(b);
    var hdr := header[..];
    var hdrSize, payloadSize := FromBE(hdr[7..10]), FromBE(hdr[10..14]);
    var kind, flags, streamId := hdr[3], hdr[4], FromBE(hdr[5..7]);
    var totalData := hdrSize + payloadSize;
    if totalData == 0 { return Some(Frame(kind, flags, streamId, [], [])); }
    var data := new Byte[totalData];
    ok := ReadFull(r, data);
    if !ok { return None; }
    Tails(b, HEADER_SIZE, hdrSize, payloadSize);
    f := Some(Frame(kind, flags, streamId, data[..hdrSize], data[hdrSize..]));
  }

  // --- across the pipe ---

  /** One frame, read by either side. */
  method ReadEither(r: ByteStream, header: array<Byte>, useGo: bool, ghost f: Frame, ghost rest: seq<Byte>)
      returns (got: Option<Frame>)
    requires header.Length == HEADER_SIZE && Representable(f) && r.rest == Encode(f) + rest
    modifies r, header
    ensures got == Some(f) && r.rest == rest
  {
    ParseEncode(f, rest);
    hide Encode, Parse;
    if useGo { got := GoReadFrame(r, header); } else { got := PhpReadFrame(r); }
  }

  /** Whichever reader is used for each frame and however the stream is cut, the frames come back in
      order and nothing is left. */
  method ReadAll(r: ByteStream, header: array<Byte>, useGo: seq<bool>, ghost fs: seq<Frame>)
      returns (got: seq<Option<Frame>>)
    requires header.Length == HEADER_SIZE && |useGo| == |fs|
    requires forall f :: f in fs ==> Representable(f)
    requires r.rest == EncodeAll(fs)
    modifies r, header
    ensures |got| == |fs| && (forall i :: 0 <= i < |fs| ==> got[i] == Some(fs[i])) && r.rest == []
  {
    hide Encode, Representable;
    got := [];
    var i := 0;
    while i < |useGo|
      invariant 0 <= i <= |useGo| && |got| == i
      invariant r.rest == EncodeAll(fs[i..])
      invariant forall k :: 0 <= k < i ==> got[k] == Some(fs[k])
    {
      assert fs[i..][1..] == fs[i + 1..];
      var f := ReadEither(r, header, useGo[i], fs[i], EncodeAll(fs[i + 1..]));
      got := got + [f];
      i := i + 1;
    }
  }

  method WriteEither(f: Frame, useGo: bool, buf: ByteSlice, w: Sink)
    requires buf.Valid() && Representable(f) && w.room >= |Encode(f)|
    modifies buf, buf.store, w
    ensures buf.Valid() && (buf.store == old(buf.store) || fresh(buf.store))
    ensures w.sent == old(w.sent) + Encode(f) && w.room == old(w.room) - |Encode(f)|
  {
    hide Encode;
    if useGo {
      var headers := new Byte[|f.headers|](k requires 0 <= k < |f.headers| => f.headers[k]);
      var payload := new Byte[|f.payload|](k requires 0 <= k < |f.payload| => f.payload[k]);
      assert headers[..] == f.headers && payload[..] == f.payload;
      var ok := GoWriteFrame(buf, f.kind, f.flags, f.streamId, headers, payload, w);
    } else {
      PhpWriteFrame(f, w);
    }
  }

  /** The frames of a list, each written by either side, put their encodings on the pipe one after the
      other. */
  method WriteAll(fs: seq<Frame>, useGo: seq<bool>, buf: ByteSlice, w: Sink)
    requires |useGo| == |fs| && buf.Valid() && w.room >= |EncodeAll(fs)|
    requires forall f :: f in fs ==> Representable(f)
    modifies buf, buf.store, w
    ensures w.sent == old(w.sent) + EncodeAll(fs)
  {
    hide Encode;
    var i := 0;
    assert fs[..0] == [] && fs[0..] == fs;
    while i < |fs|
      invariant 0 <= i <= |fs|
      invariant buf.Valid() && (buf.store == old(buf.store) || fresh(buf.store))
      invariant w.sent == old(w.sent) + EncodeAll(fs[..i])
      invariant w.room >= |EncodeAll(fs[i..])|
    {
      EncodeAllAppend(fs[..i], fs[i]);
      assert fs[i..][1..] == fs[i + 1..] && fs[..i] + [fs[i]] == fs[..i + 1];
      assert EncodeAll(fs[i..]) == Encode(fs[i]) + EncodeAll(fs[i + 1..]);
      WriteEither(fs[i], useGo[i], buf, w);
      i := i + 1;
    }
    assert fs[..i] == fs;
  }
}
