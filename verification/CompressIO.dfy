/** The compressing writer as an object: fields updated call by call, a buffer whose backing array is reused
    from response to response, and a pooled gzip writer. Proved against the state machine of Compress. */
module CompressIO {
  import opened Bytes
  import opened Slices
  import opened Compress
  import opened Transparency

  /** The HTTP server's writer for one response. */
  class ResponseWriter {
    var headers: Headers
    var sent: Sent
    var informational: seq<int>
    var superfluous: nat
    var body: seq<Piece>

    ghost function Snap(): Response
      reads this
    {
      Response(headers, sent, informational, superfluous, body)
    }

    constructor (headers: Headers)
      ensures Snap() == Begin(headers).r
    {
      this.headers, sent, informational, superfluous, body := headers, NotSent, [], 0, [];
    }

    method Change(op: Op)
      requires op.Set? || op.Del?
      modifies this`headers
      ensures headers == Changed(old(headers), op)
    {
      headers := if op.Set? then headers[op.name := op.value] else headers - {op.name};
    }

    method SendHeader(code: int)
      modifies this
      ensures Snap() == Compress.SendHeader(old(Snap()), code)
    {
      if sent.SentAs? {
        superfluous := superfluous + 1;
      } else if IsInformational(code) {
        informational := informational + [code];
      } else {
        sent := SentAs(code, headers);
      }
    }

    method SendBody(p: Piece)
      modifies this
      ensures Snap() == Compress.SendBody(old(Snap()), p)
    {
      if sent.NotSent? { SendHeader(OK); }
      body := body + [p];
    }
  }

  /** A pooled gzip writer: whatever it wrote to before, Reset points it at a new response. */
  class GzipWriter {
    var target: ResponseWriter

    constructor (target: ResponseWriter)
      ensures this.target == target
    {
      this.target := target;
    }

    method Reset(target: ResponseWriter)
      modifies this
      ensures this.target == target
    {
      this.target := target;
    }

    method Write(b: seq<Byte>) returns (n: nat)
      modifies target
      ensures target.Snap() == Compress.SendBody(old(target.Snap()), Zipped(b)) && n == |b|
    {
      target.SendBody(Zipped(b));
      n := |b|;
    }

    method Close()
      modifies target
      ensures target.Snap() == Compress.SendBody(old(target.Snap()), ZipEnd)
    {
      target.SendBody(ZipEnd);
    }
  }

  class CompressWriter {
    var inner: ResponseWriter
    var gz: GzipWriter?
    var pooled: GzipWriter     // the one the pool will hand out
    var buf: ByteSlice
    var wroteHeader: bool
    var compressed: bool
    var headerCode: int

    ghost predicate Valid()
      reads this, buf, gz
    {
      buf.Valid() && (gz != null ==> gz.target == inner) && (compressed ==> gz != null)
    }

    /** The state the machine of Compress is in. */
    ghost function Snap(): State
      requires Valid()
      reads this, buf, buf.store, gz, inner
    {
      State(Compress.Writer(buf.Contents(), wroteHeader, compressed, headerCode, gz != null), inner.Snap())
    }

    constructor (buf: ByteSlice, pooled: GzipWriter, inner: ResponseWriter)
      requires buf.Valid()
      ensures this.buf == buf && this.pooled == pooled && Valid()
    {
      this.buf, this.pooled, this.inner := buf, pooled, inner;
      gz, wroteHeader, compressed, headerCode := null, false, false, 0;
    }

    /** reset(w): whatever the writer was used for before, it starts afresh; the buffer keeps its array. */
    method Reset(w: ResponseWriter)
      requires buf.Valid()
      modifies this`inner, this`gz, this`wroteHeader, this`compressed, this`headerCode, buf`len
      ensures Valid() && Snap() == State(Compress.Writer([], false, false, 0, false), w.Snap())
      ensures inner == w && buf.store == old(buf.store)
    {
      inner, gz := w, null;
      buf.len := 0;
      wroteHeader, compressed, headerCode := false, false, 0;
    }

    method StartCompress()
      requires Valid()
      modifies this`compressed, this`gz, inner`headers, pooled
      ensures Valid() && Snap() == Compress.StartCompress(old(Snap()))
    {
      inner.headers := inner.headers[CONTENT_ENCODING := "gzip"];
      inner.headers := inner.headers[VARY := "Accept-Encoding"];
      inner.headers := inner.headers - {CONTENT_LENGTH};
      compressed := true;
      pooled.Reset(inner);
      gz := pooled;
    }

    method WriteHeader(code: int)
      requires Valid()
      modifies this`compressed, this`gz, this`wroteHeader, this`headerCode, inner, pooled
      ensures Valid() && Snap() == Compress.WriteHeader(old(Snap()), code)
    {
      hide ShouldCompress, CompressedHeaders;
      if wroteHeader { return; }
      headerCode, wroteHeader := code, true;
      if buf.len >= MIN_SIZE && ShouldCompress(inner.headers) { StartCompress(); }
      inner.SendHeader(code);
    }

    /** Reports all of b as written in every branch. */
    method Write(b: array<Byte>) returns (n: nat)
      requires Valid() && b != buf.store
      modifies this`compressed, this`gz, this`wroteHeader, buf, buf.store, inner, pooled
      ensures Valid() && Snap() == Compress.Write(old(Snap()), b[..]) && n == b.Length
      ensures buf.store == old(buf.store) || fresh(buf.store)
      ensures b[..] == old(b[..])
    {
      hide ShouldCompress, CompressedHeaders;
      if compressed {
        n := gz.Write(b[..]);
        return;
      }
      buf.Append(b);
      if buf.len >= MIN_SIZE && !wroteHeader {
        if ShouldCompress(inner.headers) {
          StartCompress();
          wroteHeader := true;
          inner.SendHeader(OK);
          n := gz.Write(buf.store[..buf.len]);
          if n > b.Length { n := b.Length; }
          return;
        }
      }
      n := b.Length;
    }

    method Close()
      requires Valid() && (gz != null ==> compressed)
      modifies this`gz, inner
      ensures buf.Valid() && inner.Snap() == Compress.Close(old(Snap())).r
      ensures gz == null
    {
      if compressed && gz != null {
        gz.Close();
        gz := null;
      } else if buf.len > 0 {
        if !wroteHeader { inner.SendHeader(OK); }
        inner.SendBody(Raw(buf.store[..buf.len]));
      }
    }
  }

  /** One thing a handler does. */
  method Perform(cw: CompressWriter, op: Op)
    requires cw.Valid() && (cw.gz != null ==> cw.compressed)
    modifies cw`compressed, cw`gz, cw`wroteHeader, cw`headerCode, cw.buf, cw.buf.store, cw.inner, cw.pooled
    ensures cw.Valid() && (cw.gz != null ==> cw.compressed) && cw.Snap() == Apply(old(cw.Snap()), op)
    ensures cw.buf.store == old(cw.buf.store) || fresh(cw.buf.store)
  {
    match op {
      case Set(_, _) => cw.inner.Change(op);
      case Del(_) => cw.inner.Change(op);
      case Header(code) => cw.WriteHeader(code);
      case Body(b) =>
        var a := new Byte[|b|](k requires 0 <= k < |b| => b[k]);
        assert a[..] == b;
        var n := cw.Write(a);
    }
  }

  /** The middleware around one request of a client that accepts gzip: a pooled writer in any state, a
      handler that does `ops`, Close. The response is the machine's, whatever the writer was left with. */
  method Serve(cw: CompressWriter, w: ResponseWriter, ops: seq<Op>)
    requires cw.buf.Valid() && w.Snap() == Begin(w.headers).r
    modifies cw, cw.buf, cw.buf.store, w, cw.pooled
    ensures cw.buf.Valid() && w.Snap() == Served(old(w.headers), ops).r
  {
    hide Apply;
    cw.Reset(w);
    var i := 0;
    while i < |ops|
      invariant 0 <= i <= |ops| && cw.Valid() && cw.inner == w && (cw.gz != null ==> cw.compressed)
      invariant cw.buf == old(cw.buf) && cw.pooled == old(cw.pooled)
      invariant cw.buf.store == old(cw.buf.store) || fresh(cw.buf.store)
      invariant After(cw.Snap(), ops[i..]) == After(Begin(old(w.headers)), ops)
    {
      assert ops[i..][1..] == ops[i + 1..] && ops[i..][0] == ops[i];
      Perform(cw, ops[i]);
      i := i + 1;
    }
    cw.Close();
  }

  /** Clients that do not name gzip get the handler's own response. */
  method Middleware(acceptEncoding: string, cw: CompressWriter, w: ResponseWriter, ops: seq<Op>)
    requires cw.buf.Valid() && w.Snap() == Begin(w.headers).r
    modifies cw, cw.buf, cw.buf.store, w, cw.pooled
    ensures w.Snap() == if Contains(acceptEncoding, "gzip") then Served(old(w.headers), ops).r
                        else PlainAfter(Begin(old(w.headers)).r, ops)
  {
    hide Served, Compress.SendHeader, Compress.SendBody;
    if Contains(acceptEncoding, "gzip") {
      Serve(cw, w, ops);
      return;
    }
    ghost var all := PlainAfter(w.Snap(), ops);
    var i := 0;
    while i < |ops|
      invariant 0 <= i <= |ops| && PlainAfter(w.Snap(), ops[i..]) == all
    {
      assert ops[i..][1..] == ops[i + 1..] && ops[i..][0] == ops[i];
      match ops[i] {
        case Set(_, _) => w.Change(ops[i]);
        case Del(_) => w.Change(ops[i]);
        case Header(code) => w.SendHeader(code);
        case Body(b) => w.SendBody(Raw(b));
      }
      i := i + 1;
    }
  }
}
