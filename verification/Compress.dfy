/** The lazy gzip response writer as a state machine over what a handler does, between the handler and the
    response writer of the HTTP server. */
module Compress {
  import opened Common
  import opened Bytes

  type Headers = map<string, string>

  const CONTENT_TYPE := "Content-Type"
  const CONTENT_ENCODING := "Content-Encoding"
  const CONTENT_LENGTH := "Content-Length"
  const VARY := "Vary"

  const MIN_SIZE := 1024
  const OK := 200

  // --- the server's response writer ---

  /** What goes out as body: bytes as they are, bytes through a gzip stream, and the end of that stream. */
  datatype Piece = Raw(b: seq<Byte>) | Zipped(b: seq<Byte>) | ZipEnd

  /** The status line and the headers that went with it. */
  datatype Sent = NotSent | SentAs(code: int, headers: Headers)

  datatype Response = Response(headers: Headers, sent: Sent, informational: seq<int>, superfluous: nat,
      body: seq<Piece>)

  predicate IsInformational(code: int) {
    100 <= code <= 199 && code != 101
  }

  function SendHeader(r: Response, code: int): Response {
    if r.sent.SentAs? then r.(superfluous := r.superfluous + 1)
    else if IsInformational(code) then r.(informational := r.informational + [code])
    else r.(sent := SentAs(code, r.headers))
  }

  /** The first body bytes send a header if none was sent. */
  function SendBody(r: Response, p: Piece): Response {
    var r' := if r.sent.NotSent? then SendHeader(r, OK) else r;
    r'.(body := r'.body + [p])
  }

  /** What the server does when the handler has returned. */
  function Finish(r: Response): Response {
    if r.sent.NotSent? then SendHeader(r, OK) else r
  }

  function Get(headers: Headers, name: string): string {
    if name in headers then headers[name] else ""
  }

  // --- the compressing writer ---

  datatype Writer = Writer(buf: seq<Byte>, wroteHeader: bool, compressed: bool, headerCode: int, gzip: bool)
  datatype State = State(w: Writer, r: Response)

  predicate HasPrefix(s: string, prefix: string) {
    |prefix| <= |s| && s[..|prefix|] == prefix
  }

  predicate Contains(s: string, part: string) {
    exists i :: 0 <= i <= |s| && HasPrefix(s[i..], part)
  }

  predicate IsCompressible(ct: string) {
    || HasPrefix(ct, "text/") || HasPrefix(ct, "Text/") || HasPrefix(ct, "TEXT/")
    || Contains(ct, "application/json") || Contains(ct, "application/javascript") || Contains(ct, "application/xml")
    || Contains(ct, "application/xhtml") || Contains(ct, "image/svg+xml")
  }

  predicate ShouldCompress(headers: Headers) {
    && Get(headers, CONTENT_TYPE) != "" && Get(headers, CONTENT_ENCODING) == ""
    && IsCompressible(Get(headers, CONTENT_TYPE))
  }

  function CompressedHeaders(headers: Headers): Headers {
    headers[CONTENT_ENCODING := "gzip"][VARY := "Accept-Encoding"] - {CONTENT_LENGTH}
  }

  function StartCompress(s: State): State {
    State(s.w.(compressed := true, gzip := true), s.r.(headers := CompressedHeaders(s.r.headers)))
  }

  function WriteHeader(s: State, code: int): State {
    if s.w.wroteHeader then s
    else
      var s' := s.(w := s.w.(headerCode := code, wroteHeader := true));
      var s'' := if |s.w.buf| >= MIN_SIZE && ShouldCompress(s.r.headers) then StartCompress(s') else s';
      s''.(r := SendHeader(s''.r, code))
  }

  function Write(s: State, b: seq<Byte>): State {
    if s.w.compressed then s.(r := SendBody(s.r, Zipped(b)))
    else
      var s' := s.(w := s.w.(buf := s.w.buf + b));
      if |s'.w.buf| >= MIN_SIZE && !s.w.wroteHeader && ShouldCompress(s.r.headers) then
        var z := StartCompress(s');
        State(z.w.(wroteHeader := true), SendBody(SendHeader(z.r, OK), Zipped(s'.w.buf)))
      else s'
  }

  function Close(s: State): State {
    if s.w.compressed && s.w.gzip then State(s.w.(gzip := false), SendBody(s.r, ZipEnd))
    else if s.w.buf != [] then
      s.(r := SendBody(if s.w.wroteHeader then s.r else SendHeader(s.r, OK), Raw(s.w.buf)))
    else s
  }

  // --- handlers ---

  datatype Op = Set(name: string, value: string) | Del(name: string) | Header(code: int) | Body(b: seq<Byte>)

  function Apply(s: State, op: Op): State {
    match op
    case Set(name, value) => s.(r := s.r.(headers := s.r.headers[name := value]))
    case Del(name) => s.(r := s.r.(headers := s.r.headers - {name}))
    case Header(code) => WriteHeader(s, code)
    case Body(b) => Write(s, b)
  }

  function After(s: State, ops: seq<Op>): State
    decreases |ops|
  {
    if ops == [] then s else After(Apply(s, ops[0]), ops[1..])
  }

  function Begin(headers: Headers): State {
    State(Writer([], false, false, 0, false), Response(headers, NotSent, [], 0, []))
  }

  /** The whole exchange: the handler's operations on a writer that was just reset, then Close. */
  function Served(headers: Headers, ops: seq<Op>): State {
    Close(After(Begin(headers), ops))
  }

  /** What the handler wrote. */
  function Written(ops: seq<Op>): seq<Byte>
    decreases |ops|
  {
    if ops == [] then [] else (if ops[0].Body? then ops[0].b else []) + Written(ops[1..])
  }

  // --- what the client gets ---

  predicate AllRaw(ps: seq<Piece>) {
    forall i :: 0 <= i < |ps| ==> ps[i].Raw?
  }

  predicate AllZipped(ps: seq<Piece>) {
    forall i :: 0 <= i < |ps| ==> ps[i].Zipped?
  }

  function Concat(ps: seq<Piece>): seq<Byte>
  {
    if ps == [] then []
    else Concat(ps[..|ps| - 1]) + (if ps[|ps| - 1].ZipEnd? then [] else ps[|ps| - 1].b)
  }

  /** The body a client reads: plain bytes, or one complete gzip stream. Anything else cannot be read. */
  function Decoded(ps: seq<Piece>): Option<seq<Byte>> {
    if AllRaw(ps) then Some(Concat(ps))
    else if ps[|ps| - 1].ZipEnd? && AllZipped(ps[..|ps| - 1]) then Some(Concat(ps))
    else None
  }

  lemma OneMorePiece(ps: seq<Piece>, p: Piece)
    ensures Concat(ps + [p]) == Concat(ps) + (if p.ZipEnd? then [] else p.b)
    ensures AllZipped(ps) && p.Zipped? ==> AllZipped(ps + [p])
  {
    assert (ps + [p])[..|ps|] == ps;
  }

  /** WriteHeader finds a buffer that is large enough, and a content type that has become compressible
      since it filled: it opens a gzip stream that the buffer never enters. */
  predicate Late(s: State, op: Op) {
    op.Header? && !s.w.wroteHeader && |s.w.buf| >= MIN_SIZE && ShouldCompress(s.r.headers)
  }

  ghost predicate NeverLate(s: State, ops: seq<Op>)
    decreases |ops|
  {
    ops == [] || (!Late(s, ops[0]) && NeverLate(Apply(s, ops[0]), ops[1..]))
  }

  /** The state after a handler wrote `written`, of which `lost` bytes will not be sent. */
  ghost predicate Holding(s: State, written: seq<Byte>, lost: nat) {
    && (!s.w.compressed ==> !s.w.gzip && s.r.body == [] && s.w.buf == written && lost == 0)
    && (s.w.compressed ==> s.w.gzip && s.w.wroteHeader && AllZipped(s.r.body) && |Concat(s.r.body)| + lost == |written|
                           && (lost == 0 ==> Concat(s.r.body) == written))
  }

  lemma WriteKeepsHolding(s: State, b: seq<Byte>, written: seq<Byte>, lost: nat)
    requires Holding(s, written, lost)
    ensures Holding(Write(s, b), written + b, lost)
  {
    hide ShouldCompress, CompressedHeaders;
    OneMorePiece(s.r.body, Zipped(b));
    OneMorePiece(s.r.body, Zipped(s.w.buf + b));
    assert [] + (written + b) == written + b;
  }

  lemma HeaderKeepsHolding(s: State, code: int, written: seq<Byte>, lost: nat)
    requires Holding(s, written, lost)
    ensures Holding(WriteHeader(s, code), written, if Late(s, Header(code)) then |s.w.buf| else lost)
  {
    hide ShouldCompress, CompressedHeaders;
  }

  lemma StepKeepsHolding(s: State, op: Op, written: seq<Byte>, lost: nat)
    requires Holding(s, written, lost)
    ensures Holding(Apply(s, op), written + Written([op]), if Late(s, op) then |s.w.buf| else lost)
  {
    hide WriteHeader, Write;
    assert op.Body? ==> Written([op]) == op.b + [] == op.b;
    assert written + [] == written;
    match op
    case Header(code) => HeaderKeepsHolding(s, code, written, lost);
    case Body(b) => WriteKeepsHolding(s, b, written, lost);
    case _ =>
  }

  lemma OpsSplit(ops: seq<Op>)
    requires ops != []
    ensures Written(ops) == Written([ops[0]]) + Written(ops[1..])
  {
  }

  lemma DecodedRaw(b: seq<Byte>)
    ensures Decoded([]) == Some([]) && Decoded([Raw(b)]) == Some(b)
  {
    OneMorePiece([], Raw(b));
    assert [] + [Raw(b)] == [Raw(b)] && [] + b == b;
  }

  lemma DecodedStream(ps: seq<Piece>)
    requires AllZipped(ps)
    ensures Decoded(ps + [ZipEnd]) == Some(Concat(ps))
  {
    OneMorePiece(ps, ZipEnd);
    var body := ps + [ZipEnd];
    assert body[..|body| - 1] == ps && body[|body| - 1] == ZipEnd;
    assert Concat(ps) + [] == Concat(ps);
  }

  /** Close delivers what is held. */
  lemma ClosedBody(s: State, written: seq<Byte>, lost: nat)
    requires Holding(s, written, lost)
    ensures Decoded(Close(s).r.body) == Some(written) <==> lost == 0
  {
    hide Decoded, Concat;
    if s.w.compressed {
      DecodedStream(s.r.body);
    } else {
      DecodedRaw(s.w.buf);
      assert [] + [Raw(s.w.buf)] == [Raw(s.w.buf)];
    }
  }

  lemma {:induction false} BodyFrom(s: State, ops: seq<Op>, written: seq<Byte>, lost: nat)
    requires Holding(s, written, lost) && (lost > 0 ==> s.w.wroteHeader)
    ensures Decoded(Close(After(s, ops)).r.body) == Some(written + Written(ops)) <==> lost == 0 && NeverLate(s, ops)
    decreases |ops|
  {
    hide Holding, Apply, Close, Decoded, ShouldCompress;
    if ops == [] {
      ClosedBody(s, written, lost);
      assert written + [] == written;
    } else {
      var op := ops[0];
      StepKeepsHolding(s, op, written, lost);
      OpsSplit(ops);
      assert (written + Written([op])) + Written(ops[1..]) == written + Written(ops);
      HeaderStays(s, op);
      BodyFrom(Apply(s, op), ops[1..], written + Written([op]), if Late(s, op) then |s.w.buf| else lost);
    }
  }

  lemma HeaderStays(s: State, op: Op)
    ensures s.w.wroteHeader || op.Header? ==> Apply(s, op).w.wroteHeader
  {
  }

  /** The client reads exactly what the handler wrote, whatever it did in whatever order, if and only if no
      WriteHeader came late. */
  lemma BodyPreservedIff(headers: Headers, ops: seq<Op>)
    ensures Decoded(Served(headers, ops).r.body) == Some(Written(ops)) <==> NeverLate(Begin(headers), ops)
  {
    hide Decoded, After, Close, NeverLate;
    BodyFrom(Begin(headers), ops, [], 0);
    assert [] + Written(ops) == Written(ops);
  }

  // --- handlers that never come late ---

  predicate TouchesType(op: Op) {
    (op.Set? || op.Del?) && (op.name == CONTENT_TYPE || op.name == CONTENT_ENCODING)
  }

  /** Content type and content encoding are not touched any more once bytes have been written. */
  predicate FixedBeforeWrite(ops: seq<Op>) {
    forall i, j :: 0 <= i < j < |ops| && ops[i].Body? ==> !TouchesType(ops[j])
  }

  /** A large buffer without a header is one that must not be compressed. */
  predicate Settled(s: State) {
    |s.w.buf| >= MIN_SIZE && !s.w.wroteHeader ==> !ShouldCompress(s.r.headers)
  }

  lemma StepKeepsSettled(s: State, op: Op)
    requires Settled(s) && (TouchesType(op) ==> s.w.buf == [])
    ensures Settled(Apply(s, op)) && !Late(s, op)
    ensures Apply(s, op).w.buf != [] ==> s.w.buf != [] || op.Body?
  {
    hide IsCompressible, CompressedHeaders;
  }

  lemma {:induction false} FixedNeverLate(s: State, ops: seq<Op>)
    requires Settled(s) && FixedBeforeWrite(ops)
    requires s.w.buf != [] ==> forall i :: 0 <= i < |ops| ==> !TouchesType(ops[i])
    ensures NeverLate(s, ops)
    decreases |ops|
  {
    hide Settled, Apply, Late, TouchesType;
    if ops != [] {
      StepKeepsSettled(s, ops[0]);
      FixedNeverLate(Apply(s, ops[0]), ops[1..]);
    }
  }

  /** The common case: a handler that sets its content type and encoding before it writes gets its bytes
      through, for any mix of writes and status calls. */
  lemma FixedTypeKeepsBody(headers: Headers, ops: seq<Op>)
    requires FixedBeforeWrite(ops)
    ensures Decoded(Served(headers, ops).r.body) == Some(Written(ops))
  {
    hide FixedBeforeWrite, Decoded;
    FixedNeverLate(Begin(headers), ops);
    BodyPreservedIff(headers, ops);
  }

  /** How bytes are lost: 1024 of them wait for a decision, a content type appears, and the status call
      opens a stream without them. */
  lemma LateHeaderLosesBytes(b: seq<Byte>)
    requires |b| >= MIN_SIZE
    ensures var ops := [Body(b), Set(CONTENT_TYPE, "text/plain"), Header(OK)];
      !NeverLate(Begin(map[]), ops) && Decoded(Served(map[], ops).r.body) == Some([])
  {
    var s0 := Begin(map[]);
    var s1 := Apply(s0, Body(b));
    var s2 := Apply(s1, Set(CONTENT_TYPE, "text/plain"));
    var s3 := Apply(s2, Header(OK));
    assert [] + b == b;
    assert Get(s2.r.headers, CONTENT_TYPE)[..5] == "text/";
    assert Late(s2, Header(OK));
    assert s3.w.compressed && s3.w.gzip && s3.r.body == [];
    hide Apply, Late, Begin;
    RunOne(s2, Header(OK), []);
    RunOne(s1, Set(CONTENT_TYPE, "text/plain"), [Header(OK)]);
    RunOne(s0, Body(b), [Set(CONTENT_TYPE, "text/plain"), Header(OK)]);
    assert [Header(OK)] + [] == [Header(OK)];
    assert [Set(CONTENT_TYPE, "text/plain")] + [Header(OK)] == [Set(CONTENT_TYPE, "text/plain"), Header(OK)];
    assert [Body(b)] + [Set(CONTENT_TYPE, "text/plain"), Header(OK)]
        == [Body(b), Set(CONTENT_TYPE, "text/plain"), Header(OK)];
    ClosedEmpty(s3);
  }

  lemma RunOne(s: State, op: Op, rest: seq<Op>)
    ensures After(s, [op] + rest) == After(Apply(s, op), rest)
    ensures NeverLate(s, [op] + rest) <==> !Late(s, op) && NeverLate(Apply(s, op), rest)
  {
    assert ([op] + rest)[1..] == rest;
  }

  lemma ClosedEmpty(s: State)
    requires s.w.compressed && s.w.gzip && s.r.body == []
    ensures Decoded(Close(s).r.body) == Some([])
  {
    OneMorePiece([], ZipEnd);
    assert [] + [ZipEnd] == [ZipEnd] && [ZipEnd][..0] == [];
  }

  // --- the header ---

  function Changed(headers: Headers, op: Op): Headers {
    match op
    case Set(name, value) => headers[name := value]
    case Del(name) => headers - {name}
    case _ => headers
  }

  /** The handler's own headers: those it was given, changed by its own operations only. */
  function Own(headers: Headers, ops: seq<Op>): Headers {
    if ops == [] then headers else Changed(Own(headers, ops[..|ops| - 1]), ops[|ops| - 1])
  }

  /** The headers with gzip announced that the writer makes of the handler's own after i operations. */
  function Announcing(headers: Headers, ops: seq<Op>, i: nat): Headers
    requires i <= |ops|
  {
    CompressedHeaders(Own(headers, ops[..i]))
  }

  /** What went out after k of the operations: the handler's own headers of that moment; or, when gzip was
      chosen after i of them, which happens only to a response that may be compressed, those with gzip
      announced and what the handler has changed in them since. */
  predicate SentAt(s: State, headers: Headers, ops: seq<Op>, i: nat, k: nat)
    requires i <= k <= |ops|
  {
    && s.r.sent.SentAs?
    && (if s.w.compressed
        then ShouldCompress(Own(headers, ops[..i])) && s.r.sent.headers == Own(Announcing(headers, ops, i), ops[i..k])
        else s.r.sent.headers == Own(headers, ops[..k]))
  }

  /** The header after the given operations; calm says that none of them was late. */
  ghost predicate HeaderInv(s: State, headers: Headers, ops: seq<Op>, i: nat, k: nat, calm: bool) {
    && i <= k <= |ops|
    && s.r.superfluous == 0
    && (s.r.sent.SentAs? ==> s.w.wroteHeader && SentAt(s, headers, ops, i, k))
    && (!s.w.compressed ==> s.r.headers == Own(headers, ops))
    && (s.w.compressed && s.r.sent.NotSent? ==>
          && s.w.wroteHeader && ShouldCompress(Own(headers, ops[..i]))
          && s.r.headers == Own(Announcing(headers, ops, i), ops[i..]))
    && (s.w.compressed && calm ==> s.r.sent.SentAs? && s.r.sent.code == OK && i == k)
  }

  lemma OwnStep(headers: Headers, ops: seq<Op>, op: Op)
    ensures Own(headers, ops + [op]) == Changed(Own(headers, ops), op)
    ensures (ops + [op])[..|ops|] == ops && (ops + [op])[..|ops| + 1] == ops + [op]
  {
    assert (ops + [op])[..|ops|] == ops;
  }

  /** One more operation behind those that were counted changes nothing about them. */
  lemma SentBefore(headers: Headers, ops: seq<Op>, op: Op, i: nat, k: nat)
    requires i <= k <= |ops|
    ensures (ops + [op])[..i] == ops[..i] && (ops + [op])[..k] == ops[..k] && (ops + [op])[i..k] == ops[i..k]
    ensures (ops + [op])[i..] == ops[i..] + [op] && ops[|ops|..] == [] && (ops + [op])[i..|ops|] == ops[i..]
    ensures Own(Announcing(headers, ops, i), ops[i..] + [op]) == Changed(Own(Announcing(headers, ops, i), ops[i..]), op)
  {
    OwnStep(Announcing(headers, ops, i), ops[i..], op);
  }

  lemma StepKeepsHeader(s: State, op: Op, headers: Headers, ops: seq<Op>, i: nat, k: nat, calm: bool)
      returns (i': nat, k': nat)
    requires HeaderInv(s, headers, ops, i, k, calm) && (calm ==> !Late(s, op))
    ensures HeaderInv(Apply(s, op), headers, ops + [op], i', k', calm)
  {
    hide ShouldCompress, CompressedHeaders, Own;
    OwnStep(headers, ops, op);
    SentBefore(headers, ops, op, i, k);
    SentBefore(headers, ops, op, |ops|, |ops|);
    var s' := Apply(s, op);
    i' := if s.w.compressed then i else |ops|;
    k' := if s.r.sent.SentAs? then k else |ops|;
    NoChange(headers, ops);
    if !s.w.compressed && s.r.sent.SentAs? { i' := 0; }
    if s'.w.compressed && s'.r.sent.NotSent? { k' := |ops + [op]|; }
  }

  lemma NoChange(headers: Headers, ops: seq<Op>)
    ensures ops[..|ops|] == ops && forall h: Headers :: Own(h, []) == h
  {
  }

  lemma {:induction false} HeaderFrom(s: State, todo: seq<Op>, headers: Headers, done: seq<Op>, i: nat, k: nat,
      calm: bool)
      returns (i': nat, k': nat)
    requires HeaderInv(s, headers, done, i, k, calm) && (calm ==> NeverLate(s, todo))
    ensures HeaderInv(After(s, todo), headers, done + todo, i', k', calm)
    decreases |todo|
  {
    hide HeaderInv, Apply, Late;
    if todo == [] {
      assert done + todo == done;
      i', k' := i, k;
    } else {
      i', k' := StepKeepsHeader(s, todo[0], headers, done, i, k, calm);
      i', k' := HeaderFrom(Apply(s, todo[0]), todo[1..], headers, done + [todo[0]], i', k', calm);
      assert done + [todo[0]] + todo[1..] == done + todo;
    }
  }

  /** Nothing in the body, or an open gzip stream. */
  predicate Held(s: State) {
    if s.w.compressed then s.w.gzip && AllZipped(s.r.body) else s.r.body == []
  }

  lemma {:induction false} HeldFrom(s: State, ops: seq<Op>)
    requires Held(s)
    ensures Held(After(s, ops))
    decreases |ops|
  {
    hide ShouldCompress, CompressedHeaders;
    if ops != [] { HeldFrom(Apply(s, ops[0]), ops[1..]); }
  }

  lemma ClosedKind(s: State)
    requires Held(s)
    ensures Close(s).w.compressed == s.w.compressed && (s.w.compressed <==> !AllRaw(Finish(Close(s).r).body))
  {
    if s.w.compressed {
      var body := s.r.body + [ZipEnd];
      assert Close(s).r.body == body && body[|s.r.body|] == ZipEnd;
    }
  }

  /** The finished exchange: the writer and what the server has sent in the end. */
  function Finished(s: State): State {
    State(Close(s).w, Finish(Close(s).r))
  }

  lemma ClosedHeader(s: State, headers: Headers, ops: seq<Op>, i: nat, k: nat, calm: bool) returns (i': nat, k': nat)
    requires HeaderInv(s, headers, ops, i, k, calm) && Held(s)
    ensures var end := Finished(s);
      && end.r.sent.SentAs? && end.r.superfluous == 0
      && i' <= k' <= |ops| && SentAt(end, headers, ops, i', k')
      && (end.w.compressed && calm ==> end.r.sent.code == OK && i' == k')
  {
    hide ShouldCompress, CompressedHeaders, Own, AllZipped;
    NoChange(headers, ops);
    i', k' := i, k;
    if s.r.sent.NotSent? {
      k' := |ops|;
      assert ops[i..] == ops[i..|ops|];
    }
  }

  lemma BeginsRight(headers: Headers, calm: bool)
    ensures HeaderInv(Begin(headers), headers, [], 0, 0, calm) && Held(Begin(headers))
  {
  }

  /** For any handler one header goes out and never a second one. Without gzip it is the handler's own of one
      moment, untouched; with gzip, the handler's own of the moment gzip was chosen, changed to announce it,
      and what the handler changed in it until it went out. If no WriteHeader came late, gzip is chosen and
      announced in one step, with status 200. */
  lemma HeaderGoesOut(headers: Headers, ops: seq<Op>)
    ensures var end := Finished(After(Begin(headers), ops));
      && end.r.sent.SentAs? && end.r.superfluous == 0 && (end.w.compressed <==> !AllRaw(end.r.body))
      && exists i, k :: 0 <= i <= k <= |ops| && SentAt(end, headers, ops, i, k)
           && (NeverLate(Begin(headers), ops) && end.w.compressed ==> i == k && end.r.sent.code == OK)
  {
    hide *;
    var calm := NeverLate(Begin(headers), ops);
    BeginsRight(headers, calm);
    var i, k := HeaderFrom(Begin(headers), ops, headers, [], 0, 0, calm);
    assert [] + ops == ops;
    HeldFrom(Begin(headers), ops);
    ClosedKind(After(Begin(headers), ops));
    i, k := ClosedHeader(After(Begin(headers), ops), headers, ops, i, k, calm);
    FinishedIs(After(Begin(headers), ops));
    assert SentAt(Finished(After(Begin(headers), ops)), headers, ops, i, k);
  }

  lemma FinishedIs(s: State)
    ensures Finished(s) == State(Close(s).w, Finish(Close(s).r))
  {
  }

  // --- whether gzip is announced ---

  /** The client is told of the gzip stream. */
  predicate Announced(r: Response) {
    r.sent.SentAs? && Get(r.sent.headers, CONTENT_ENCODING) == "gzip"
  }

  /** From live headers h on, the handler takes the announcement out again before the header goes out, which
      is at the next write or at the end. */
  predicate TakenBack(h: Headers, ops: seq<Op>)
    decreases |ops|
  {
    if ops == [] || ops[0].Body? then Get(h, CONTENT_ENCODING) != "gzip"
    else TakenBack(Changed(h, ops[0]), ops[1..])
  }

  /** A late informational WriteHeader, which chooses gzip and sends no header, and then such a change. */
  ghost predicate LosesAnnouncement(s: State, ops: seq<Op>)
    decreases |ops|
  {
    ops != [] &&
    if Late(s, ops[0]) && IsInformational(ops[0].code) then TakenBack(CompressedHeaders(s.r.headers), ops[1..])
    else LosesAnnouncement(Apply(s, ops[0]), ops[1..])
  }

  /** Once a header is out it stays. */
  lemma {:induction false} SentStays(s: State, ops: seq<Op>)
    requires s.r.sent.SentAs? && s.w.wroteHeader
    ensures Finished(After(s, ops)).r.sent == s.r.sent
    ensures Finished(After(s, ops)).w.compressed == s.w.compressed && !LosesAnnouncement(s, ops)
    decreases |ops|
  {
    hide ShouldCompress, CompressedHeaders;
    if ops != [] { SentStays(Apply(s, ops[0]), ops[1..]); }
  }

  /** Gzip chosen and no header out: what counts is the live header at the next write or the end. */
  lemma {:induction false} PendingEnds(s: State, ops: seq<Op>)
    requires s.w.compressed && s.w.gzip && s.w.wroteHeader && s.r.sent.NotSent?
    ensures Finished(After(s, ops)).w.compressed
    ensures Announced(Finished(After(s, ops)).r) <==> !TakenBack(s.r.headers, ops)
    ensures Finished(After(s, ops)).r.sent.SentAs? && Finished(After(s, ops)).r.sent.code == OK
    decreases |ops|
  {
    hide ShouldCompress, CompressedHeaders;
    if ops != [] {
      if ops[0].Body? { SentStays(Apply(s, ops[0]), ops[1..]); } else { PendingEnds(Apply(s, ops[0]), ops[1..]); }
    }
  }

  /** How the writer goes on from a state in which gzip is not in use. */
  lemma StepFromRaw(s: State, op: Op)
    requires !s.w.compressed && (s.r.sent.SentAs? ==> s.w.wroteHeader)
    ensures var s' := Apply(s, op);
      && (s'.r.sent.SentAs? ==> s'.w.wroteHeader)
      && (s'.w.compressed ==> s'.w.gzip && s'.w.wroteHeader && s'.r.headers == CompressedHeaders(s.r.headers))
      && (s'.w.compressed && s'.r.sent.NotSent? <==> Late(s, op) && IsInformational(op.code))
      && (s'.w.compressed && s'.r.sent.SentAs? ==> s'.r.sent.headers == CompressedHeaders(s.r.headers))
  {
    hide ShouldCompress, CompressedHeaders;
  }

  lemma {:induction false} AnnouncedFrom(s: State, ops: seq<Op>)
    requires !s.w.compressed && (s.r.sent.SentAs? ==> s.w.wroteHeader)
    ensures var end := Finished(After(s, ops));
      (end.w.compressed ==> Announced(end.r)) <==> !LosesAnnouncement(s, ops)
    decreases |ops|
  {
    hide ShouldCompress, Apply, Late, IsInformational, Finished;
    if ops == [] {
      RawEnds(s);
    } else {
      var s' := Apply(s, ops[0]);
      StepFromRaw(s, ops[0]);
      if !s'.w.compressed {
        AnnouncedFrom(s', ops[1..]);
      } else if s'.r.sent.NotSent? {
        PendingEnds(s', ops[1..]);
      } else {
        SentStays(s', ops[1..]);
      }
    }
  }

  lemma RawEnds(s: State)
    requires !s.w.compressed
    ensures !Finished(s).w.compressed
  {
  }

  /** A body that goes through gzip is announced as gzip, whatever the handler does, if and only if there is no
      late informational status after which the handler takes the announcement back before its next write. */
  lemma GzipAnnouncedIff(headers: Headers, ops: seq<Op>)
    ensures var r := Finish(Served(headers, ops).r);
      (!AllRaw(r.body) ==> Announced(r)) <==> !LosesAnnouncement(Begin(headers), ops)
  {
    hide After, Apply, Late, Announced;
    AnnouncedFrom(Begin(headers), ops);
    HeldFrom(Begin(headers), ops);
    ClosedKind(After(Begin(headers), ops));
  }

  lemma PendingClosed(s: State)
    requires s.w.compressed && s.w.gzip && s.r.body == [] && s.r.sent.NotSent?
    ensures !AllRaw(Finish(Close(s).r).body) && Finish(Close(s).r).sent == SentAs(OK, s.r.headers)
  {
    assert Close(s).r.body == [] + [ZipEnd] && Close(s).r.body[0] == ZipEnd;
  }

  /** Such a handler: 1024 bytes, a content type, Early Hints (status 103), and the announcement deleted. */
  lemma LateHintsHideGzip(b: seq<Byte>)
    requires |b| >= MIN_SIZE
    ensures var ops := [Body(b), Set(CONTENT_TYPE, "text/plain"), Header(103), Del(CONTENT_ENCODING)];
      var r := Finish(Served(map[], ops).r);
      !AllRaw(r.body) && r.sent.SentAs? && Get(r.sent.headers, CONTENT_ENCODING) == ""
  {
    var s1 := Apply(Begin(map[]), Body(b));
    assert [] + b == b;
    var s2 := Apply(s1, Set(CONTENT_TYPE, "text/plain"));
    assert Get(s2.r.headers, CONTENT_TYPE)[..5] == "text/";
    assert Late(s2, Header(103));
    var s3 := Apply(s2, Header(103));
    var s4 := Apply(s3, Del(CONTENT_ENCODING));
    assert s4.w.compressed && s4.w.gzip && s4.r.body == [] && s4.r.sent.NotSent?;
    assert Get(s4.r.headers, CONTENT_ENCODING) == "";
    PendingClosed(s4);
    hide Apply, Late, Begin, Close, Finish, AllRaw;
    var (a1, a2, a3, a4) := (Body(b), Set(CONTENT_TYPE, "text/plain"), Header(103), Del(CONTENT_ENCODING));
    assert [a4] + [] == [a4] && [a3] + [a4] == [a3, a4] && [a2] + [a3, a4] == [a2, a3, a4];
    assert [a1] + [a2, a3, a4] == [a1, a2, a3, a4];
    RunOne(s3, a4, []);
    RunOne(s2, a3, [a4]);
    RunOne(s1, a2, [a3, a4]);
    RunOne(Begin(map[]), a1, [a2, a3, a4]);
  }

  lemma ServedIs(headers: Headers, ops: seq<Op>)
    ensures Served(headers, ops) == Close(After(Begin(headers), ops))
  {
  }
}
