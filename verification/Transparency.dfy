/** The compressing writer against the same handler without it: which status, which headers and which body
    the client gets in both cases, for every handler. All of it is decided at one operation, the first
    WriteHeader or the write that chooses gzip. */
module Transparency {
  import opened Common
  import opened Bytes
  import opened Compress

  // --- the handler without the layer ---

  function PlainApply(r: Response, op: Op): Response {
    match op
    case Header(code) => SendHeader(r, code)
    case Body(b) => SendBody(r, Raw(b))
    case _ => r.(headers := Changed(r.headers, op))
  }

  function PlainAfter(r: Response, ops: seq<Op>): Response
    decreases |ops|
  {
    if ops == [] then r else PlainAfter(PlainApply(r, ops[0]), ops[1..])
  }

  /** What the client gets without the layer. */
  function Plain(headers: Headers, ops: seq<Op>): Response {
    Finish(PlainAfter(Begin(headers).r, ops))
  }

  /** What the client gets with it. */
  function Layered(headers: Headers, ops: seq<Op>): Response {
    Finish(Served(headers, ops).r)
  }

  // --- the moments ---

  /** Without the layer a header goes out with this operation. */
  predicate Sends(op: Op) {
    op.Body? || (op.Header? && !IsInformational(op.code))
  }

  /** The first operation from k on that sends a header, or the end. */
  function PlainMoment(ops: seq<Op>, k: nat): (p: nat)
    requires k <= |ops|
    ensures k <= p <= |ops| && (forall j :: k <= j < p ==> !Sends(ops[j])) && (p < |ops| ==> Sends(ops[p]))
    decreases |ops| - k
  {
    if k == |ops| || Sends(ops[k]) then k else PlainMoment(ops, k + 1)
  }

  /** Enough has been written, up to and including operation k, to a response that may be compressed. */
  predicate Ripe(headers: Headers, ops: seq<Op>, k: nat)
    requires k < |ops|
  {
    |Written(ops[..k + 1])| >= 1024 && ShouldCompress(Own(headers, ops[..k]))
  }

  predicate Turns(headers: Headers, ops: seq<Op>, k: nat)
    requires k < |ops|
  {
    ops[k].Header? || (ops[k].Body? && Ripe(headers, ops, k))
  }

  /** The first WriteHeader, or the first write that makes the response ripe, from k on; or the end. */
  function Turn(headers: Headers, ops: seq<Op>, k: nat): (t: nat)
    requires k <= |ops|
    ensures k <= t <= |ops| && (forall j :: k <= j < t ==> !Turns(headers, ops, j))
    ensures t < |ops| ==> Turns(headers, ops, t)
    decreases |ops| - k
  {
    if k == |ops| || Turns(headers, ops, k) then k else Turn(headers, ops, k + 1)
  }

  /** The first WriteHeader finds a ripe response: it comes late. */
  predicate LateTurn(headers: Headers, ops: seq<Op>) {
    var t := Turn(headers, ops, 0);
    t < |ops| && ops[t].Header? && Ripe(headers, ops, t)
  }

  predicate GzipAtTurn(headers: Headers, ops: seq<Op>) {
    var t := Turn(headers, ops, 0);
    t < |ops| && Ripe(headers, ops, t)
  }

  /** The layer sends its header at the turn, unless that is an informational status: then at the end. */
  function LayerMoment(headers: Headers, ops: seq<Op>): (q: nat)
    ensures q <= |ops|
  {
    var t := Turn(headers, ops, 0);
    if t < |ops| && Sends(ops[t]) then t else |ops|
  }

  /** The status without the layer and with it. */
  function PlainStatus(ops: seq<Op>): int {
    var p := PlainMoment(ops, 0);
    if p < |ops| && ops[p].Header? then ops[p].code else OK
  }

  function LayerStatus(headers: Headers, ops: seq<Op>): int {
    var t := Turn(headers, ops, 0);
    if t < |ops| && ops[t].Header? && !IsInformational(ops[t].code) then ops[t].code else OK
  }

  // --- up to the turn ---

  lemma AfterAppend(s: State, ops: seq<Op>, op: Op)
    ensures After(s, ops + [op]) == Apply(After(s, ops), op)
  {
    AfterSplit(s, ops, [op]);
    assert [op][1..] == [];
  }

  lemma {:induction false} AfterSplit(s: State, xs: seq<Op>, ys: seq<Op>)
    ensures After(s, xs + ys) == After(After(s, xs), ys)
    ensures NeverLate(s, xs + ys) <==> NeverLate(s, xs) && NeverLate(After(s, xs), ys)
    decreases |xs|
  {
    hide Apply, Late;
    if xs == [] {
      assert xs + ys == ys;
    } else {
      assert (xs + ys)[1..] == xs[1..] + ys;
      AfterSplit(Apply(s, xs[0]), xs[1..], ys);
    }
  }

  lemma {:induction false} WrittenAppend(ops: seq<Op>, op: Op)
    ensures Written(ops + [op]) == Written(ops) + Written([op])
    decreases |ops|
  {
    if ops == [] {
      assert ops + [op] == [op];
    } else {
      assert (ops + [op])[1..] == ops[1..] + [op];
      WrittenAppend(ops[1..], op);
    }
  }

  /** Nothing sent, nothing compressed, everything in the buffer. */
  function Waiting(headers: Headers, ops: seq<Op>): State {
    State(Writer(Written(ops), false, false, 0, false), Response(Own(headers, ops), NotSent, [], 0, []))
  }

  lemma StepKeepsWaiting(headers: Headers, ops: seq<Op>, k: nat)
    requires k < |ops| && !Turns(headers, ops, k)
    ensures Apply(Waiting(headers, ops[..k]), ops[k]) == Waiting(headers, ops[..k + 1])
    ensures !Late(Waiting(headers, ops[..k]), ops[k])
  {
    hide ShouldCompress, CompressedHeaders;
    assert ops[..k + 1] == ops[..k] + [ops[k]];
    WrittenAppend(ops[..k], ops[k]);
    OwnStep(headers, ops[..k], ops[k]);
    assert ops[k].Body? ==> Written([ops[k]]) == ops[k].b + [] == ops[k].b;
    assert !ops[k].Body? ==> Written([ops[k]]) == [] && Written(ops[..k]) + [] == Written(ops[..k]);
  }

  lemma {:induction false} WaitsUntil(headers: Headers, ops: seq<Op>, k: nat)
    requires k <= |ops| && forall j :: 0 <= j < k ==> !Turns(headers, ops, j)
    ensures After(Begin(headers), ops[..k]) == Waiting(headers, ops[..k]) && NeverLate(Begin(headers), ops[..k])
    decreases k
  {
    hide Apply, Turns, Late;
    if k == 0 {
      assert ops[..0] == [];
    } else {
      WaitsUntil(headers, ops, k - 1);
      StepKeepsWaiting(headers, ops, k - 1);
      assert ops[..k] == ops[..k - 1] + [ops[k - 1]];
      AfterAppend(Begin(headers), ops[..k - 1], ops[k - 1]);
      AfterSplit(Begin(headers), ops[..k - 1], [ops[k - 1]]);
      assert NeverLate(Waiting(headers, ops[..k - 1]), [ops[k - 1]]);
    }
  }

  // --- from the turn on ---

  lemma {:induction false} NeverLateAgain(s: State, ops: seq<Op>)
    requires s.w.wroteHeader
    ensures NeverLate(s, ops)
    decreases |ops|
  {
    if ops != [] {
      HeaderStays(s, ops[0]);
      NeverLateAgain(Apply(s, ops[0]), ops[1..]);
    }
  }

  /** An informational status was all the handler could send: the rest goes out at the end, as it then is. */
  lemma {:induction false} RawToTheEnd(s: State, ops: seq<Op>)
    requires s.w.wroteHeader && !s.w.compressed && s.r.sent.NotSent?
    ensures var end := Finished(After(s, ops));
      !end.w.compressed && end.r.sent == SentAs(OK, OwnFrom(s.r.headers, ops))
    decreases |ops|
  {
    if ops != [] { RawToTheEnd(Apply(s, ops[0]), ops[1..]); }
  }

  /** The handler's changes, told from the front. */
  function OwnFrom(headers: Headers, ops: seq<Op>): Headers
    decreases |ops|
  {
    if ops == [] then headers else OwnFrom(Changed(headers, ops[0]), ops[1..])
  }

  lemma {:induction false} OwnFromIsOwn(headers: Headers, ops: seq<Op>, k: nat)
    requires k <= |ops|
    ensures OwnFrom(Own(headers, ops[..k]), ops[k..]) == Own(headers, ops)
    decreases |ops| - k
  {
    hide Changed;
    if k == |ops| {
      assert ops[..k] == ops;
    } else {
      assert ops[..k + 1] == ops[..k] + [ops[k]] && ops[k..][1..] == ops[k + 1..];
      OwnStep(headers, ops[..k], ops[k]);
      OwnFromIsOwn(headers, ops, k + 1);
    }
  }

  /** What the operation at the turn does to the waiting writer. */
  lemma TurnStep(headers: Headers, ops: seq<Op>, t: nat)
    requires t < |ops| && Turns(headers, ops, t)
    ensures var (s, op) := (Waiting(headers, ops[..t]), ops[t]);
      var s' := Apply(s, op);
      var gzip := Ripe(headers, ops, t);
      var own := Own(headers, ops[..t]);
      && s'.w.wroteHeader && s'.w.compressed == gzip == s'.w.gzip
      && s'.r.headers == (if gzip then CompressedHeaders(own) else own)
      && s'.r.sent == (if Sends(op) then SentAs(if op.Header? then op.code else OK, s'.r.headers) else NotSent)
      && (Late(s, op) <==> op.Header? && gzip)
  {
    hide ShouldCompress, CompressedHeaders;
    assert ops[..t + 1] == ops[..t] + [ops[t]];
    WrittenAppend(ops[..t], ops[t]);
    assert ops[t].Body? ==> Written([ops[t]]) == ops[t].b + [] == ops[t].b;
    assert ops[t].Header? ==> Written([ops[t]]) == [] && Written(ops[..t]) + [] == Written(ops[..t]);
  }

  /** The exchange, cut at the turn. */
  lemma SplitAtTurn(headers: Headers, ops: seq<Op>) returns (t: nat)
    ensures t == Turn(headers, ops, 0)
    ensures var s := Waiting(headers, ops[..t]);
      && (t == |ops| ==> After(Begin(headers), ops) == s && NeverLate(Begin(headers), ops) && ops[..t] == ops)
      && (t < |ops| ==>
            && After(Begin(headers), ops) == After(Apply(s, ops[t]), ops[t + 1..])
            && (NeverLate(Begin(headers), ops) <==> !Late(s, ops[t]) && NeverLate(Apply(s, ops[t]), ops[t + 1..])))
  {
    hide Apply, Turns, Late, Waiting;
    t := Turn(headers, ops, 0);
    WaitsUntil(headers, ops, t);
    AfterSplit(Begin(headers), ops[..t], ops[t..]);
    assert ops[..t] + ops[t..] == ops;
    if t < |ops| { assert ops[t..][0] == ops[t] && ops[t..][1..] == ops[t + 1..]; }
  }

  /** What the layer makes of any handler: gzip or not, late or not, the status, and, unless gzip was chosen by
      an informational status, the headers. */
  lemma LayerOutcome(headers: Headers, ops: seq<Op>)
    ensures var end := Finished(After(Begin(headers), ops));
      var own := Own(headers, ops[..LayerMoment(headers, ops)]);
      && end.r.sent.SentAs? && end.r.sent.code == LayerStatus(headers, ops)
      && end.w.compressed == GzipAtTurn(headers, ops)
      && (NeverLate(Begin(headers), ops) <==> !LateTurn(headers, ops))
      && (!LateTurn(headers, ops) ==> end.r.sent.headers == if end.w.compressed then CompressedHeaders(own) else own)
  {
    hide ShouldCompress, CompressedHeaders, Apply, After, Late, Ripe, IsInformational, Finished, NeverLate;
    var t := SplitAtTurn(headers, ops);
    if t == |ops| {
      WaitingEnds(headers, ops);
    } else {
      TurnStep(headers, ops, t);
      var s := Apply(Waiting(headers, ops[..t]), ops[t]);
      NeverLateAgain(s, ops[t + 1..]);
      if Sends(ops[t]) {
        SentStays(s, ops[t + 1..]);
      } else if s.w.compressed {
        PendingEnds(s, ops[t + 1..]);
      } else {
        RawToTheEnd(s, ops[t + 1..]);
        UntouchedByHeader(headers, ops, t);
        OwnFromIsOwn(headers, ops, t + 1);
        assert ops[..|ops|] == ops;
      }
    }
  }

  lemma UntouchedByHeader(headers: Headers, ops: seq<Op>, t: nat)
    requires t < |ops| && ops[t].Header?
    ensures Own(headers, ops[..t + 1]) == Own(headers, ops[..t])
  {
    assert ops[..t + 1] == ops[..t] + [ops[t]];
    OwnStep(headers, ops[..t], ops[t]);
  }

  lemma WaitingEnds(headers: Headers, ops: seq<Op>)
    ensures var end := Finished(Waiting(headers, ops));
      && !end.w.compressed && end.r.sent == SentAs(OK, Own(headers, ops))
      && end.r.informational == [] && end.w.headerCode == 0
  {
  }

  lemma LayeredIs(headers: Headers, ops: seq<Op>)
    ensures Layered(headers, ops) == Finished(After(Begin(headers), ops)).r
    ensures Served(headers, ops).w == Finished(After(Begin(headers), ops)).w
    ensures Finished(After(Begin(headers), ops)).w.compressed <==> !AllRaw(Layered(headers, ops).body)
  {
    hide After, Apply;
    HeldFrom(Begin(headers), ops);
    ClosedKind(After(Begin(headers), ops));
  }

  /** These headers announce gzip and are otherwise the given ones, without their length. */
  ghost predicate Announces(h: Headers, own: Headers) {
    && CONTENT_ENCODING in h && h[CONTENT_ENCODING] == "gzip"
    && VARY in h && h[VARY] == "Accept-Encoding"
    && CONTENT_LENGTH !in h
    && SameBut({CONTENT_ENCODING, VARY, CONTENT_LENGTH}, h, own)
  }

  ghost predicate SameBut(names: set<string>, h: Headers, g: Headers) {
    forall name :: name !in names ==> (name in h <==> name in g) && (name in h ==> h[name] == g[name])
  }

  lemma AnnouncesIff(h: Headers, own: Headers)
    ensures Announces(h, own) <==> h == CompressedHeaders(own)
  {
    var z := CompressedHeaders(own);
    assert Announces(z, own);
    if Announces(h, own) {
      forall name ensures (name in h <==> name in z) && (name in h ==> h[name] == z[name]) {
        if name !in {CONTENT_ENCODING, VARY, CONTENT_LENGTH} { assert name in h <==> name in own; }
      }
      assert h == z;
    }
  }

  /** For every handler: when the body goes through gzip, the headers that go out have Content-Encoding "gzip",
      Vary "Accept-Encoding", no Content-Length, and every other name as the handler had it at the moment gzip
      was chosen; only an informational status that chose gzip lets the handler change them before they go out. */
  lemma GzipHeaders(headers: Headers, ops: seq<Op>)
    requires !AllRaw(Layered(headers, ops).body)
    ensures var (sent, t) := (Layered(headers, ops).sent, Turn(headers, ops, 0));
      && sent.SentAs? && t < |ops|
      && (ops[t].Header? && IsInformational(ops[t].code) ==>
            exists h: Headers, k :: t <= k <= |ops| && Announces(h, Own(headers, ops[..t]))
                                    && sent.headers == Own(h, ops[t..k]))
      && (!(ops[t].Header? && IsInformational(ops[t].code)) ==> Announces(sent.headers, Own(headers, ops[..t])))
  {
    hide Layered, Finished, After, Apply, Ripe, Announces, ShouldCompress, CompressedHeaders, IsInformational, Late;
    LayeredIs(headers, ops);
    LayerOutcome(headers, ops);
    var t := SplitAtTurn(headers, ops);
    TurnStep(headers, ops, t);
    var s := Apply(Waiting(headers, ops[..t]), ops[t]);
    var own := Own(headers, ops[..t]);
    AnnouncesIff(CompressedHeaders(own), own);
    if Sends(ops[t]) {
      SentStays(s, ops[t + 1..]);
    } else {
      var k := PendingSends(s, ops[t + 1..]);
      assert ops[t + 1..][..k] == ops[t + 1..t + 1 + k] && ops[t..t + 1 + k] == [ops[t]] + ops[t + 1..t + 1 + k];
      FirstIsStatus(CompressedHeaders(own), ops[t], ops[t + 1..t + 1 + k]);
    }
  }

  lemma {:induction false} FirstIsStatus(h: Headers, op: Op, ops: seq<Op>)
    requires op.Header?
    ensures Own(h, [op] + ops) == Own(h, ops)
  {
    if ops == [] {
      assert ([op] + ops)[..0] == [];
    } else {
      var n := |ops| - 1;
      assert ([op] + ops)[..n + 1] == [op] + ops[..n];
      FirstIsStatus(h, op, ops[..n]);
    }
  }

  /** Gzip chosen and no header out: it goes out at the next write or the end, as it then is. */
  lemma {:induction false} PendingSends(s: State, ops: seq<Op>) returns (k: nat)
    requires s.w.compressed && s.w.gzip && s.w.wroteHeader && s.r.sent.NotSent?
    ensures k <= |ops| && Finished(After(s, ops)).r.sent == SentAs(OK, Own(s.r.headers, ops[..k]))
    decreases |ops|
  {
    hide ShouldCompress, CompressedHeaders;
    k := 0;
    if ops != [] {
      if ops[0].Body? {
        assert ops[..0] == [];
        SentStays(Apply(s, ops[0]), ops[1..]);
      } else {
        k := PendingSends(Apply(s, ops[0]), ops[1..]);
        OwnFromFront(s.r.headers, ops, k + 1);
        assert ops[1..][..k] == ops[1..k + 1];
        k := k + 1;
      }
    }
  }

  lemma {:induction false} OwnFromFront(h: Headers, ops: seq<Op>, k: nat)
    requires 1 <= k <= |ops|
    ensures Own(h, ops[..k]) == Own(Changed(h, ops[0]), ops[1..k])
    decreases k
  {
    assert ops[..k][..k - 1] == ops[..k - 1];
    if k > 1 {
      OwnFromFront(h, ops, k - 1);
      assert ops[1..k][..k - 2] == ops[1..k - 1];
    } else {
      assert ops[..0] == [] && ops[1..1] == [];
    }
  }

  /** For any handler one header goes out and never a second one, with the status of the first WriteHeader, if
      that is not informational and no write chose gzip before, and else with status 200. Without gzip it has
      the handler's own headers of one moment, untouched; with gzip, those of the moment gzip was chosen,
      changed to announce it, and what the handler changed in them until they went out. If no WriteHeader
      came late, gzip is chosen and announced in one step, with status 200. */
  lemma HeaderTellsTheTruth(headers: Headers, ops: seq<Op>)
    ensures var end := Finished(After(Begin(headers), ops));
      && end.r.sent.SentAs? && end.r.superfluous == 0 && end.r.sent.code == LayerStatus(headers, ops)
      && (end.w.compressed <==> !AllRaw(end.r.body))
      && exists i, k, h: Headers :: 0 <= i <= k <= |ops|
           && (!end.w.compressed ==> end.r.sent.headers == Own(headers, ops[..k]))
           && (end.w.compressed ==>
                 && ShouldCompress(Own(headers, ops[..i])) && Announces(h, Own(headers, ops[..i]))
                 && end.r.sent.headers == Own(h, ops[i..k]))
           && (NeverLate(Begin(headers), ops) && end.w.compressed ==> i == k && end.r.sent.code == OK)
  {
    hide Finished, After, NeverLate, ShouldCompress, CompressedHeaders, Announces, Own, LayerStatus, AllRaw;
    HeaderGoesOut(headers, ops);
    LayerOutcome(headers, ops);
    var end := Finished(After(Begin(headers), ops));
    var i, k :| 0 <= i <= k <= |ops| && SentAt(end, headers, ops, i, k)
      && (NeverLate(Begin(headers), ops) && end.w.compressed ==> i == k && end.r.sent.code == OK);
    var h := Announcing(headers, ops, i);
    AnnouncesIff(h, Own(headers, ops[..i]));
  }

  lemma {:induction false} NoMoreHints(s: State, ops: seq<Op>)
    requires s.w.wroteHeader
    ensures Finished(After(s, ops)).r.informational == s.r.informational
    ensures Finished(After(s, ops)).w.headerCode == s.w.headerCode
    decreases |ops|
  {
    hide ShouldCompress, CompressedHeaders;
    if ops != [] {
      HeaderStays(s, ops[0]);
      NoMoreHints(Apply(s, ops[0]), ops[1..]);
    }
  }

  /** Of the informational statuses the layer passes on the first, and that only if it is the handler's first
      status call and no write chose gzip before it. That call is also the one whose code the writer keeps. */
  lemma HintsPassedOn(headers: Headers, ops: seq<Op>)
    ensures var t := Turn(headers, ops, 0);
      Layered(headers, ops).informational ==
        (if t < |ops| && ops[t].Header? && IsInformational(ops[t].code) then [ops[t].code] else [])
      && Served(headers, ops).w.headerCode == if t < |ops| && ops[t].Header? then ops[t].code else 0
  {
    hide Finished, After, ShouldCompress, CompressedHeaders, Served;
    LayeredIs(headers, ops);
    var t := SplitAtTurn(headers, ops);
    if t < |ops| {
      var s := Apply(Waiting(headers, ops[..t]), ops[t]);
      TurnStep(headers, ops, t);
      NoMoreHints(s, ops[t + 1..]);
      assert [] + [if ops[t].Header? then ops[t].code else OK] == [if ops[t].Header? then ops[t].code else OK];
    } else {
      WaitingEnds(headers, ops);
    }
  }

  // --- when gzip is used ---

  /** The part stands somewhere in the text. */
  ghost predicate Has(text: string, part: string) {
    exists before, after :: text == before + part + after
  }

  ghost predicate StartsWith(text: string, part: string) {
    exists after :: text == part + after
  }

  lemma PrefixIff(text: string, part: string)
    ensures HasPrefix(text, part) <==> StartsWith(text, part)
  {
    if HasPrefix(text, part) { assert text == part + text[|part|..]; }
    if after :| text == part + after { assert text[..|part|] == part; }
  }

  lemma ContainsIff(text: string, part: string)
    ensures Contains(text, part) <==> Has(text, part)
  {
    if i :| 0 <= i <= |text| && HasPrefix(text[i..], part) {
      assert text == text[..i] + part + text[i..][|part|..];
    }
    if before, after :| text == before + part + after {
      assert text[|before|..] == part + after;
      PrefixIff(text[|before|..], part);
    }
  }

  /** When headers ask for compression: a content type is set, no content encoding is, and the type is a text
      type, in one of three spellings, or names one of five kinds. */
  lemma ShouldCompressIff(headers: Headers)
    ensures ShouldCompress(headers) <==>
      && CONTENT_TYPE in headers && (CONTENT_ENCODING in headers ==> headers[CONTENT_ENCODING] == "")
      && var ct := headers[CONTENT_TYPE];
        || StartsWith(ct, "text/") || StartsWith(ct, "Text/") || StartsWith(ct, "TEXT/")
        || Has(ct, "application/json") || Has(ct, "application/javascript") || Has(ct, "application/xml")
        || Has(ct, "application/xhtml") || Has(ct, "image/svg+xml")
  {
    hide HasPrefix, Contains, StartsWith, Has;
    var ct := Get(headers, CONTENT_TYPE);
    PrefixIff(ct, "text/");
    PrefixIff(ct, "Text/");
    PrefixIff(ct, "TEXT/");
    ContainsIff(ct, "application/json");
    ContainsIff(ct, "application/javascript");
    ContainsIff(ct, "application/xml");
    ContainsIff(ct, "application/xhtml");
    ContainsIff(ct, "image/svg+xml");
    NothingInEmpty();
  }

  lemma NothingInEmpty()
    ensures !StartsWith("", "text/") && !StartsWith("", "Text/") && !StartsWith("", "TEXT/")
    ensures !Has("", "application/json") && !Has("", "application/javascript") && !Has("", "application/xml")
    ensures !Has("", "application/xhtml") && !Has("", "image/svg+xml")
  {
  }

  lemma NoneBefore(headers: Headers, ops: seq<Op>)
    ensures forall j :: 0 <= j < Turn(headers, ops, 0) ==> !ops[j].Header?
  {
    forall j | 0 <= j < Turn(headers, ops, 0) ensures !ops[j].Header? { assert !Turns(headers, ops, j); }
  }

  /** Operation k, a write or a status call, finds a ripe response, and no status call came before it. */
  predicate Chooses(headers: Headers, ops: seq<Op>, k: nat)
    requires k < |ops|
  {
    (ops[k].Body? || ops[k].Header?) && Ripe(headers, ops, k) && forall j :: 0 <= j < k ==> !ops[j].Header?
  }

  /** For every handler: gzip is used exactly when some write or first status call finds 1024 bytes or more
      written, itself included, and headers that ask for compression. */
  lemma GzipIff(headers: Headers, ops: seq<Op>)
    ensures !AllRaw(Layered(headers, ops).body) <==> exists k :: 0 <= k < |ops| && Chooses(headers, ops, k)
  {
    hide Layered, Ripe, Finished, After;
    LayerOutcome(headers, ops);
    LayeredIs(headers, ops);
    var t := Turn(headers, ops, 0);
    NoneBefore(headers, ops);
    if GzipAtTurn(headers, ops) { assert Chooses(headers, ops, t); }
    forall k | 0 <= k < |ops| && Chooses(headers, ops, k) ensures GzipAtTurn(headers, ops) {
      assert Turns(headers, ops, k);
      assert t <= k && Turns(headers, ops, t);
    }
  }

  lemma {:induction false} WrittenGrows(ops: seq<Op>, i: nat, k: nat)
    requires i <= k <= |ops|
    ensures |Written(ops[..i])| <= |Written(ops[..k])|
    decreases k - i
  {
    if i < k {
      assert ops[..k] == ops[..k - 1] + [ops[k - 1]];
      WrittenAppend(ops[..k - 1], ops[k - 1]);
      WrittenGrows(ops, i, k - 1);
    }
  }

  /** A handler that calls WriteHeader before it has written 1024 bytes never gets gzip, whatever else it does. */
  lemma EarlyStatusNoGzip(headers: Headers, ops: seq<Op>, i: nat)
    requires i < |ops| && ops[i].Header? && |Written(ops[..i])| < 1024
    ensures AllRaw(Layered(headers, ops).body)
  {
    hide Layered;
    GzipIff(headers, ops);
    forall k | 0 <= k < |ops| ensures !Chooses(headers, ops, k) {
      if k <= i {
        assert ops[..i + 1] == ops[..i] + [ops[i]];
        WrittenAppend(ops[..i], ops[i]);
        WrittenGrows(ops, k + 1, i + 1);
      }
    }
  }

  /** The usual order, type, status, body: not compressed, while without the status it is. */
  lemma UsualOrderNoGzip(b: seq<Byte>)
    requires |b| >= 1024
    ensures AllRaw(Layered(map[], [Set(CONTENT_TYPE, "text/plain"), Header(OK), Body(b)]).body)
    ensures !AllRaw(Layered(map[], [Set(CONTENT_TYPE, "text/plain"), Body(b)]).body)
  {
    hide Layered;
    var (typ, with) := (Set(CONTENT_TYPE, "text/plain"), [Set(CONTENT_TYPE, "text/plain"), Header(OK), Body(b)]);
    assert with[..1] == [typ] && [typ][1..] == [] && Written([typ]) == [];
    EarlyStatusNoGzip(map[], with, 1);
    var without := [typ, Body(b)];
    assert without[..1] == [typ] && without[..2] == [typ] + [Body(b)] && [Body(b)][1..] == [];
    WrittenAppend([typ], Body(b));
    assert [] + b == b && b + [] == b && Written([Body(b)]) == b + [];
    OwnStep(map[], [], typ);
    assert [] + [typ] == [typ];
    assert Get(Own(map[], [typ]), CONTENT_TYPE)[..5] == "text/";
    assert Chooses(map[], without, 1);
    GzipIff(map[], without);
  }

  // --- the plain response ---

  lemma {:induction false} PlainSplit(r: Response, xs: seq<Op>, ys: seq<Op>)
    ensures PlainAfter(r, xs + ys) == PlainAfter(PlainAfter(r, xs), ys)
    decreases |xs|
  {
    hide PlainApply;
    if xs == [] {
      assert xs + ys == ys;
    } else {
      assert (xs + ys)[1..] == xs[1..] + ys;
      PlainSplit(PlainApply(r, xs[0]), xs[1..], ys);
    }
  }

  lemma {:induction false} PlainWaits(headers: Headers, ops: seq<Op>, k: nat)
    requires k <= |ops| && forall j :: 0 <= j < k ==> !Sends(ops[j])
    ensures var r := PlainAfter(Begin(headers).r, ops[..k]); r.sent.NotSent? && r.headers == Own(headers, ops[..k])
    decreases k
  {
    if k == 0 {
      assert ops[..0] == [];
    } else {
      PlainWaits(headers, ops, k - 1);
      assert ops[..k] == ops[..k - 1] + [ops[k - 1]];
      PlainSplit(Begin(headers).r, ops[..k - 1], [ops[k - 1]]);
      OwnStep(headers, ops[..k - 1], ops[k - 1]);
      assert [ops[k - 1]][1..] == [];
    }
  }

  lemma {:induction false} PlainSentStays(r: Response, ops: seq<Op>)
    requires r.sent.SentAs?
    ensures PlainAfter(r, ops).sent == r.sent
    decreases |ops|
  {
    if ops != [] { PlainSentStays(PlainApply(r, ops[0]), ops[1..]); }
  }

  function StatusCalls(ops: seq<Op>): nat {
    if ops == [] then 0 else (if ops[0].Header? then 1 else 0) + StatusCalls(ops[1..])
  }

  /** Without the layer every status call behind the header is a superfluous one, which the server complains
      about; with it there is none (HeaderTellsTheTruth). */
  lemma {:induction false} PlainCountsSuperfluous(r: Response, ops: seq<Op>)
    requires r.sent.SentAs?
    ensures PlainAfter(r, ops).superfluous == r.superfluous + StatusCalls(ops)
    decreases |ops|
  {
    if ops != [] { PlainCountsSuperfluous(PlainApply(r, ops[0]), ops[1..]); }
  }

  /** Without the layer the header goes out at the first write or final status, as it then is. */
  lemma PlainOutcome(headers: Headers, ops: seq<Op>)
    ensures Plain(headers, ops).sent == SentAs(PlainStatus(ops), Own(headers, ops[..PlainMoment(ops, 0)]))
  {
    var p := PlainMoment(ops, 0);
    PlainWaits(headers, ops, p);
    var r := PlainAfter(Begin(headers).r, ops[..p]);
    PlainSplit(Begin(headers).r, ops[..p], ops[p..]);
    assert ops[..p] + ops[p..] == ops;
    if p < |ops| {
      assert ops[p..][0] == ops[p];
      PlainSentStays(PlainApply(r, ops[p]), ops[p..][1..]);
    }
  }

  lemma {:induction false} PlainBodyFrom(r: Response, ops: seq<Op>)
    requires AllRaw(r.body)
    ensures AllRaw(PlainAfter(r, ops).body) && Concat(PlainAfter(r, ops).body) == Concat(r.body) + Written(ops)
    decreases |ops|
  {
    hide SendHeader;
    if ops == [] {
      assert Concat(r.body) + [] == Concat(r.body);
    } else {
      var op := ops[0];
      OpsSplit(ops);
      PlainStepBody(r, op);
      PlainBodyFrom(PlainApply(r, op), ops[1..]);
      assert (Concat(r.body) + Written([op])) + Written(ops[1..]) == Concat(r.body) + Written(ops);
    }
  }

  lemma PlainStepBody(r: Response, op: Op)
    requires AllRaw(r.body)
    ensures AllRaw(PlainApply(r, op).body) && Concat(PlainApply(r, op).body) == Concat(r.body) + Written([op])
  {
    if op.Body? {
      OneMorePiece(r.body, Raw(op.b));
      assert Written([op]) == op.b + [] == op.b;
    } else {
      assert Concat(r.body) + [] == Concat(r.body);
    }
  }

  lemma PlainBody(headers: Headers, ops: seq<Op>)
    ensures Decoded(Plain(headers, ops).body) == Some(Written(ops))
  {
    PlainBodyFrom(Begin(headers).r, ops);
    assert [] + Written(ops) == Written(ops);
  }

  // --- the status ---

  predicate HasBody(ops: seq<Op>) {
    exists i :: 0 <= i < |ops| && ops[i].Body?
  }

  /** Choosing gzip in a write keeps the status. A final status that comes first keeps it if nothing was
      written before, or if it is 200 anyway. An informational status that comes first keeps it if something
      was written before, or if the rest says 200. */
  predicate KeepsStatus(headers: Headers, ops: seq<Op>) {
    var t := Turn(headers, ops, 0);
    t < |ops| && ops[t].Header? ==>
      if IsInformational(ops[t].code) then HasBody(ops[..t]) || PlainStatus(ops[t + 1..]) == OK
      else !HasBody(ops[..t]) || ops[t].code == OK
  }

  /** The plain moment, when operations in front are known not to send, or one of them writes. */
  lemma {:induction false} MomentShift(ops: seq<Op>, k: nat, d: nat)
    requires d <= k <= |ops|
    ensures PlainMoment(ops, k) == PlainMoment(ops[d..], k - d) + d
    decreases |ops| - k
  {
    if k < |ops| && !Sends(ops[k]) { MomentShift(ops, k + 1, d); }
  }

  lemma {:induction false} MomentSkips(ops: seq<Op>, k: nat, m: nat)
    requires k <= m <= |ops| && forall j :: k <= j < m ==> !Sends(ops[j])
    ensures PlainMoment(ops, k) == PlainMoment(ops, m)
    decreases m - k
  {
    if k < m { MomentSkips(ops, k + 1, m); }
  }

  /** With nothing written before operation t, what is sent without the layer is decided from t on. */
  lemma DecidedFrom(headers: Headers, ops: seq<Op>, t: nat)
    requires t == Turn(headers, ops, 0) && t < |ops| && ops[t].Header?
    ensures HasBody(ops[..t]) ==> PlainStatus(ops) == OK
    ensures !HasBody(ops[..t]) && !IsInformational(ops[t].code) ==> PlainStatus(ops) == ops[t].code
    ensures !HasBody(ops[..t]) && IsInformational(ops[t].code) ==> PlainStatus(ops) == PlainStatus(ops[t + 1..])
  {
    var p := PlainMoment(ops, 0);
    NoneBefore(headers, ops);
    if HasBody(ops[..t]) {
      var i :| 0 <= i < t && ops[..t][i].Body?;
      assert Sends(ops[i]) && p <= i;
    } else {
      forall j | 0 <= j < t ensures !Sends(ops[j]) { assert ops[..t][j] == ops[j]; }
      MomentSkips(ops, 0, t);
      if IsInformational(ops[t].code) {
        MomentSkips(ops, t, t + 1);
        MomentShift(ops, t + 1, t + 1);
      }
    }
  }

  /** With no status call before the turn, or none at all, 200 is sent in both cases. */
  lemma NoStatusCall(headers: Headers, ops: seq<Op>)
    requires var t := Turn(headers, ops, 0); t == |ops| || ops[t].Body?
    ensures PlainStatus(ops) == OK && LayerStatus(headers, ops) == OK
  {
    var (t, p) := (Turn(headers, ops, 0), PlainMoment(ops, 0));
    NoneBefore(headers, ops);
    assert t < |ops| ==> Sends(ops[t]);
  }

  /** For every handler: the client sees the same status as without the layer if and only if this holds. */
  lemma StatusIff(headers: Headers, ops: seq<Op>)
    ensures Layered(headers, ops).sent.SentAs? && Plain(headers, ops).sent.SentAs?
    ensures Layered(headers, ops).sent.code == Plain(headers, ops).sent.code <==> KeepsStatus(headers, ops)
  {
    hide Layered, Plain, Finished, After, LateTurn, GzipAtTurn, PlainStatus, HasBody, IsInformational, Ripe;
    LayerOutcome(headers, ops);
    LayeredIs(headers, ops);
    PlainOutcome(headers, ops);
    var t := Turn(headers, ops, 0);
    if t < |ops| && ops[t].Header? {
      DecidedFrom(headers, ops, t);
    } else {
      NoStatusCall(headers, ops);
    }
  }

  /** The real status is lost when Early Hints (status 103) came first ... */
  lemma HintsHideStatus(b: seq<Byte>)
    ensures var ops := [Header(103), Header(404), Body(b)];
      Layered(map[], ops).sent.code == OK && Plain(map[], ops).sent.code == 404
  {
    var ops := [Header(103), Header(404), Body(b)];
    LayerOutcome(map[], ops);
    LayeredIs(map[], ops);
    PlainOutcome(map[], ops);
    hide Layered, Plain, Finished, After;
    assert Turn(map[], ops, 0) == 0;
    assert PlainMoment(ops, 0) == PlainMoment(ops, 1) == 1;
  }

  /** ... and a status set after the first write, too late without the layer, goes out with it. */
  lemma StatusAfterWriteIsSent(b: seq<Byte>)
    ensures var ops := [Body(b), Header(404)];
      Layered(map[], ops).sent.code == 404 && Plain(map[], ops).sent.code == OK
  {
    var ops := [Body(b), Header(404)];
    LayerOutcome(map[], ops);
    LayeredIs(map[], ops);
    PlainOutcome(map[], ops);
    hide Layered, Plain, Finished, After;
    assert ops[..0] == [] && !Turns(map[], ops, 0);
    assert Turn(map[], ops, 0) == Turn(map[], ops, 1) == 1;
  }

  /** A protocol switch is a final status, not an informational one: called first, it goes out at once with
      the headers as they are, with the layer and without. */
  lemma SwitchGoesThrough(headers: Headers, ops: seq<Op>)
    requires ops != [] && ops[0] == Header(101)
    ensures Layered(headers, ops).sent == Plain(headers, ops).sent == SentAs(101, headers)
    ensures Layered(headers, ops).informational == []
  {
    hide Layered, Plain, Finished, After, ShouldCompress, NeverLate;
    assert ops[..0] == [] && ops[..1] == [ops[0]] && Written([ops[0]]) == [];
    assert Turn(headers, ops, 0) == 0 && PlainMoment(ops, 0) == 0;
    LayerOutcome(headers, ops);
    LayeredIs(headers, ops);
    PlainOutcome(headers, ops);
    HintsPassedOn(headers, ops);
  }

  // --- full transparency ---

  /** Same status, same decoded body, and the same headers up to what announcing gzip changes. */
  ghost predicate Transparent(headers: Headers, ops: seq<Op>) {
    var (with, without) := (Layered(headers, ops), Plain(headers, ops));
    && with.sent.SentAs? && without.sent.SentAs?
    && with.sent.code == without.sent.code
    && (if AllRaw(with.body) then with.sent.headers == without.sent.headers
        else Announces(with.sent.headers, without.sent.headers))
    && Decoded(with.body) == Decoded(without.body)
  }

  /** At the moment the layer sends the header, the handler's own headers are what they were when they would
      have been sent without it. */
  ghost predicate KeepsHeaders(headers: Headers, ops: seq<Op>) {
    var (p, q) := (PlainMoment(ops, 0), LayerMoment(headers, ops));
    SameBut(if GzipAtTurn(headers, ops) then {CONTENT_ENCODING, VARY, CONTENT_LENGTH} else {},
            Own(headers, ops[..q]), Own(headers, ops[..p]))
  }

  lemma SameHeaders(h: Headers, g: Headers)
    ensures SameBut({}, h, g) <==> h == g
    ensures SameBut({CONTENT_ENCODING, VARY, CONTENT_LENGTH}, h, g) <==> CompressedHeaders(h) == CompressedHeaders(g)
  {
    AnnouncesIff(CompressedHeaders(h), h);
    AnnouncesIff(CompressedHeaders(h), g);
    if SameBut({}, h, g) { assert h == g; }
  }

  /** For every handler: the layer is transparent if and only if no WriteHeader comes late, and status and
      headers are kept. */
  lemma TransparentIff(headers: Headers, ops: seq<Op>)
    ensures Transparent(headers, ops) <==>
      !LateTurn(headers, ops) && KeepsStatus(headers, ops) && KeepsHeaders(headers, ops)
  {
    LayerOutcome(headers, ops);
    LayeredIs(headers, ops);
    PlainOutcome(headers, ops);
    StatusIff(headers, ops);
    PlainBody(headers, ops);
    BodyPreservedIff(headers, ops);
    FinishKeepsBody(headers, ops);
    var (own, plain) := (Own(headers, ops[..LayerMoment(headers, ops)]), Own(headers, ops[..PlainMoment(ops, 0)]));
    SameHeaders(own, plain);
    AnnouncesIff(CompressedHeaders(own), plain);
    hide Layered, Plain, Finished, After, LateTurn, GzipAtTurn, KeepsStatus, LayerMoment, PlainMoment, Own,
         Decoded, NeverLate, Announces, SameBut, CompressedHeaders;
  }

  lemma FinishKeepsBody(headers: Headers, ops: seq<Op>)
    ensures Layered(headers, ops).body == Served(headers, ops).r.body
  {
    hide After, Close;
  }

  /** Headers and status first, then the body; no informational status. */
  predicate Staged(ops: seq<Op>) {
    && (forall i, j :: 0 <= i < j < |ops| && ops[i].Body? ==> ops[j].Body?)
    && (forall i :: 0 <= i < |ops| && ops[i].Header? ==> !IsInformational(ops[i].code))
  }

  lemma {:induction false} OwnStays(headers: Headers, ops: seq<Op>, i: nat, k: nat)
    requires i <= k <= |ops| && forall j :: i <= j < k ==> ops[j].Body?
    ensures Own(headers, ops[..k]) == Own(headers, ops[..i])
    decreases k - i
  {
    if i < k {
      assert ops[..k] == ops[..k - 1] + [ops[k - 1]];
      OwnStep(headers, ops[..k - 1], ops[k - 1]);
      OwnStays(headers, ops, i, k - 1);
    }
  }

  lemma StagedKeeps(headers: Headers, ops: seq<Op>)
    requires Staged(ops)
    ensures KeepsStatus(headers, ops) && KeepsHeaders(headers, ops)
  {
    hide GzipAtTurn, Own, Ripe, CompressedHeaders;
    var (t, p) := (Turn(headers, ops, 0), PlainMoment(ops, 0));
    NoneBefore(headers, ops);
    if t < |ops| && ops[t].Header? {
      forall j | 0 <= j < t ensures !ops[j].Body? && ops[..t][j] == ops[j] {}
      MomentSkips(ops, 0, t);
    } else {
      assert t < |ops| ==> Sends(ops[t]);
      assert p <= t;
      OwnStays(headers, ops, p, t);
    }
  }

  /** For such a handler all of it holds. */
  lemma LayerIsTransparent(headers: Headers, ops: seq<Op>)
    requires Staged(ops)
    ensures Transparent(headers, ops)
  {
    assert FixedBeforeWrite(ops);
    hide Transparent, KeepsStatus, KeepsHeaders, NeverLate, Finished, After, LateTurn, Staged, FixedBeforeWrite;
    TransparentIff(headers, ops);
    FixedNeverLate(Begin(headers), ops);
    LayerOutcome(headers, ops);
    StagedKeeps(headers, ops);
  }
}
