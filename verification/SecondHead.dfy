/** What the parser's callbacks become at the top layer, and what it holds when more than one response
    comes in while one is waited for. */
module SecondHead {
  import opened Numbers
  import opened Headers
  import opened ParserState
  import opened StepMachine
  import opened LogInvariant
  import opened Calls
  import opened HttpParser
  import opened Reading
  import opened HeaderName
  import opened HeaderLine
  import opened Chunked
  import opened HeaderAssembly
  import opened ClientConnection
  import opened Replies
  import opened ErrorHandling
  import opened T = HttpContent
  import B = BackToBack
  import U = Url
  import H = ResponseHead

  // ----- from the parser to the top layer -----

  /** What one callback of the parser is to the top layer. */
  function Told(a: Assembly, e: StepMachine.Event): seq<T.Event> {
    match e
    case Note(HeadersComplete(status)) => [T.Head(status, Read(a).headers)]
    case Data(Body, at) => [T.Body(at)]
    case Note(MessageComplete(_)) => [T.End(NoError)]
    case _ => []
  }

  function Upward(a: Assembly, log: seq<StepMachine.Event>): seq<T.Event> {
    if log == [] then []
    else Upward(a, log[..|log| - 1]) + Told(Assemble(a, log[..|log| - 1]), log[|log| - 1])
  }

  /** The headers told are those that the assembler hands on. */
  lemma ToldGiven(a: Assembly, status: nat)
    ensures OnEvent(a, Note(HeadersComplete(status))).given == a.given + [Given(status, Read(a).headers)]
  {
    hide TrimEnd;
  }

  lemma {:induction false} UpConcat(a: Assembly, x: seq<StepMachine.Event>, y: seq<StepMachine.Event>)
    ensures Upward(a, x + y) == Upward(a, x) + Upward(Assemble(a, x), y)
    decreases |y|
  {
    hide Told, Assemble;
    if y == [] {
      assert x + y == x;
    } else {
      var so := y[..|y| - 1];
      assert (x + y)[..|x + y| - 1] == x + so;
      UpConcat(a, x, so);
      AssembleConcat(a, x, so);
    }
  }

  lemma UpOne(a: Assembly, e: StepMachine.Event)
    ensures Upward(a, [e]) == Told(a, e)
  {
    assert [e][..0] == [] && Assemble(a, [e][..0]) == a && Upward(a, [e][..0]) == [];
    hide Told, Assemble, Upward;
  }

  // ----- histories of the top layer -----

  predicate NoStarts(es: seq<T.Event>) { forall e :: e in es ==> !e.Start? }

  lemma {:induction false} UsedConcat(s: Slot, x: seq<T.Event>, y: seq<T.Event>)
    requires WellUsed(s, x) && NoStarts(y)
    ensures WellUsed(s, x + y)
    decreases |y|
  {
    hide Run;
    if y == [] {
      assert x + y == x;
    } else {
      var so := y[..|y| - 1];
      assert (x + y)[..|x + y| - 1] == x + so && y[|y| - 1] in y;
      UsedConcat(s, x, so);
    }
  }

  lemma UsedOne(s: Slot, x: seq<T.Event>, e: T.Event)
    requires WellUsed(s, x) && (e.Start? ==> !Run(s, x).armed)
    ensures WellUsed(s, x + [e])
  {
    assert (x + [e])[..|x|] == x;
    hide Run;
  }

  lemma {:induction false} NoneStarts(a: Assembly, log: seq<StepMachine.Event>)
    ensures NoStarts(Upward(a, log))
  {
    hide Assemble;
    if log != [] { NoneStarts(a, log[..|log| - 1]); }
  }

  /** The top layer cannot tell how the callbacks were cut up. */
  lemma {:induction false} ToldJoined(a: Assembly, s: Slot, raw: seq<StepMachine.Event>)
    requires RawOk(raw)
    ensures Run(s, Upward(a, raw)) == Run(s, Upward(a, Joined(raw)))
  {
    hide Assemble, T.Step, Told, Emit, EndsInEmptyValue;
    if raw != [] {
      var (so, e) := (raw[..|raw| - 1], raw[|raw| - 1]);
      ToldJoined(a, s, so);
      AssembleJoined(a, so);
      RunConcat(s, Upward(a, so), Told(Assemble(a, so), e));
      ToldEmit(a, s, Joined(so), e);
    }
  }

  lemma ToldEmit(a: Assembly, s: Slot, log: seq<StepMachine.Event>, e: StepMachine.Event)
    ensures Run(s, Upward(a, Emit(log, e))) == Run(Run(s, Upward(a, log)), Told(Assemble(a, log), e))
  {
    hide Assemble, T.Step, Run, Upward;
    if e.Data? && LastIs(log, e.kind) {
      var (init, l) := (log[..|log| - 1], log[|log| - 1]);
      var joined := Data(e.kind, l.bytes + e.bytes);
      assert Emit(log, e) == init + [joined] && log == init + [l];
      UpConcat(a, init, [joined]);
      UpConcat(a, init, [l]);
      UpOne(Assemble(a, init), joined);
      UpOne(Assemble(a, init), l);
      RunConcat(s, Upward(a, init), Told(Assemble(a, init), joined));
      RunConcat(s, Upward(a, init), Told(Assemble(a, init), l));
      TwoBodies(Run(s, Upward(a, init)), Assemble(a, init), Assemble(a, log), e.kind, l.bytes, e.bytes);
    } else {
      UpConcat(a, log, [e]);
      UpOne(Assemble(a, log), e);
      RunConcat(s, Upward(a, log), Told(Assemble(a, log), e));
    }
  }

  lemma TwoBodies(s: Slot, a: Assembly, b: Assembly, k: Kind, x: string, y: string)
    ensures Run(Run(s, Told(a, Data(k, x))), Told(b, Data(k, y))) == Run(s, Told(a, Data(k, x + y)))
  {
    if k == Kind.Body {
      hide Run;
      RunOne(s, T.Body(x));
      RunOne(T.Step(s, T.Body(x)), T.Body(y));
      RunOne(s, T.Body(x + y));
      assert s.sink + x + y == s.sink + (x + y);
    }
  }

  // ----- one response -----

  predicate Silent(e: StepMachine.Event) { e.Note? ==> !e.note.HeadersComplete? && !e.note.MessageComplete? }

  predicate AllBody(es: seq<T.Event>) { forall e :: e in es ==> e.Body? }

  /** Within a body only its bytes are told. */
  lemma {:induction false} BodyTold(a: Assembly, log: seq<StepMachine.Event>)
    requires forall e :: e in log ==> Silent(e)
    ensures AllBody(Upward(a, log)) && Received(Upward(a, log)) == Delivered(log)
  {
    hide Assemble;
    if log != [] {
      var (so, e) := (log[..|log| - 1], log[|log| - 1]);
      assert e in log && forall x :: x in so ==> x in log;
      BodyTold(a, so);
      var up := Upward(a, so);
      if e.Data? && e.kind == Kind.Body {
        assert (up + [T.Body(e.bytes)])[..|up|] == up;
      } else {
        assert up + [] == up;
      }
    }
  }

  function Trailers(r: Reply): seq<Header> { if r.body.Chunks? then r.body.trailers else [] }

  predicate Aside(e: StepMachine.Event) {
    match e
    case Data(k, _) => k != Field && k != Value
    case Note(n) => !n.HeadersComplete? && !n.MessageComplete?
  }

  /** Callbacks that are no concern of the assembler. */
  lemma {:induction false} AsideKeeps(a: Assembly, log: seq<StepMachine.Event>)
    requires forall e :: e in log ==> Aside(e)
    ensures Assemble(a, log) == a
  {
    if log != [] {
      assert log[|log| - 1] in log && forall x :: x in log[..|log| - 1] ==> x in log;
      AsideKeeps(a, log[..|log| - 1]);
    }
  }

  lemma {:induction false} ChunksAside(cs: seq<Chunk>)
    ensures forall e :: e in ChunksEvents(cs) ==> Aside(e)
  {
    if cs != [] { ChunksAside(cs[1..]); }
  }

  predicate AllNamed(hs: seq<Header>) { forall h :: h in hs ==> h.name != "" }

  lemma {:induction false} FieldsOf(hs: seq<Header>)
    requires AllNamed(hs)
    ensures LineEvents(hs) == FieldEvents(Pairs(hs)) && (forall p :: p in Pairs(hs) ==> p.name != "")
    ensures forall e :: e in LineEvents(hs) ==> Silent(e) && (e.Data? ==> e.kind != Kind.Body)
  {
    hide Flat;
    if hs != [] {
      assert hs[0] in hs && forall x :: x in hs[1..] ==> x in hs;
      FieldsOf(hs[1..]);
    }
  }

  /** All headers the request has been given so far, after a response of which `hs` are further lines. */
  predicate Grown(a: Assembly, b: Assembly, hs: seq<Header>) {
    Between(b) && Read(b).headers == Read(a).headers + Trimmed(Pairs(hs))
  }

  lemma LinesGrow(a: Assembly, hs: seq<Header>)
    requires Between(a) && AllNamed(hs)
    ensures Grown(a, Assemble(a, LineEvents(hs)), hs)
  {
    hide Assemble, LineEvents, Between, Read, TrimEnd;
    FieldsOf(hs);
    ManyHeaders(a, Pairs(hs));
  }

  /** A head tells its status and all headers of the request so far. */
  lemma HeadTold(a: Assembly, code: string, reason: string, hs: seq<Header>)
    requires Between(a) && AllNamed(hs)
    ensures var log := H.HeadEvents(code, reason, hs);
            && Upward(a, log) == [T.Head(Decimal(code), Read(a).headers + Trimmed(Pairs(hs)))]
            && Grown(a, Assemble(a, log), hs) && Assemble(a, log).current == Pair("", "")
  {
    hide Assemble, Upward, Trimmed, Pairs, LineEvents, Decimal, Between, Delivered;
    var start: seq<StepMachine.Event> := [Note(MessageBegin), Data(Status, reason)];
    var (lines, end) := (LineEvents(hs), Note(HeadersComplete(Decimal(code))));
    AsideKeeps(a, start);
    FieldsOf(hs);
    LinesGrow(a, hs);
    var b := Assemble(a, lines);
    QuietTold(a, start);
    QuietTold(a, lines);
    UpConcat(a, start, lines);
    UpConcat(a, start + lines, [end]);
    AssembleConcat(a, start, lines);
    AssembleConcat(a, start + lines, [end]);
    UpOne(b, end);
    AssembleOne(b, end);
    EndsHead(b, Decimal(code));
    assert H.HeadEvents(code, reason, hs) == start + lines + [end];
  }

  lemma EndsHead(b: Assembly, status: nat)
    requires Between(b)
    ensures var c := OnEvent(b, Note(HeadersComplete(status)));
            c.current == Pair("", "") && Between(c) && Read(c).headers == Read(b).headers
  {
    hide TrimEnd;
  }

  lemma {:induction false} QuietTold(a: Assembly, log: seq<StepMachine.Event>)
    requires forall e :: e in log ==> Silent(e) && (e.Data? ==> e.kind != Kind.Body)
    ensures Upward(a, log) == []
  {
    hide Assemble;
    if log != [] {
      assert log[|log| - 1] in log && forall x :: x in log[..|log| - 1] ==> x in log;
      QuietTold(a, log[..|log| - 1]);
    }
  }

  /** The callbacks of the body, before the completion. */
  function Inside(p: Payload): seq<StepMachine.Event> {
    match p
    case Bytes(b) => if b == "" then [] else [Data(Kind.Body, b)]
    case Chunks(cs, _, trailers) =>
      ChunksEvents(cs) + [Note(ChunkHeader(0))] + LineEvents(trailers) + [Note(ChunkComplete)]
  }

  lemma InsideIs(r: Reply)
    requires AllNamed(Trailers(r))
    ensures PayloadEvents(r.body) == Inside(r.body) + [Note(MessageComplete(true))]
    ensures forall e :: e in Inside(r.body) ==> Silent(e)
    ensures Delivered(Inside(r.body)) == Content(r)
  {
    hide LineEvents, ChunksEvents, Delivered, Content;
    var end: StepMachine.Event := Note(MessageComplete(true));
    if r.body.Chunks? {
      ChunksAside(r.body.chunks);
      FieldsOf(r.body.trailers);
      assert [Note(ChunkComplete), end] == [Note(ChunkComplete)] + [end];
    }
    InsideDelivered(r);
  }

  lemma InsideDelivered(r: Reply)
    ensures Delivered(Inside(r.body)) == Content(r)
  {
    hide LineEvents, ChunksEvents, Pieces, Flat, Delivered;
    var end: StepMachine.Event := Note(MessageComplete(true));
    Nothing1(end);
    DeliveredConcat(Inside(r.body), [end]);
    match r.body {
      case Bytes(b) =>
        BytesDelivered(b);
        assert PayloadEvents(Bytes(b)) == Inside(r.body) + [end];
      case Chunks(cs, last, trailers) =>
        BodyDelivered(cs, trailers, true);
        assert BodyEvents(cs, trailers, true) == Inside(r.body) + [end];
    }
    assert Delivered(Inside(r.body)) + "" == Delivered(Inside(r.body));
  }

  lemma InsideGrows(a: Assembly, r: Reply)
    requires a.current == Pair("", "") && AllNamed(Trailers(r))
    ensures Grown(a, Assemble(a, Inside(r.body)), Trailers(r))
  {
    hide Assemble, LineEvents, ChunksEvents, Delivered, TrimEnd;
    match r.body {
      case Bytes(b) =>
        AsideKeeps(a, Inside(r.body));
        assert Read(a).headers + [] == Read(a).headers;
      case Chunks(cs, _, trailers) =>
        ChunksAside(cs);
        var (x, y) := (ChunksEvents(cs) + [Note(ChunkHeader(0))], LineEvents(trailers));
        AsideKeeps(a, x);
        LinesGrow(a, trailers);
        AssembleConcat(a, x, y);
        AssembleConcat(a, x + y, [Note(ChunkComplete)]);
        AsideKeeps(Assemble(a, y), [Note(ChunkComplete)]);
    }
  }

  function HeadersIn(r: Reply): seq<Pair> { Trimmed(Pairs(HeadersOf(r))) }

  /** What a response is to the top layer: its head, the bytes of its body, and the end. */
  lemma ReplyTold(a: Assembly, r: Reply) returns (up: seq<T.Event>)
    requires Between(a) && AllNamed(HeadersOf(r)) && AllNamed(Trailers(r))
    ensures AllBody(up) && Received(up) == Content(r)
    ensures Upward(a, ReplyEvents(r))
        == [T.Head(Decimal(r.code), Read(a).headers + HeadersIn(r))] + up + [T.End(NoError)]
    ensures var b := Assemble(a, ReplyEvents(r));
            Between(b) && Read(b).headers == Read(a).headers + HeadersIn(r) + Trimmed(Pairs(Trailers(r)))
  {
    hide Assemble, Upward, Decimal, Trimmed, Pairs, H.HeadEvents, Inside, PayloadEvents, Between, Delivered, Content,
      HeadersOf, Trailers, Received, AllBody, AllNamed, Read, TrimEnd, Silent;
    var (head, body, end) := (H.HeadEvents(r.code, r.reason, HeadersOf(r)), Inside(r.body),
      Note(MessageComplete(true)));
    HeadTold(a, r.code, r.reason, HeadersOf(r));
    var b := Assemble(a, head);
    InsideIs(r);
    InsideGrows(b, r);
    BodyTold(b, body);
    up := Upward(b, body);
    assert ReplyEvents(r) == head + body + [end];
    UpConcat(a, head, body);
    UpConcat(a, head + body, [end]);
    AssembleConcat(a, head, body);
    AssembleConcat(a, head + body, [end]);
    var c := Assemble(b, body);
    UpOne(c, end);
    AssembleOne(c, end);
    EndsMessage(c);
  }

  lemma EndsMessage(b: Assembly)
    requires Between(b)
    ensures var c := OnEvent(b, Note(MessageComplete(true))); Between(c) && Read(c).headers == Read(b).headers
  {
    hide TrimEnd;
  }

  // ----- two responses -----

  lemma {:induction false} BodiesRun(s: Slot, es: seq<T.Event>)
    requires AllBody(es)
    ensures Run(s, es) == s.(sink := s.sink + Received(es))
  {
    if es == [] {
      assert s.sink + "" == s.sink;
    } else {
      assert es[|es| - 1] in es && forall e :: e in es[..|es| - 1] ==> e in es;
      BodiesRun(s, es[..|es| - 1]);
    }
  }

  /** A head, a body and an end: a callback that is set is run with them; if none is, the head stays. */
  lemma MessageRun(s: Slot, status: nat, hs: seq<Pair>, up: seq<T.Event>)
    requires AllBody(up)
    ensures var t := Run(s, [T.Head(status, hs)] + up + [T.End(NoError)]);
            var r := s.result.(status := status, headers := hs);
            && !t.armed && t.sink == s.sink + Received(up)
            && t.result == (if s.armed then NO_RESULT else r)
            && t.calls == s.calls + if s.armed then [Call(r.(data := t.sink), NoError)] else []
  {
    hide Run, Received;
    RunOne(s, T.Head(status, hs));
    var h := T.Step(s, T.Head(status, hs));
    RunConcat(s, [T.Head(status, hs)], up);
    BodiesRun(h, up);
    RunConcat(s, [T.Head(status, hs)] + up, [T.End(NoError)]);
    RunOne(Run(h, up), T.End(NoError));
    assert s.calls + [] == s.calls;
  }

  /** What the top layer has been told when two responses came in while one was waited for, and the next
      request ended before its own head. */
  function History(raw: seq<StepMachine.Event>, ec: Error): seq<T.Event> {
    [T.Start] + Upward(NO_HEADERS, raw) + [T.Start] + [T.End(ec)]
  }

  lemma TwoRun(up1: seq<T.Event>, up2: seq<T.Event>, h1: T.Event, h2: T.Event, ec: Error)
    requires AllBody(up1) && AllBody(up2) && h1.Head? && h2.Head?
    ensures var told := ([h1] + up1 + [T.End(NoError)]) + ([h2] + up2 + [T.End(NoError)]);
            var s := Run(T.Step(UNUSED, T.Start), told);
            && !s.armed
            && T.Step(T.Step(s, T.Start), T.End(ec)).calls
                 == [Call(T.Result.Result(h1.status, h1.headers, Received(up1)), NoError),
                   Call(T.Result.Result(h2.status, h2.headers, ""), ec)]
  {
    hide Run, Received, AllBody;
    var s := T.Step(UNUSED, T.Start);
    var (x, y) := ([h1] + up1 + [T.End(NoError)], [h2] + up2 + [T.End(NoError)]);
    RunConcat(s, x, y);
    MessageRun(s, h1.status, h1.headers, up1);
    MessageRun(Run(s, x), h2.status, h2.headers, up2);
    assert "" + Received(up1) == Received(up1);
  }

  lemma Named(cfg: Config, r: Reply)
    requires IsReply(cfg, r)
    ensures AllNamed(HeadersOf(r)) && AllNamed(Trailers(r))
  {
    FrameOf(cfg, r);
    FrameIs(cfg, r.frame);
    if r.body.Chunks? { TrailersPlain(cfg, r); }
    PlainAll(cfg, r.before);
    PlainAll(cfg, r.after);
    if r.body.Chunks? { PlainAll(cfg, r.body.trailers); }
    hide IsReply, IsFrame, AllPlain;
  }

  lemma PlainAll(cfg: Config, hs: seq<Header>)
    requires AllPlain(cfg, hs)
    ensures AllNamed(hs)
  {
    if hs != [] { PlainNames(cfg, hs); }
    hide AllPlain, IsName;
    forall h | h in hs ensures h.name != "" { assert IsName(h.name); NameNonempty(h.name); }
  }

  lemma TrailersPlain(cfg: Config, r: Reply)
    requires IsReply(cfg, r) && r.body.Chunks?
    ensures AllPlain(cfg, r.body.trailers)
  {
    hide AllPlain, IsEncodingHeader, GoodChunk, GoodHead, H.IsCode, H.IsReason;
  }

  /** A read that brings a further response with the one that is waited for: its head is handed to the
      request after that, if this one ends before its own head. */
  lemma HeadOfAnother(cfg: Config, r1: Reply, r2: Reply, b: Parser, exited: bool, raw: seq<StepMachine.Event>,
      ec: Error)
    requires IsReply(cfg, r1) && IsReply(cfg, r2)
    requires Fed(cfg, Parser(B.NEW_CLIENT, 0, Ok), [ReplyText(r1) + ReplyText(r2)], b, exited)
        && !b.errno.HeaderOverflow?
    requires RawOk(raw) && Joined(raw) == b.m.log
    ensures WellUsed(UNUSED, History(raw, ec))
    ensures var hs := HeadersIn(r1) + Trimmed(Pairs(Trailers(r1))) + HeadersIn(r2);
            Run(UNUSED, History(raw, ec)).calls
              == [Call(T.Result.Result(Decimal(r1.code), HeadersIn(r1), Content(r1)), NoError),
                  Call(T.Result.Result(Decimal(r2.code), hs, ""), ec)]
  {
    hide Assemble, Upward, Fed, IsReply, Run, Decimal, Content, HeadersIn, ReplyEvents, ReplyText, Received, AllBody,
      RawOk, Joined, Texts, AllEvents, B.EachFits, Contents, Delivered, WellUsed, T.Step, AllNamed, Trailers, Pairs,
      Trimmed, Flat;
    var rs := [r1, r2];
    TwoTexts(r1, r2);
    RepliesAnySplit(cfg, rs, [ReplyText(r1) + ReplyText(r2)], b, exited);
    Named(cfg, r1);
    Named(cfg, r2);
    var up1 := ReplyTold(NO_HEADERS, r1);
    var a := Assemble(NO_HEADERS, ReplyEvents(r1));
    var up2 := ReplyTold(a, r2);
    UpConcat(NO_HEADERS, ReplyEvents(r1), ReplyEvents(r2));
    var s := T.Step(UNUSED, T.Start);
    ToldJoined(NO_HEADERS, s, raw);
    TwoRun(up1, up2, Upward(NO_HEADERS, ReplyEvents(r1))[0], Upward(a, ReplyEvents(r2))[0], ec);
    assert [] + HeadersIn(r1) == HeadersIn(r1);
    HistoryRun(raw, ec);
  }

  lemma HistoryRun(raw: seq<StepMachine.Event>, ec: Error)
    requires !Run(T.Step(UNUSED, T.Start), Upward(NO_HEADERS, raw)).armed
    ensures WellUsed(UNUSED, History(raw, ec))
    ensures Run(UNUSED, History(raw, ec))
         == T.Step(T.Step(Run(T.Step(UNUSED, T.Start), Upward(NO_HEADERS, raw)), T.Start), T.End(ec))
  {
    hide Upward, Run, WellUsed;
    var up := Upward(NO_HEADERS, raw);
    NoneStarts(NO_HEADERS, raw);
    Then([], T.Start, [T.Start]);
    assert WellUsed(UNUSED, []) && Run(UNUSED, []) == UNUSED by { Nothing(); }
    UsedConcat(UNUSED, [T.Start], up);
    RunConcat(UNUSED, [T.Start], up);
    Then([T.Start] + up, T.Start, [T.Start] + up + [T.Start]);
    Then([T.Start] + up + [T.Start], T.End(ec), History(raw, ec));
  }

  lemma Nothing()
    ensures WellUsed(UNUSED, []) && Run(UNUSED, []) == UNUSED
  {
  }

  lemma TwoTexts(r1: Reply, r2: Reply)
    ensures Flat([ReplyText(r1) + ReplyText(r2)]) == Flat(Texts([r1, r2]))
    ensures AllEvents([r1, r2]) == ReplyEvents(r1) + ReplyEvents(r2)
  {
    hide ReplyText, ReplyEvents;
    assert [r1, r2][1..] == [r2] && [r2][1..] == [];
    assert Texts([r2]) == [ReplyText(r2)] && Texts([r1, r2]) == [ReplyText(r1), ReplyText(r2)];
    assert [ReplyText(r1), ReplyText(r2)][1..] == [ReplyText(r2)];
    assert ReplyText(r2) + "" == ReplyText(r2);
    assert AllEvents([r2]) == ReplyEvents(r2) + [] == ReplyEvents(r2);
  }

  /** If that head says so, the request is redirected by it. */
  lemma RedirectedByAnother(ec: Error)
    requires !IsTransient(ec)
    ensures var r := Located(NoError, "h");
            var es := [T.Start, T.Head(200, []), T.End(NoError), T.Head(r.status, r.headers), T.Start, T.End(ec)];
            var calls := Run(UNUSED, es).calls;
            && |calls| == 2 && calls[1].ec == ec
            && ProcessErrors(Report(ec, calls[1].result.status, calls[1].result.headers)).Redirect?
  {
    HostIsUrl();
    LocatedIs(ec, "h");
    DecisionBy(Located(ec, "h"));
    hide U.IsUrl, ProcessErrors, GetHeader;
    StaleHead(Located(NoError, "h").headers, ec);
  }
}
