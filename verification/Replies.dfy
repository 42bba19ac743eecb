/** Whole responses as text: a head that frames its body by a length or in chunks, and the body.  The
    parser reads them, and any number of them one after the other over any split. */
module Replies {
  import opened Chars
  import opened Numbers
  import opened ParserState
  import opened ByteTransition
  import opened StepMachine
  import opened ParserInvariant
  import opened LogInvariant
  import opened Calls
  import opened Stepping
  import opened Reading
  import opened HeaderName
  import opened Lengths
  import opened HeaderLine
  import opened HeaderWords
  import opened Chunked
  import opened IdentityBody
  import H = ResponseHead
  import B = BackToBack
  import R = RoundTrip

  // ----- the header that frames the body -----

  /** A header that announces a chunked body. */
  predicate IsEncodingHeader(cfg: Config, h: Header) {
    && IsName(h.name) && LowerName(h.name) == TRANSFER_ENCODING && h.value != "" && IsValue(cfg, h.value)
      && IsChunked(h.value)
    && h.folds == [] && forall l :: l in h.leads ==> IsLead(l)
  }

  /** The flags, and the length, that the framing header leaves. */
  predicate FramedBy(f: Fields, h: Header, g: Fields) {
    if LowerName(h.name) == CONTENT_LENGTH
    then g.m == f.m.(flags := f.m.flags.(contentLength := true)) && g.length == Decimal(h.value)
    else g.m == f.m.(flags := f.m.flags.(chunked := true)) && g.length == f.length
  }

  predicate IsFrame(cfg: Config, h: Header) { IsLengthHeader(cfg, h) || IsEncodingHeader(cfg, h) }

  lemma ReadEncodingValue(cfg: Config, n: Machine, v: string) returns (o: Machine)
    requires n.f.state.HeaderValueDiscardWs? && n.f.hstate.TransferEncoding? && v != "" && IsValue(cfg, v)
        && IsChunked(v)
    ensures Reads(cfg, n, v + "\r\n", o) && o.f.state.HeaderValueLws? && o.log == Emit(n.log, Data(Value, v))
    ensures EndOfLine(o.f).m == n.f.m.(flags := n.f.m.flags.(chunked := true)) && o.f.length == n.f.length
  {
    assert forall c :: c in v ==> IsValueChar(cfg, c);
    hide Reads, IsValueChar, Emit, IsChunked, EndOfLine, ValueRun;
    ReadEncoding(cfg, n, v);
    var r := ValueRead(n, v);
    ReadLineEnd(cfg, r);
    o := r.(f := r.f.(state := HeaderValueLws), nread := r.nread + 2);
    ReadThen(cfg, n, v, r, "\r\n", o);
    EndOfLineState(r.f, HeaderValueLws);
  }

  lemma EndOfLineState(f: Fields, s: State)
    ensures EndOfLine(f.(state := s)).m == EndOfLine(f).m && EndOfLine(f).length == f.length
  {
  }

  lemma ReadEncodingLine(cfg: Config, s: Machine, h: Header, rest: string) returns (n: Machine)
    requires s.f.state.HeaderFieldStart? && StartsLine(rest) && IsEncodingHeader(cfg, h)
    ensures Leads(cfg, s, LineText(h), n, rest) && n.f.state.HeaderFieldStart? && FramedBy(s.f, h, n.f)
    ensures n.log == Emit(Emit(s.log, Data(Field, h.name)), Data(Value, h.value))
  {
    hide Fold, Step, Reads, IsValue, Emit, LowerName, EndOfLine, StartsLine, Leads, IsLead, IsChunked, IsName, Named;
    NameNonempty(h.name);
    ReadNameSpace(cfg, s, h);
    var a, head := Named(s, h), h.name + ":" + Flat(h.leads);
    NamedIs(s, h);
    var o := ReadEncodingValue(cfg, a, h.value);
    ReadThen(cfg, s, head, a, h.value + "\r\n", o);
    assert LineText(h) == head + (h.value + "\r\n") by { assert FoldsText([]) == ""; }
    LeadsSettled(cfg, s, LineText(h), o, rest);
    n := Settled(o);
    EndOfLineState(o.f, HeaderFieldStart);
  }

  lemma ReadFrame(cfg: Config, s: Machine, h: Header, rest: string) returns (n: Machine)
    requires s.f.state.HeaderFieldStart? && StartsLine(rest) && !LastIs(s.log, Field)
    requires IsFrame(cfg, h) && !s.f.m.flags.contentLength
    ensures Leads(cfg, s, LineText(h), n, rest) && n.f.state.HeaderFieldStart? && FramedBy(s.f, h, n.f)
    ensures n.log == s.log + LineEvents([h]) && !LastIs(n.log, Field)
  {
    hide Fold, Leads, IsEncodingHeader, IsLengthHeader, StartsLine, Emit, LowerName, Decimal, LastIs;
    if IsLengthHeader(cfg, h) {
      n := ReadLengthFrame(cfg, s, h, rest);
    } else {
      n := ReadEncodingLine(cfg, s, h, rest);
    }
    FrameIs(cfg, h);
    H.TwoEvents(s.log, h.name, h.value);
    assert [h][1..] == [] && LineEvents([]) == [];
    assert LineEvents([h]) == [Data(Field, h.name), Data(Value, h.value)];
  }

  lemma FrameIs(cfg: Config, h: Header)
    requires IsFrame(cfg, h)
    ensures Whole(h) == h.value && IsName(h.name) && h.name != ""
  {
    assert Flat([]) == "";
    hide LowerName, IsValue, IsChunked, GoodLength;
  }

  lemma ReadLengthFrame(cfg: Config, s: Machine, h: Header, rest: string) returns (n: Machine)
    requires s.f.state.HeaderFieldStart? && StartsLine(rest) && IsLengthHeader(cfg, h) && !s.f.m.flags.contentLength
    ensures Leads(cfg, s, LineText(h), n, rest) && n.f.state.HeaderFieldStart? && FramedBy(s.f, h, n.f)
    ensures n.log == Emit(Emit(s.log, Data(Field, h.name)), Data(Value, h.value))
  {
    assert h.value != "" && h.name != "";
    hide Fold, Emit, Reads, Leads, LineText, LowerName, Decimal, IsName, NameRead, StartsLine;
    ReadLine(cfg, s, h, rest);
    ReadNameSpace(cfg, s, h);
    n := LineDone(s, h);
    assert Whole(h) == h.value by { assert Flat([]) == ""; }
  }

  // ----- the head -----

  /** A response: status line, headers around the framing one, and the body by its length or in chunks. */
  datatype Reply = Reply(code: string, reason: string, before: seq<Header>, frame: Header, after: seq<Header>,
      body: Payload)

  datatype Payload = Bytes(bytes: string) | Chunks(chunks: seq<Chunk>, last: Chunk, trailers: seq<Header>)

  function HeadersOf(r: Reply): seq<Header> { r.before + [r.frame] + r.after }

  function PayloadText(p: Payload): string {
    match p case Bytes(b) => b case Chunks(cs, last, trailers) => BodyText(cs, last, trailers)
  }

  function ReplyText(r: Reply): string {
    H.HeadText('1', '1', r.code, r.reason, HeadersOf(r)) + PayloadText(r.body)
  }

  function PayloadEvents(p: Payload): seq<Event> {
    match p
    case Bytes(b) => (if b == "" then [] else [Data(Body, b)]) + [Note(MessageComplete(true))]
    case Chunks(cs, _, trailers) => BodyEvents(cs, trailers, true)
  }

  function ReplyEvents(r: Reply): seq<Event> { H.HeadEvents(r.code, r.reason, HeadersOf(r)) + PayloadEvents(r.body) }

  /** The body bytes. */
  function Content(r: Reply): string {
    match r.body case Bytes(b) => b case Chunks(cs, _, _) => Flat(Pieces(cs))
  }

  /** The frame fits the body. */
  predicate Framed(cfg: Config, r: Reply) {
    match r.body
    case Bytes(b) => IsLengthHeader(cfg, r.frame) && Decimal(r.frame.value) == |b|
    case Chunks(cs, last, trailers) =>
      && IsEncodingHeader(cfg, r.frame) && (forall c :: c in cs ==> GoodChunk(c)) && GoodHead(last) && last.body == ""
      && AllPlain(cfg, trailers)
  }

  predicate IsReply(cfg: Config, r: Reply) {
    && cfg.answer.Continue? && H.IsCode(r.code) && H.IsReason(r.reason) && AllPlain(cfg, r.before)
      && AllPlain(cfg, r.after) && Framed(cfg, r)
  }

  lemma {:induction false} LinesConcat(a: seq<Header>, b: seq<Header>)
    ensures Lines(a + b) == Lines(a) + Lines(b) && LineEvents(a + b) == LineEvents(a) + LineEvents(b)
  {
    if a == [] {
      assert a + b == b;
    } else {
      assert (a + b)[0] == a[0] && (a + b)[1..] == a[1..] + b;
      hide LineText;
      LinesConcat(a[1..], b);
    }
  }

  lemma OneLine(h: Header)
    ensures Lines([h]) == LineText(h)
  {
    assert [h][1..] == [] && Lines([]) == "" && LineText(h) + "" == LineText(h);
    hide LineText;
  }

  /** The fields of an HTTP/1.1 response with this status, before its headers. */
  predicate Answering(f: Fields, code: string) {
    f.m == Message(Response, NO_FLAGS, 1, 1, Decimal(code), 0, false) && f.length == ULLONG_MAX
  }

  lemma StatusDone(code: string, reason: string)
    requires H.IsCode(code) && H.IsReason(reason)
    ensures var s := H.StatusRead(B.NEW_CLIENT, '1', '1', code, reason);
            && s.f.state.HeaderFieldStart? && Answering(s.f, code)
              && s.log == [Note(MessageBegin), Data(Status, reason)]
            && !LastIs(s.log, Field)
  {
    hide Decimal, H.IsCode, H.IsReason;
  }

  /** The head, up to its framing header. */
  lemma ReadBefore(cfg: Config, r: Reply, rest: string) returns (a: Machine, b: Machine)
    requires IsReply(cfg, r) && StartsLine(rest)
    ensures Reads(cfg, B.NEW_CLIENT, H.StatusLine('1', '1', r.code, r.reason), a)
        && Leads(cfg, a, Lines(r.before), b, rest)
    ensures b.f.state.HeaderFieldStart? && Answering(b.f, r.code) && !LastIs(b.log, Field)
    ensures b.log == [Note(MessageBegin), Data(Status, r.reason)] + LineEvents(r.before)
  {
    hide Fold, Reads, Leads, AllPlain, IsFrame, H.IsCode, H.IsReason, H.StatusRead, H.StatusLine, Lines, LineEvents,
      LastIs, StartsLine, Answering, IsReply;
    a := H.StatusRead(B.NEW_CLIENT, '1', '1', r.code, r.reason);
    FrameOf(cfg, r);
    H.ReadStatusLine(cfg, B.NEW_CLIENT, '1', '1', r.code, r.reason);
    StatusDone(r.code, r.reason);
    b := ReadLines(cfg, a, r.before, rest);
    PlainFields(a.f, b.f, r.code);
    NoField(r.reason, r.before);
  }

  /** The head, up to its empty line. */
  lemma ReadLinesOf(cfg: Config, r: Reply) returns (s: Machine)
    requires IsReply(cfg, r)
    ensures Leads(cfg, B.NEW_CLIENT, H.StatusLine('1', '1', r.code, r.reason) + Lines(HeadersOf(r)), s, "\r\n")
    ensures s.f.state.HeaderFieldStart?
        && s.log == [Note(MessageBegin), Data(Status, r.reason)] + LineEvents(HeadersOf(r))
    ensures exists f: Fields :: Answering(f, r.code) && FramedBy(f, r.frame, s.f)
  {
    hide Fold, Reads, Leads, AllPlain, IsFrame, H.StatusLine, Lines, LineEvents, LineText, LastIs, StartsLine, FramedBy,
      IsReply;
    FrameOf(cfg, r);
    TailStarts(cfg, r);
    var tail := Lines(r.after) + "\r\n";
    var a, b := ReadBefore(cfg, r, LineText(r.frame) + tail);
    var c := ReadFrame(cfg, b, r.frame, tail);
    s := ReadLines(cfg, c, r.after, "\r\n");
    FramedSame(b.f, r.frame, c.f, s.f);
    assert Answering(b.f, r.code) && FramedBy(b.f, r.frame, s.f);
    hide Answering;
    LinesJoin(r);
    JoinHead(cfg, r, a, b, c, s);
    assert s.log == [Note(MessageBegin), Data(Status, r.reason)] + LineEvents(HeadersOf(r));
  }

  lemma JoinHead(cfg: Config, r: Reply, a: Machine, b: Machine, c: Machine, s: Machine)
    requires Reads(cfg, B.NEW_CLIENT, H.StatusLine('1', '1', r.code, r.reason), a)
    requires Leads(cfg, a, Lines(r.before), b, LineText(r.frame) + (Lines(r.after) + "\r\n"))
    requires Leads(cfg, b, LineText(r.frame), c, Lines(r.after) + "\r\n") && Leads(cfg, c, Lines(r.after), s, "\r\n")
    ensures Leads(cfg, B.NEW_CLIENT, H.StatusLine('1', '1', r.code, r.reason) + Lines(HeadersOf(r)), s, "\r\n")
  {
    hide Fold, Reads, Leads, H.StatusLine, Lines, LineText;
    var (line, tail) := (H.StatusLine('1', '1', r.code, r.reason), Lines(r.after) + "\r\n");
    LinesJoin(r);
    ReadsLead(cfg, B.NEW_CLIENT, line, a, Lines(r.before) + (LineText(r.frame) + tail));
    LeadsThen(cfg, B.NEW_CLIENT, line, a, Lines(r.before), b, LineText(r.frame) + tail);
    LeadsThen(cfg, B.NEW_CLIENT, line + Lines(r.before), b, LineText(r.frame), c, tail);
    LeadsThen(cfg, B.NEW_CLIENT, line + Lines(r.before) + LineText(r.frame), c, Lines(r.after), s, "\r\n");
    assert line + Lines(r.before) + LineText(r.frame) + Lines(r.after) == line + Lines(HeadersOf(r));
  }

  lemma ReadsLead(cfg: Config, m: Machine, a: string, n: Machine, rest: string)
    requires Reads(cfg, m, a, n)
    ensures Leads(cfg, m, a, n, rest)
  {
    FoldConcat(cfg, m, a, rest);
    hide Fold;
  }

  lemma FrameOf(cfg: Config, r: Reply)
    requires IsReply(cfg, r)
    ensures IsFrame(cfg, r.frame) && AllPlain(cfg, r.before) && AllPlain(cfg, r.after) && H.IsCode(r.code)
        && H.IsReason(r.reason)
  {
    hide IsLengthHeader, IsEncodingHeader, AllPlain, GoodChunk, GoodHead;
  }

  lemma TailStarts(cfg: Config, r: Reply)
    requires IsReply(cfg, r)
    ensures StartsLine(Lines(r.after) + "\r\n") && StartsLine(LineText(r.frame) + (Lines(r.after) + "\r\n"))
    ensures StartsLine("\r\n")
  {
    FrameOf(cfg, r);
    FrameIs(cfg, r.frame);
    hide LineText, IsPlain, IsFrame, Framed, Lines, IsName;
    forall h | h in r.after ensures IsName(h.name) { assert IsPlain(cfg, h); PlainIsName(cfg, h); }
    LinesStart(r.after, "\r\n");
    LinesStart([r.frame], Lines(r.after) + "\r\n");
    OneLine(r.frame);
  }

  lemma PlainIsName(cfg: Config, h: Header)
    requires IsPlain(cfg, h)
    ensures IsName(h.name)
  {
  }

  lemma {:induction false} NoField(reason: string, hs: seq<Header>)
    ensures !LastIs([Note(MessageBegin), Data(Status, reason)] + LineEvents(hs), Field)
  {
    if hs == [] {
      assert [Note(MessageBegin), Data(Status, reason)] + [] == [Note(MessageBegin), Data(Status, reason)];
    } else {
      EventsEnd(hs);
    }
  }

  lemma {:induction false} EventsEnd(hs: seq<Header>)
    requires hs != []
    ensures LastIs(LineEvents(hs), Value)
  {
    if |hs| > 1 { EventsEnd(hs[1..]); }
  }

  lemma PlainFields(f: Fields, g: Fields, code: string)
    requires Answering(f, code) && g == f.(hstate := g.hstate, index := g.index)
    ensures Answering(g, code)
  {
  }

  lemma FramedSame(f: Fields, h: Header, g: Fields, g': Fields)
    requires FramedBy(f, h, g) && g' == g.(hstate := g'.hstate, index := g'.index)
    ensures FramedBy(f, h, g')
  {
  }

  lemma LinesJoin(r: Reply)
    ensures Lines(HeadersOf(r)) == Lines(r.before) + LineText(r.frame) + Lines(r.after)
    ensures LineEvents(HeadersOf(r)) == LineEvents(r.before) + LineEvents([r.frame]) + LineEvents(r.after)
  {
    LinesConcat(r.before + [r.frame], r.after);
    LinesConcat(r.before, [r.frame]);
    OneLine(r.frame);
    hide Lines, LineEvents, LineText;
  }

  // ----- the end of the head, and the body -----

  /** The message of a response that a length or chunks frame. */
  predicate Closing(f: Fields, code: string) {
    && f.m.(flags := NO_FLAGS) == Message(Response, NO_FLAGS, 1, 1, Decimal(code), 0, false)
    && (f.m.flags == NO_FLAGS.(contentLength := true) || f.m.flags == NO_FLAGS.(chunked := true))
  }

  lemma FrameCloses(f: Fields, h: Header, g: Fields, code: string)
    requires Answering(f, code) && FramedBy(f, h, g)
    ensures Closing(g, code) && (g.m.flags.chunked <==> LowerName(h.name) != CONTENT_LENGTH)
    ensures LowerName(h.name) == CONTENT_LENGTH ==> g.length == Decimal(h.value)
  {
    hide LowerName, Decimal;
  }

  lemma EndTransition(cfg: Config, f: Fields, code: string)
    requires Closing(f, code) && cfg.answer.Continue?
    ensures f.state.HeaderFieldStart? ==> Transition(cfg, f, '\r') == Do(f.(state := HeadersAlmostDone), [])
    ensures f.state.HeadersAlmostDone? && f.m.flags.chunked ==>
              Transition(cfg, f, '\n')
                == Out(f.(state := ChunkSizeStart), [Notify(HeadersComplete(Decimal(code)))], true, false)
    ensures f.state.HeadersAlmostDone? && !f.m.flags.chunked && 0 < f.length < ULLONG_MAX ==>
              Transition(cfg, f, '\n')
                == Out(f.(state := BodyIdentity), [Notify(HeadersComplete(Decimal(code)))], true, false)
    ensures f.state.HeadersAlmostDone? && !f.m.flags.chunked && f.length == 0 ==>
              Transition(cfg, f, '\n') == Out(f.(state := StartRes),
                [Notify(HeadersComplete(Decimal(code))), Notify(MessageComplete(true))], true, false)
  {
    hide Decimal;
    assert [Notify(HeadersComplete(Decimal(code)))] + [Notify(MessageComplete(true))]
        == [Notify(HeadersComplete(Decimal(code))), Notify(MessageComplete(true))];
    assert [Notify(HeadersComplete(Decimal(code)))] + [] == [Notify(HeadersComplete(Decimal(code)))];
  }

  /** The state after the empty line. */
  function Opened(f: Fields): Fields {
    f.(state := if f.m.flags.chunked then ChunkSizeStart else if f.length == 0 then StartRes else BodyIdentity)
  }

  function HeadDone(s: Machine, code: string): Machine {
    Machine(Opened(s.f), 0, s.log + [Note(HeadersComplete(Decimal(code)))]
                            + if Opened(s.f).state.StartRes? then [Note(MessageComplete(true))] else [])
  }

  lemma ReadEmptyLine(cfg: Config, s: Machine, code: string)
    requires s.f.state.HeaderFieldStart? && Closing(s.f, code) && cfg.answer.Continue?
        && (s.f.m.flags.chunked || s.f.length < ULLONG_MAX)
    ensures Reads(cfg, s, "\r\n", HeadDone(s, code))
  {
    hide Transition, Step, Reads, Decimal, Closing;
    var n := s.(f := s.f.(state := HeadersAlmostDone), nread := s.nread + 1);
    EndTransition(cfg, s.f, code);
    ClosingSame(s.f, n.f, code);
    EndTransition(cfg, n.f, code);
    Quiet(cfg, s, '\r', n.f);
    ReadByte(cfg, s, '\r', n);
    var o := HeadDone(s, code);
    if o.f.state.StartRes? {
      StepNotifyTwice(cfg, n, '\n', HeadersComplete(Decimal(code)), MessageComplete(true));
      assert o.log == n.log + [Note(HeadersComplete(Decimal(code))), Note(MessageComplete(true))];
    } else {
      StepNotify(cfg, n, '\n', HeadersComplete(Decimal(code)));
      assert o.log == n.log + [Note(HeadersComplete(Decimal(code)))];
    }
    assert Step(cfg, n, '\n') == Went(o, false);
    ReadBytes(cfg, s, "\r", n, '\n', o);
    assert "\r" + ['\n'] == "\r\n";
  }

  lemma ClosingSame(f: Fields, g: Fields, code: string)
    requires Closing(f, code) && g.m == f.m
    ensures Closing(g, code)
  {
  }

  lemma ClosingKeeps(f: Fields, code: string)
    requires Closing(f, code)
    ensures !f.m.upgrade
    ensures ShouldKeepAlive(BodyDone(f)) && NewMessage(BodyDone(f)) == StartRes
    ensures f.m.flags.chunked ==> ShouldKeepAlive(f) && NewMessage(f) == StartRes
  {
    hide Decimal;
  }

  /** What follows the headers. */
  lemma ReadPayload(cfg: Config, s: Machine, r: Reply) returns (n: Machine)
    requires IsReply(cfg, r) && s.f.state.HeaderFieldStart? && Closing(s.f, r.code)
    requires r.body.Bytes? ==> !s.f.m.flags.chunked && s.f.length == |r.body.bytes| < ULLONG_MAX
    requires r.body.Chunks? ==> s.f.m.flags.chunked
    ensures Reads(cfg, s, "\r\n" + PayloadText(r.body), n) && n.f.state.StartRes?
    ensures n.log == s.log + [Note(HeadersComplete(Decimal(r.code)))] + PayloadEvents(r.body)
  {
    hide Fold, Reads, Decimal, Closing, AllPlain, GoodChunk, GoodHead, BodyText, BodyEvents, IsLengthHeader,
      IsEncodingHeader;
    ReadEmptyLine(cfg, s, r.code);
    var h := HeadDone(s, r.code);
    ClosingSame(s.f, h.f, r.code);
    ClosingKeeps(h.f, r.code);
    match r.body {
      case Bytes(body) => n := ReadIdentity(cfg, s, r, h);
      case Chunks(cs, last, trailers) =>
        n := ReadChunked(cfg, h, cs, last, trailers);
        ReadThen(cfg, s, "\r\n", h, BodyText(cs, last, trailers), n);
        assert h.log == s.log + [Note(HeadersComplete(Decimal(r.code)))];
    }
  }

  lemma ReadIdentity(cfg: Config, s: Machine, r: Reply, h: Machine) returns (n: Machine)
    requires r.body.Bytes? && s.f.state.HeaderFieldStart? && !s.f.m.flags.chunked
        && s.f.length == |r.body.bytes| < ULLONG_MAX
    requires h == HeadDone(s, r.code) && Reads(cfg, s, "\r\n", h) && Closing(h.f, r.code)
    ensures Reads(cfg, s, "\r\n" + PayloadText(r.body), n) && n.f.state.StartRes?
    ensures n.log == s.log + [Note(HeadersComplete(Decimal(r.code)))] + PayloadEvents(r.body)
  {
    hide Fold, Reads, Decimal, Closing, Step, Emit;
    var body := r.body.bytes;
    ClosingKeeps(h.f, r.code);
    if body == "" {
      n := h;
      assert "\r\n" + "" == "\r\n";
      assert n.log == s.log + [Note(HeadersComplete(Decimal(r.code)))] + [Note(MessageComplete(true))];
      assert [] + [Note(MessageComplete(true))] == [Note(MessageComplete(true))];
    } else {
      var init := body[..|body| - 1];
      assert body == init + [body[|body| - 1]];
      assert h.log == s.log + [Note(HeadersComplete(Decimal(r.code)))];
      ReadInBody(cfg, h, init);
      LastByte(cfg, h, body);
      n := WholeRead(h, body);
      ReadBytes(cfg, h, init, PartRead(h, init), body[|body| - 1], n);
      ReadThen(cfg, s, "\r\n", h, body, n);
      assert n.log == s.log + [Note(HeadersComplete(Decimal(r.code)))] + PayloadEvents(r.body);
    }
  }

  // ----- whole responses -----

  lemma ReplyLength(cfg: Config, r: Reply)
    requires IsReply(cfg, r)
    ensures LowerName(r.frame.name) == if r.body.Bytes? then CONTENT_LENGTH else TRANSFER_ENCODING
    ensures r.body.Bytes? ==> Decimal(r.frame.value) == |r.body.bytes| < ULLONG_MAX
    ensures cfg.answer.Continue?
  {
    hide Decimal, LowerName, AllPlain, GoodChunk, GoodHead, IsLength, IsName, IsValue, IsChunked, H.IsCode, H.IsReason;
  }

  /** A response is read from its first byte to its last: the head's callbacks, the body's, and one message,
      completed by the last byte and no earlier. */
  lemma ReadReply(cfg: Config, r: Reply) returns (k: Machine, n: Machine)
    requires IsReply(cfg, r)
    ensures var text := ReplyText(r);
            && text != "" && Reads(cfg, B.NEW_CLIENT, text, n) && n.f.state.StartRes? && n.log == ReplyEvents(r)
            && Reads(cfg, B.NEW_CLIENT, text[..|text| - 1], k) && !k.f.state.StartRes?
              && Step(cfg, k, text[|text| - 1]) == Went(n, false)
  {
    hide Fold, Reads, Leads, Step, Decimal, IsReply, Lines, LineEvents, H.StatusLine, PayloadText, PayloadEvents,
      Closing, FramedBy, Answering,
      LowerName;
    var s := ReadLinesOf(cfg, r);
    var f: Fields :| Answering(f, r.code) && FramedBy(f, r.frame, s.f);
    FrameCloses(f, r.frame, s.f, r.code);
    ReplyLength(cfg, r);
    n := ReadPayload(cfg, s, r);
    var head := H.StatusLine('1', '1', r.code, r.reason) + Lines(HeadersOf(r));
    LeadsReach(cfg, B.NEW_CLIENT, head, s, PayloadText(r.body), n);
    assert ReplyText(r) == head + ("\r\n" + PayloadText(r.body));
    assert n.log == ReplyEvents(r);
    EndsInMessage(r);
    k := LastCompletes(cfg, B.NEW_CLIENT, ReplyText(r), n);
  }

  /** What leads to a line that starts with an empty line leads on to whatever follows that. */
  lemma LeadsReach(cfg: Config, m: Machine, head: string, s: Machine, rest: string, n: Machine)
    requires Leads(cfg, m, head, s, "\r\n") && Reads(cfg, s, "\r\n" + rest, n)
    ensures Reads(cfg, m, head + ("\r\n" + rest), n)
  {
    hide Fold;
    FoldConcat(cfg, m, head + "\r\n", rest);
    FoldConcat(cfg, s, "\r\n", rest);
    assert head + "\r\n" + rest == head + ("\r\n" + rest);
  }

  lemma EndsInMessage(r: Reply)
    ensures B.EndsMessage(ReplyEvents(r))
  {
    var (a, b) := (H.HeadEvents(r.code, r.reason, HeadersOf(r)), PayloadEvents(r.body));
    hide H.HeadEvents, ChunksEvents, LineEvents;
    assert (a + b)[|a + b| - 1] == b[|b| - 1];
  }

  /** Between messages every byte begins one, so the byte that ends one finds the parser inside it. */
  lemma LastCompletes(cfg: Config, m: Machine, text: string, n: Machine) returns (k: Machine)
    requires text != "" && Reads(cfg, m, text, n) && B.EndsMessage(n.log)
    ensures Reads(cfg, m, text[..|text| - 1], k) && !k.f.state.StartRes?
        && Step(cfg, k, text[|text| - 1]) == Went(n, false)
  {
    var (init, c) := (text[..|text| - 1], text[|text| - 1]);
    assert text == init + [c];
    FoldConcat(cfg, m, init, [c]);
    k := Fold(cfg, m, init, 0).m;
    LastStep(cfg, k, c);
    B.FoldAll(cfg, m, init);
    hide Fold, Step;
    if k.f.state.StartRes? { BeginsMessage(cfg, k, c); }
  }

  lemma LastStep(cfg: Config, k: Machine, c: char)
    ensures var r := Fold(cfg, k, [c], 0); r.end.Ran? ==> Step(cfg, k, c) == Went(r.m, false)
  {
    hide Step;
  }

  lemma BeginsMessage(cfg: Config, k: Machine, c: char)
    requires k.f.state.StartRes? && Step(cfg, k, c).Went?
    ensures Step(cfg, k, c).m.log == k.log + [Note(MessageBegin)]
  {
    var o := Transition(cfg, k.f, c);
    assert o.acts == [Notify(MessageBegin)] && !o.exit;
    StepNotify(cfg, k, c, MessageBegin);
    hide Transition, Step;
  }

  /** So whole responses are what the theorems on responses back to back are about. */
  lemma ReplyIsResponse(cfg: Config, r: Reply)
    requires IsReply(cfg, r)
    ensures ReplyText(r) != "" && B.IsResponses(cfg, ReplyText(r)) && B.Log(cfg, ReplyText(r)) == ReplyEvents(r)
  {
    hide Fold, IsReply, Step;
    var k, n := ReadReply(cfg, r);
    EndsInMessage(r);
  }

  /** Every body has such a response by its length, with any other headers around the length. */
  lemma BytesReply(cfg: Config, code: string, reason: string, before: seq<Header>, after: seq<Header>, body: string)
    requires cfg.answer.Continue? && H.IsCode(code) && H.IsReason(reason) && AllPlain(cfg, before)
        && AllPlain(cfg, after)
    requires |body| <= MAX_CONTENT_LENGTH
    ensures IsReply(cfg,
        Reply(code, reason, before, Printed("Content-Length", DecimalText(|body|)), after, Bytes(body)))
  {
    hide AllPlain, Decimal, DecimalText, IsLengthHeader, H.IsCode, H.IsReason;
    R.LengthHeader(cfg, body);
  }

  /** Every list of non-empty pieces has one in chunks. */
  lemma ChunksReply(cfg: Config, code: string, reason: string, before: seq<Header>, after: seq<Header>, ps: seq<string>)
    requires cfg.answer.Continue? && H.IsCode(code) && H.IsReason(reason) && AllPlain(cfg, before)
        && AllPlain(cfg, after)
    requires forall p :: p in ps ==> p != "" && |p| <= MAX_CHUNK
    ensures var r := Reply(code, reason, before, Printed("Transfer-Encoding", "chunked"), after,
        Chunks(EncodeAll(ps), Encode(""), []));
            IsReply(cfg, r) && Content(r) == Flat(ps)
  {
    hide AllPlain, GoodHead, GoodChunk, Encode, IsEncodingHeader, H.IsCode, H.IsReason, Flat;
    EncodeGood(ps);
    EncodingHeader(cfg);
    NoTrailers(cfg);
  }

  lemma NoTrailers(cfg: Config)
    ensures AllPlain(cfg, [])
  {
  }

  lemma EncodingHeader(cfg: Config)
    ensures IsEncodingHeader(cfg, Printed("Transfer-Encoding", "chunked"))
  {
    EncodingName();
    ChunkedValue(cfg);
    hide LowerName, IsChunked, IsName, IsValue;
  }

  lemma EncodingName()
    ensures IsName("Transfer-Encoding") && LowerName("Transfer-Encoding") == TRANSFER_ENCODING
  {
    var n := "Transfer-Encoding";
    R.LowerNameAt(n);
    hide LowerName;
    assert forall i :: 0 <= i < 17 ==> Token(n[i]) == TRANSFER_ENCODING[i];
    assert LowerName(n) == TRANSFER_ENCODING;
  }

  lemma ChunkedValue(cfg: Config)
    ensures IsChunked("chunked") && IsValue(cfg, "chunked")
  {
    var v := "chunked";
    assert v[..7] == v && v[7..] == "";
    assert LowerText(v) == CHUNKED;
  }

  // ----- many responses -----

  function Texts(rs: seq<Reply>): seq<string> { if rs == [] then [] else [ReplyText(rs[0])] + Texts(rs[1..]) }

  function AllEvents(rs: seq<Reply>): seq<Event> { if rs == [] then [] else ReplyEvents(rs[0]) + AllEvents(rs[1..]) }

  function Contents(rs: seq<Reply>): string { if rs == [] then "" else Content(rs[0]) + Contents(rs[1..]) }

  lemma {:induction false} RepliesAre(cfg: Config, rs: seq<Reply>)
    requires forall r :: r in rs ==> IsReply(cfg, r)
    ensures B.AllResponses(cfg, Texts(rs)) && B.Logs(cfg, Texts(rs)) == AllEvents(rs)
  {
    hide IsReply, B.IsResponses, B.Log, ReplyText, ReplyEvents;
    if rs != [] {
      assert rs[0] in rs && forall r :: r in rs[1..] ==> r in rs;
      ReplyIsResponse(cfg, rs[0]);
      RepliesAre(cfg, rs[1..]);
      var (t, rest) := (ReplyText(rs[0]), Texts(rs[1..]));
      assert Texts(rs) == [t] + rest && ([t] + rest)[1..] == rest;
    }
  }

  lemma PayloadDelivered(r: Reply)
    ensures Delivered(ReplyEvents(r)) == Content(r)
  {
    hide Flat, Pieces, LineEvents, BodyEvents, Decimal;
    var start: seq<Event> := [Note(MessageBegin), Data(Status, r.reason)];
    var end: seq<Event> := [Note(HeadersComplete(Decimal(r.code)))];
    Nothing2(start[0], start[1]);
    Nothing1(end[0]);
    LinesDelivered(HeadersOf(r));
    DeliveredConcat(start, LineEvents(HeadersOf(r)));
    DeliveredConcat(start + LineEvents(HeadersOf(r)), end);
    DeliveredConcat(start + LineEvents(HeadersOf(r)) + end, PayloadEvents(r.body));
    match r.body
    case Bytes(b) => BytesDelivered(b);
    case Chunks(cs, last, trailers) => BodyDelivered(cs, trailers, true);
  }

  lemma Nothing1(e: Event)
    requires e.Note? || e.kind != Body
    ensures Delivered([e]) == ""
  {
    assert [e][..0] == [] && Delivered([]) == "";
  }

  lemma Nothing2(a: Event, b: Event)
    requires (a.Note? || a.kind != Body) && (b.Note? || b.kind != Body)
    ensures Delivered([a, b]) == ""
  {
    assert [a, b] == [a] + [b];
    DeliveredConcat([a], [b]);
    Nothing1(a);
    Nothing1(b);
  }

  lemma BytesDelivered(b: string)
    ensures Delivered(PayloadEvents(Bytes(b))) == b
  {
    var done: seq<Event> := [Note(MessageComplete(true))];
    Nothing1(done[0]);
    var data: seq<Event> := if b == "" then [] else [Data(Body, b)];
    DeliveredConcat(data, done);
    assert Delivered([]) == "";
    if b != "" { assert [Data(Body, b)][..0] == [] && "" + b == b; }
  }

  lemma {:induction false} AllDelivered(rs: seq<Reply>)
    ensures Delivered(AllEvents(rs)) == Contents(rs)
  {
    hide Delivered, ReplyEvents, Content;
    if rs == [] {
      NothingDelivered();
    } else {
      PayloadDelivered(rs[0]);
      AllDelivered(rs[1..]);
      DeliveredConcat(ReplyEvents(rs[0]), AllEvents(rs[1..]));
    }
  }

  lemma NothingDelivered()
    ensures Delivered([]) == ""
  {
  }

  /** Responses one after the other on a new connection, framed by lengths or in chunks, cut into calls in
      any way: every head and every body arrives, in order, one message each.  The header limit does not
      get in the way as long as each head fits with the trailer before it and one byte for every call since
      the last reset, or both stay within half the limit, whatever the calls. */
  lemma RepliesAnySplit(cfg: Config, rs: seq<Reply>, pieces: seq<string>, b: Parser, exited: bool)
    requires forall r :: r in rs ==> IsReply(cfg, r)
    requires Flat(pieces) == Flat(Texts(rs)) && Fed(cfg, Parser(B.NEW_CLIENT, 0, Ok), pieces, b, exited)
    ensures B.EachFits(cfg, Texts(rs), 0, FedRoom(cfg, Parser(B.NEW_CLIENT, 0, Ok), pieces)) ==> b.errno.Ok?
    ensures B.EachFits(cfg, Texts(rs), 0, HTTP_MAX_HEADER_SIZE / 2) ==> b.errno.Ok?
    ensures !b.errno.HeaderOverflow? ==>
              b.errno.Ok? && !exited && b.m.log == AllEvents(rs) && Delivered(b.m.log) == Contents(rs)
  {
    hide Fed, IsReply, B.EachFits, B.Logs, B.AllResponses, Texts, AllEvents, Contents, Delivered, FedRoom;
    RepliesAre(cfg, rs);
    AllDelivered(rs);
    B.ResponsesAnySplit(cfg, Parser(B.NEW_CLIENT, 0, Ok), Texts(rs), pieces, b, exited);
  }
}
