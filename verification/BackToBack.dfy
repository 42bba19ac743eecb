/** Messages one after the other on a connection: what a finished message leaves in the parser
    does not show in the next one. */
module BackToBack {
  import opened Chars
  import opened Numbers
  import opened ParserState
  import opened UrlChar
  import opened ByteTransition
  import opened StepMachine
  import opened ParserInvariant
  import opened LogInvariant
  import opened Runs
  import opened Calls
  import opened Stepping
  import opened Reading

  // ----- the fields that still matter -----

  /** How much of a status line has been read. */
  function StatusRank(s: State): nat {
    if s.StartRes? then 0
    else if s.ResH? || s.ResHT? || s.ResHTT? || s.ResHTTP? || s.ResHttpMajor? then 1
    else if s.ResHttpDot? || s.ResHttpMinor? then 2
    else if s.ResHttpEnd? || s.ResFirstStatusCode? then 3
    else 4
  }

  /** States in which the matchers of header lines are at work. */
  predicate Matching(s: State) {
    IsHeaderState(s) && !s.HeaderFieldStart? && !s.HeadersAlmostDone? && !s.HeadersDone?
  }

  function MaskMessage(m: Message, s: State): Message {
    Message(m.kind,
            if StatusRank(s) < 1 then NO_FLAGS else m.flags,
            if StatusRank(s) < 2 then 0 else m.major,
            if StatusRank(s) < 3 then 0 else m.minor,
            if StatusRank(s) < 4 then 0 else m.statusCode,
            m.verb,
            m.upgrade && (IsBodyState(s) || s.HeadersDone? || (StatusRank(s) >= 1 && m.flags.trailing)))
  }

  /** The fields with everything blanked that is written before it is read again. */
  function Mask(f: Fields): Fields {
    Fields(f.state,
           if Matching(f.state) then f.hstate else General,
           if Matching(f.state) then f.index else 0,
           if StatusRank(f.state) < 1 then 0 else f.length,
           MaskMessage(f.m, f.state))
  }

  function MaskOut(o: Outcome): Outcome {
    match o case Fail(_) => o case Out(f, acts, reset, exit) => Out(Mask(f), acts, reset, exit)
  }

  predicate IsResponseState(s: State) { s.Dead? || IsHeaderState(s) || IsBodyState(s) || IsStatusState(s) }

  predicate Responding(f: Fields) { f.m.kind.Response? && IsResponseState(f.state) }

  /** A step does not read the blanked fields. */
  predicate Blind(o: Outcome, o': Outcome) {
    && MaskOut(o) == MaskOut(o')
    && (o.Out? ==> Responding(o.f) && (o.f.state.ChunkSizeStart? ==> o.reset))
  }

  lemma CompletedBlind(f: Fields, g: Fields, reset: bool, exit: bool)
    requires f.m.kind.Response? && Mask(f).(state := MessageDone) == Mask(g).(state := MessageDone)
        && StatusRank(f.state) == 4
    requires f.state == g.state
    ensures Blind(Completed(f, reset, exit), Completed(g, reset, exit))
  {
  }

  lemma ProtocolBlind(f: Fields, ch: char)
    requires f.m.kind.Response? && (f.state.ResH? || f.state.ResHT?)
    ensures Blind(StatusStep(f, ch), StatusStep(Mask(f), ch))
  {
  }

  lemma ProtocolEndBlind(f: Fields, ch: char)
    requires f.m.kind.Response? && (f.state.ResHTT? || f.state.ResHTTP?)
    ensures Blind(StatusStep(f, ch), StatusStep(Mask(f), ch))
  {
  }

  lemma MajorBlind(f: Fields, ch: char)
    requires f.m.kind.Response? && (f.state.ResHttpMajor? || f.state.ResHttpDot?)
    ensures Blind(StatusStep(f, ch), StatusStep(Mask(f), ch))
  {
  }

  lemma MinorBlind(f: Fields, ch: char)
    requires f.m.kind.Response? && (f.state.ResHttpMinor? || f.state.ResHttpEnd?)
    ensures Blind(StatusStep(f, ch), StatusStep(Mask(f), ch))
  {
  }

  lemma StartBlind(f: Fields, ch: char)
    requires f.m.kind.Response? && (f.state.StartRes? || f.state.ResFirstStatusCode?)
    ensures Blind(StatusStep(f, ch), StatusStep(Mask(f), ch))
  {
  }

  lemma ReasonTo(f: Fields, g: Fields, s: State, acts: seq<Act>)
    requires f.m.kind.Response? && f.state.ResStatusStart? && Mask(f) == Mask(g)
    requires s.ResStatus? || s.ResLineAlmostDone? || s.HeaderFieldStart?
    ensures Blind(Do(f.(state := s, index := 0), acts), Do(g.(state := s, index := 0), acts))
  {
  }

  lemma ReasonBlind(f: Fields, g: Fields, ch: char)
    requires f.m.kind.Response? && f.state.ResStatusStart? && Mask(f) == Mask(g)
    ensures Blind(ResStatusStartStep(f, ch), ResStatusStartStep(g, ch))
  {
    hide Blind, Mask;
    ReasonTo(f, g, ResStatus, [Mark(Status)]);
    ReasonTo(f, g, ResLineAlmostDone, [Mark(Status), Flush(Status, false)]);
    ReasonTo(f, g, HeaderFieldStart, [Mark(Status), Flush(Status, false)]);
  }

  lemma StartReasonBlind(f: Fields, ch: char)
    requires f.m.kind.Response? && f.state.ResStatusStart?
    ensures Blind(StatusStep(f, ch), StatusStep(Mask(f), ch))
  {
    ReasonBlind(f, Mask(f), ch);
    hide ResStatusStartStep;
  }

  lemma CodeBlind(f: Fields, ch: char)
    requires f.m.kind.Response? && f.state.ResStatusCode?
    ensures Blind(StatusStep(f, ch), StatusStep(Mask(f), ch))
  {
    ReasonBlind(f.(state := ResStatusStart), Mask(f).(state := ResStatusStart), ch);
    hide ResStatusStartStep;
  }

  lemma ReasonTextBlind(f: Fields, ch: char)
    requires f.m.kind.Response? && f.state.ResStatus?
    ensures Blind(StatusStep(f, ch), StatusStep(Mask(f), ch))
  {
  }

  lemma StatusEndBlind(f: Fields, ch: char)
    requires f.m.kind.Response? && f.state.ResLineAlmostDone?
    ensures Blind(StatusStep(f, ch), StatusStep(Mask(f), ch))
  {
  }

  lemma StatusBlind(f: Fields, ch: char)
    requires Responding(f) && IsStatusState(f.state)
    ensures Blind(StatusStep(f, ch), StatusStep(Mask(f), ch))
  {
    hide StatusStep, Blind, Mask;
    if f.state.ResH? || f.state.ResHT? { ProtocolBlind(f, ch); }
    else if f.state.ResHTT? || f.state.ResHTTP? { ProtocolEndBlind(f, ch); }
    else if f.state.StartRes? || f.state.ResFirstStatusCode? { StartBlind(f, ch); }
    else if f.state.ResStatusCode? { CodeBlind(f, ch); }
    else if f.state.ResStatusStart? { StartReasonBlind(f, ch); }
    else if f.state.ResStatus? { ReasonTextBlind(f, ch); }
    else if f.state.ResLineAlmostDone? { StatusEndBlind(f, ch); }
    else if f.state.ResHttpMajor? || f.state.ResHttpDot? { MajorBlind(f, ch); }
    else { MinorBlind(f, ch); }
  }

  /** The head's end, before a body of one kind or another. */
  lemma BodyAhead(f: Fields, g: Fields, s: State)
    requires f.m.kind.Response? && f.state == g.state && f.m == g.m && f.length == g.length
    requires s.ChunkSizeStart? || s.BodyIdentity? || s.BodyIdentityEof?
    ensures Blind(Out(f.(state := s), [], true, false), Out(g.(state := s), [], true, false))
  {
  }

  lemma SameBehind(f: Fields, g: Fields)
    requires f.state.HeadersDone? && g.state.HeadersDone? && f.m == g.m && f.length == g.length
    ensures Mask(f).(state := MessageDone) == Mask(g).(state := MessageDone) && StatusRank(f.state) == 4
  {
  }

  lemma HeadersDoneBlind(f: Fields, g: Fields, ch: char)
    requires f.m.kind.Response? && f.state.HeadersDone? && g.state.HeadersDone? && f.m == g.m && f.length == g.length
    ensures Blind(HeadersDoneStep(f, ch), HeadersDoneStep(g, ch))
  {
    SameBehind(f, g);
    hide Mask, StatusRank, Completed;
    CompletedBlind(f, g, true, true);
    CompletedBlind(f, g, true, false);
    BodyAhead(f, g, ChunkSizeStart);
    BodyAhead(f, g, BodyIdentity);
    BodyAhead(f, g, BodyIdentityEof);
    assert ch != '\n' ==> Blind(HeadersDoneStep(f, ch), HeadersDoneStep(g, ch));
    hide Blind;
  }

  lemma AfterBlind(acts: seq<Act>, o: Outcome, o': Outcome)
    requires Blind(o, o')
    ensures Blind(After(acts, o), After(acts, o'))
  {
    hide Mask;
  }

  /** Equal fields, but for those that a new header line writes. */
  predicate Close(f: Fields, g: Fields) {
    && f.state == g.state && f.length == g.length && f.m.(upgrade := g.m.upgrade) == g.m
    && (f.m.flags.trailing ==> f.m.upgrade == g.m.upgrade)
  }

  lemma HeadersAlmostDoneBlind(cfg: Config, f: Fields, g: Fields, ch: char)
    requires f.m.kind.Response? && f.state.HeadersAlmostDone? && Close(f, g)
    ensures Blind(HeadersAlmostDoneStep(cfg, f, ch), HeadersAlmostDoneStep(cfg, g, ch))
  {
    hide HeadersDoneStep, Completed, After, MaskMessage;
    var f', g' := f.(state := HeadersDone, m := Answered(f.m, cfg.answer)),
      g.(state := HeadersDone, m := Answered(g.m, cfg.answer));
    HeadersDoneBlind(f', g', ch);
    AfterBlind([Notify(HeadersComplete(f.m.statusCode))], HeadersDoneStep(f', ch), HeadersDoneStep(g', ch));
    if f.m.flags.trailing {
      CompletedBlind(f.(state := MessageDone), g.(state := MessageDone), false, f.m.upgrade);
      AfterBlind([Notify(ChunkComplete)], MessageDoneStep(f.(state := MessageDone)),
        MessageDoneStep(g.(state := MessageDone)));
    }
  }

  lemma FieldStartBlind(cfg: Config, f: Fields, g: Fields, ch: char)
    requires f.m.kind.Response? && f.state.HeaderFieldStart? && Close(f, g)
    ensures Blind(HeaderFieldStartStep(cfg, f, ch), HeaderFieldStartStep(cfg, g, ch))
  {
    hide HeadersAlmostDoneStep, FieldStartState, Token;
    HeadersAlmostDoneBlind(cfg, f.(state := HeadersAlmostDone), g.(state := HeadersAlmostDone), ch);
  }

  /** Equal fields in the middle of a header line. */
  predicate Closer(f: Fields, g: Fields) { Close(f, g) && f.hstate == g.hstate && f.index == g.index }

  lemma EndOfLineClose(f: Fields, g: Fields)
    requires Closer(f, g)
    ensures Close(EndOfLine(f).(state := HeaderFieldStart), EndOfLine(g).(state := HeaderFieldStart))
    ensures EndOfLine(f).m.kind == f.m.kind
  {
  }

  lemma ValueStartBlind(f: Fields, g: Fields, ch: char)
    requires f.m.kind.Response? && IsHeaderState(f.state) && Closer(f, g)
    ensures Blind(HeaderValueStartStep(f, ch), HeaderValueStartStep(g, ch))
  {
  }

  lemma DiscardBlind(f: Fields, g: Fields, ch: char)
    requires f.m.kind.Response? && f.state.HeaderValueDiscardWs? && Closer(f, g)
    ensures Blind(HeaderValueDiscardWsStep(f, ch), HeaderValueDiscardWsStep(g, ch))
  {
    hide HeaderValueStartStep;
    ValueStartBlind(f, g, ch);
  }

  lemma LwsBlind(cfg: Config, f: Fields, g: Fields, ch: char)
    requires f.m.kind.Response? && IsHeaderState(f.state) && Closer(f, g)
    ensures Blind(HeaderValueLwsStep(cfg, f, ch), HeaderValueLwsStep(cfg, g, ch))
    ensures Blind(HeaderValueDiscardLwsStep(cfg, f, ch), HeaderValueDiscardLwsStep(cfg, g, ch))
  {
    hide HeaderFieldStartStep, HeaderValueStartStep, EndOfLine, After;
    var f', g' := EndOfLine(f).(state := HeaderFieldStart), EndOfLine(g).(state := HeaderFieldStart);
    EndOfLineClose(f, g);
    FieldStartBlind(cfg, f', g', ch);
    AfterBlind([Mark(Value), Flush(Value, false)], HeaderFieldStartStep(cfg, f', ch),
      HeaderFieldStartStep(cfg, g', ch));
    ValueStartBlind(f.(state := HeaderValueStart), g.(state := HeaderValueStart), ch);
  }

  lemma WordBlind(f: Fields, g: Fields, ch: char)
    requires f.m.kind.Response? && f.state.HeaderValue? && Closer(f, g)
    ensures Blind(Do(AfterConnectionWord(f, ch), []), Do(AfterConnectionWord(g, ch), []))
  {
  }

  lemma DigitBlind(f: Fields, g: Fields, ch: char)
    requires f.m.kind.Response? && f.state.HeaderValue? && Closer(f, g)
    ensures Blind(LengthDigit(f, ch), LengthDigit(g, ch))
  {
  }

  lemma ValueCharBlind(f: Fields, g: Fields, ch: char)
    requires f.m.kind.Response? && f.state.HeaderValue? && Closer(f, g)
    ensures Blind(ValueChar(f, ch), ValueChar(g, ch))
  {
    hide ValueMatch, AfterConnectionWord, LengthDigit;
    WordBlind(f, g, ch);
    DigitBlind(f, g, ch);
  }

  lemma ValueBlind(cfg: Config, f: Fields, g: Fields, ch: char)
    requires f.m.kind.Response? && f.state.HeaderValue? && Closer(f, g)
    ensures Blind(HeaderValueStep(cfg, f, ch), HeaderValueStep(cfg, g, ch))
  {
    hide ValueChar;
    ValueCharBlind(f, g, ch);
  }

  lemma MaskClose(f: Fields)
    requires f.m.kind.Response? && IsHeaderState(f.state)
    ensures Matching(f.state) ==> Closer(f, Mask(f))
    ensures f.state.HeadersDone? ==> f.m == Mask(f).m
    ensures Close(f, Mask(f)) && (f.state.HeaderFieldStart? || f.state.HeadersAlmostDone? ==> Mask(f).state == f.state)
  {
  }

  lemma FieldBlind(f: Fields, g: Fields, ch: char)
    requires f.m.kind.Response? && Closer(f, g) && f.state.HeaderField?
    ensures Blind(HeaderFieldStep(f, ch), HeaderFieldStep(g, ch))
  {
    hide FieldChar, Token;
  }

  lemma AlmostBlind(cfg: Config, f: Fields, g: Fields, ch: char)
    requires f.m.kind.Response? && Closer(f, g)
        && (f.state.HeaderValueDiscardWsAlmostDone? || f.state.HeaderAlmostDone?)
    ensures Blind(HeaderStep(cfg, f, ch), HeaderStep(cfg, g, ch))
  {
  }

  lemma NameBlind(cfg: Config, f: Fields, g: Fields, ch: char)
    requires f.m.kind.Response? && Closer(f, g)
    requires f.state.HeaderField? || f.state.HeaderValueDiscardWsAlmostDone? || f.state.HeaderAlmostDone?
    ensures Blind(HeaderStep(cfg, f, ch), HeaderStep(cfg, g, ch))
  {
    hide Blind, HeaderFieldStep;
    if f.state.HeaderField? { FieldBlind(f, g, ch); } else { AlmostBlind(cfg, f, g, ch); }
  }

  lemma LineBlind(cfg: Config, f: Fields, g: Fields, ch: char)
    requires f.m.kind.Response? && Matching(f.state) && Closer(f, g)
    ensures Blind(HeaderStep(cfg, f, ch), HeaderStep(cfg, g, ch))
  {
    hide Blind, Mask, HeaderFieldStep, HeaderAlmostDoneStep, HeaderValueLwsStep, HeaderValueDiscardLwsStep,
      HeaderValueStartStep, HeaderValueStep, HeaderValueDiscardWsStep;
    assert f.state == g.state;
    hide Closer;
    match f.state {
      case HeaderValueLws => LwsBlind(cfg, f, g, ch);
      case HeaderValueDiscardLws => LwsBlind(cfg, f, g, ch);
      case HeaderValueStart => ValueStartBlind(f, g, ch);
      case HeaderValueDiscardWs => DiscardBlind(f, g, ch);
      case HeaderValue => ValueBlind(cfg, f, g, ch);
      case _ => NameBlind(cfg, f, g, ch);
    }
  }

  lemma HeaderBlind(cfg: Config, f: Fields, ch: char)
    requires Responding(f) && IsHeaderState(f.state)
    ensures Blind(HeaderStep(cfg, f, ch), HeaderStep(cfg, Mask(f), ch))
  {
    hide Blind, Mask, HeaderFieldStartStep, HeadersAlmostDoneStep, HeadersDoneStep;
    var g := Mask(f);
    MaskClose(f);
    if f.state.HeaderFieldStart? { FieldStartBlind(cfg, f, g, ch); }
    else if f.state.HeadersAlmostDone? { HeadersAlmostDoneBlind(cfg, f, g, ch); }
    else if f.state.HeadersDone? { HeadersDoneBlind(f, g, ch); }
    else { LineBlind(cfg, f, g, ch); hide HeaderStep; }
  }

  lemma LastByteBlind(f: Fields, g: Fields)
    requires f.m.kind.Response? && f.state.BodyIdentity? && g.state.BodyIdentity? && f.m == g.m && f.length == g.length
    ensures Blind(BodyIdentityStep(f), BodyIdentityStep(g))
  {
    hide Completed, After;
    var f', g' := f.(state := MessageDone, length := 0), g.(state := MessageDone, length := 0);
    CompletedBlind(f', g', false, f.m.upgrade);
    AfterBlind([Mark(Body), Flush(Body, true)], Completed(f', false, f.m.upgrade), Completed(g', false, f.m.upgrade));
  }

  lemma IdentityBlind(f: Fields, ch: char)
    requires Responding(f) && (f.state.BodyIdentity? || f.state.BodyIdentityEof? || f.state.MessageDone?)
    ensures Blind(BodyStep(f, ch), BodyStep(Mask(f), ch))
  {
    var g := Mask(f);
    assert f.m == g.m && f.length == g.length && f.state == g.state;
    if f.state.BodyIdentity? { LastByteBlind(f, g); }
    else if f.state.MessageDone? { CompletedBlind(f, g, false, f.m.upgrade); }
    hide Completed, BodyIdentityStep, ChunkStep;
  }

  lemma SizeBlind(f: Fields, ch: char)
    requires f.m.kind.Response? && (f.state.ChunkSizeStart? || f.state.ChunkSize? || f.state.ChunkParameters?)
    ensures Blind(ChunkStep(f, ch), ChunkStep(Mask(f), ch))
  {
    hide Unhex;
  }

  lemma ChunkBlind(f: Fields, ch: char)
    requires f.m.kind.Response? && IsBodyState(f.state) && !f.state.BodyIdentity? && !f.state.BodyIdentityEof?
        && !f.state.MessageDone?
    ensures Blind(ChunkStep(f, ch), ChunkStep(Mask(f), ch))
  {
    hide ChunkSizeStep, Unhex;
    if f.state.ChunkSizeStart? || f.state.ChunkSize? || f.state.ChunkParameters? { SizeBlind(f, ch); }
  }

  lemma BodyBlind(f: Fields, ch: char)
    requires Responding(f) && IsBodyState(f.state)
    ensures Blind(BodyStep(f, ch), BodyStep(Mask(f), ch))
  {
    if f.state.BodyIdentity? || f.state.BodyIdentityEof? || f.state.MessageDone? {
      IdentityBlind(f, ch);
    } else {
      ChunkBlind(f, ch);
    }
    hide ChunkStep, BodyIdentityStep, MessageDoneStep;
  }

  /** No byte makes the parser read a blanked field. */
  lemma TransitionBlind(cfg: Config, f: Fields, ch: char)
    requires Responding(f)
    ensures Blind(Transition(cfg, f, ch), Transition(cfg, Mask(f), ch))
  {
    if IsHeaderState(f.state) { HeaderBlind(cfg, f, ch); }
    else if IsBodyState(f.state) { BodyBlind(f, ch); }
    else if IsStatusState(f.state) { StatusBlind(f, ch); }
    hide HeaderStep, BodyStep, StatusStep;
  }

  // ----- logs behind an earlier log -----

  /** Nothing joins onto this log. */
  predicate Closed(log: seq<Event>) { log == [] || log[|log| - 1].Note? }

  lemma EmitBehind(pre: seq<Event>, log: seq<Event>, e: Event)
    requires Closed(pre)
    ensures Emit(pre + log, e) == pre + Emit(log, e)
  {
    if log == [] {
      assert pre + log == pre;
    } else {
      assert (pre + log)[|pre + log| - 1] == log[|log| - 1];
      assert (pre + log)[..|pre + log| - 1] == pre + log[..|log| - 1];
    }
  }

  lemma FlushBehind(k: Kind, marks: Marks, pre: seq<Event>, log: seq<Event>, data: string, end: nat)
    requires Closed(pre) && InBuffer(marks, end) && end <= |data|
    ensures var a, b := FlushMark(k, marks, pre + log, data, end), FlushMark(k, marks, log, data, end);
            a == (b.0, pre + b.1)
  {
    if k in marks { EmitBehind(pre, log, Data(k, data[marks[k]..end])); }
    hide Emit;
  }

  lemma {:induction false} PerformBehind(acts: seq<Act>, marks: Marks, pre: seq<Event>, log: seq<Event>, data: string,
      p: nat)
    requires Closed(pre) && InBuffer(marks, p) && p < |data|
    ensures var a, b := Perform(acts, marks, pre + log, data, p), Perform(acts, marks, log, data, p);
            a == (b.0, pre + b.1)
  {
    hide Emit, FlushMark;
    if acts != [] {
      match acts[0] {
        case Mark(k) =>
        case Flush(k, whole) => FlushBehind(k, marks, pre, log, data, if whole then p + 1 else p);
        case Notify(n) => EmitBehind(pre, log, Note(n));
      }
      var (m, l) := PerformOne(acts[0], marks, log, data, p);
      PerformBehind(acts[1..], m, pre, l, data, p);
    }
  }

  lemma LeftoverBehind(marks: Marks, pre: seq<Event>, log: seq<Event>, data: string)
    requires Closed(pre) && InBuffer(marks, |data|)
    ensures Leftover(marks, pre + log, data) == pre + Leftover(marks, log, data)
  {
    var a := FlushMark(Field, marks, log, data, |data|);
    FlushBehind(Field, marks, pre, log, data, |data|);
    var b := FlushMark(Value, a.0, a.1, data, |data|);
    FlushBehind(Value, a.0, pre, a.1, data, |data|);
    var c := FlushMark(Url, b.0, b.1, data, |data|);
    FlushBehind(Url, b.0, pre, b.1, data, |data|);
    var d := FlushMark(Body, c.0, c.1, data, |data|);
    FlushBehind(Body, c.0, pre, c.1, data, |data|);
    FlushBehind(Status, d.0, pre, d.1, data, |data|);
    hide FlushMark;
  }

  // ----- a used parser against a fresh one -----

  /** The head of the first message is not over. */
  predicate Early(f: Fields) {
    || (IsStatusState(f.state) && (f.state.StartRes? || !f.m.flags.trailing))
    || (IsHeaderState(f.state) && !f.m.flags.trailing && !f.state.HeadersDone?)
  }

  predicate NoneComplete(log: seq<Event>) { forall e :: e in log && e.Note? ==> !e.note.MessageComplete? }

  predicate NoComplete(acts: seq<Act>) { forall a :: a in acts && a.Notify? ==> !a.note.MessageComplete? }

  /** A message is complete only once the counter was zeroed at the end of its head. */
  predicate EarlyOut(o: Outcome) { o.Out? && !o.reset ==> Early(o.f) && NoComplete(o.acts) }

  lemma EarlyHeadEnd(cfg: Config, f: Fields, ch: char)
    requires !f.m.flags.trailing
    ensures EarlyOut(HeadersAlmostDoneStep(cfg, f, ch))
  {
  }

  lemma EarlyFieldStart(cfg: Config, f: Fields, ch: char)
    requires !f.m.flags.trailing
    ensures EarlyOut(HeaderFieldStartStep(cfg, f, ch))
  {
    EarlyHeadEnd(cfg, f.(state := HeadersAlmostDone), ch);
    hide HeadersAlmostDoneStep, FieldStartState, Token;
  }

  lemma EarlyLws(cfg: Config, f: Fields, ch: char)
    requires !f.m.flags.trailing && !f.state.HeadersDone?
    ensures f.state.HeaderValueLws? ==> EarlyOut(HeaderValueLwsStep(cfg, f, ch))
    ensures f.state.HeaderValueDiscardLws? ==> EarlyOut(HeaderValueDiscardLwsStep(cfg, f, ch))
  {
    var g := EndOfLine(f).(state := HeaderFieldStart);
    assert !g.m.flags.trailing;
    EarlyFieldStart(cfg, g, ch);
    EarlyValueStart(f.(state := HeaderValueStart), ch);
    hide HeaderFieldStartStep, EndOfLine, HeaderValueStartStep;
  }

  lemma EarlyValueStart(f: Fields, ch: char)
    requires !f.m.flags.trailing
    ensures EarlyOut(HeaderValueStartStep(f, ch))
  {
  }

  lemma EarlyValue(cfg: Config, f: Fields, ch: char)
    requires f.state.HeaderValue? && !f.m.flags.trailing
    ensures EarlyOut(HeaderValueStep(cfg, f, ch))
  {
    hide ValueMatch;
  }

  lemma EarlyRest(cfg: Config, f: Fields, ch: char)
    requires Matching(f.state) && !f.m.flags.trailing && !f.state.HeaderValue? && !f.state.HeaderValueLws?
        && !f.state.HeaderValueDiscardLws?
    ensures EarlyOut(HeaderStep(cfg, f, ch))
  {
    EarlyValueStart(f, ch);
    hide HeaderValueStartStep, FieldChar, HeaderFieldStartStep, HeadersAlmostDoneStep, HeaderValueLwsStep,
      HeaderValueDiscardLwsStep, HeaderValueStep, HeadersDoneStep;
  }

  lemma EarlyHeader(cfg: Config, f: Fields, ch: char)
    requires IsHeaderState(f.state) && Early(f)
    ensures EarlyOut(HeaderStep(cfg, f, ch))
  {
    hide EarlyOut;
    if f.state.HeaderFieldStart? { EarlyFieldStart(cfg, f, ch); }
    else if f.state.HeadersAlmostDone? { EarlyHeadEnd(cfg, f, ch); }
    else if f.state.HeaderValueLws? || f.state.HeaderValueDiscardLws? { EarlyLws(cfg, f, ch); }
    else if f.state.HeaderValue? { EarlyValue(cfg, f, ch); }
    else { EarlyRest(cfg, f, ch); hide HeaderStep; }
    hide HeaderFieldStartStep, HeadersAlmostDoneStep, HeaderValueLwsStep, HeaderValueDiscardLwsStep, HeaderValueStep;
  }

  lemma EarlyStatus(f: Fields, ch: char)
    requires IsStatusState(f.state) && (f.state.StartRes? || !f.m.flags.trailing)
    ensures EarlyOut(StatusStep(f, ch))
  {
  }

  lemma EarlyTransition(cfg: Config, f: Fields, ch: char)
    requires Early(f)
    ensures EarlyOut(Transition(cfg, f, ch))
  {
    if IsHeaderState(f.state) { EarlyHeader(cfg, f, ch); } else { EarlyStatus(f, ch); }
    hide HeaderStep, StatusStep;
  }

  /** `n` reads response bytes as `m` does, behind the log `pre`; its header counter is ahead by
      `extra` until the head is over. */
  predicate Shadows(m: Machine, n: Machine, pre: seq<Event>, extra: nat) {
    && Responding(m.f) && Mask(n.f) == Mask(m.f) && n.log == pre + m.log
    && (m.f.state.ChunkSizeStart? ==> m.nread == n.nread == 0)
    && (n.nread == m.nread || (n.nread == m.nread + extra && Early(m.f) && NoneComplete(m.log)))
  }

  predicate StepShadows(a: Stepped, b: Stepped, pre: seq<Event>, extra: nat) {
    match a
    case Stuck(e) => b == Stuck(e)
    case Went(m, exit) => b.Went? && b.exit == exit && Shadows(m, b.m, pre, extra)
  }

  lemma OutcomesAgree(cfg: Config, m: Machine, n: Machine, ch: char)
    requires Responding(m.f) && Mask(n.f) == Mask(m.f)
    ensures m.f.state == n.f.state
    ensures Blind(Transition(cfg, m.f, ch), Transition(cfg, n.f, ch))
  {
    TransitionBlind(cfg, m.f, ch);
    TransitionBlind(cfg, n.f, ch) by { assert m.f.state == n.f.state && m.f.m.kind == n.f.m.kind; }
    hide Transition;
  }

  lemma EmitNone(log: seq<Event>, e: Event)
    requires NoneComplete(log) && (e.Note? ==> !e.note.MessageComplete?)
    ensures NoneComplete(Emit(log, e))
  {
  }

  lemma {:induction false} PerformNone(acts: seq<Act>, marks: Marks, log: seq<Event>, data: string, p: nat)
    requires NoComplete(acts) && NoneComplete(log) && InBuffer(marks, p) && p < |data|
    ensures NoneComplete(Perform(acts, marks, log, data, p).1)
  {
    hide Emit, NoneComplete;
    if acts != [] {
      assert acts[0] in acts;
      match acts[0] {
        case Mark(k) =>
        case Flush(k, whole) => FlushNone(k, marks, log, data, if whole then p + 1 else p);
        case Notify(n) => EmitNone(log, Note(n));
      }
      var (m, l) := PerformOne(acts[0], marks, log, data, p);
      forall a | a in acts[1..] && a.Notify? ensures !a.note.MessageComplete? { assert a in acts; }
      PerformNone(acts[1..], m, l, data, p);
    }
  }

  lemma FlushNone(k: Kind, marks: Marks, log: seq<Event>, data: string, end: nat)
    requires NoneComplete(log) && InBuffer(marks, end) && end <= |data|
    ensures NoneComplete(FlushMark(k, marks, log, data, end).1)
  {
    hide NoneComplete, Emit;
    if k in marks { EmitNone(log, Data(k, data[marks[k]..end])); }
  }

  lemma LeftoverNone(marks: Marks, log: seq<Event>, data: string)
    requires NoneComplete(log) && InBuffer(marks, |data|)
    ensures NoneComplete(Leftover(marks, log, data))
  {
    hide NoneComplete, FlushMark;
    var a := FlushMark(Field, marks, log, data, |data|);
    FlushNone(Field, marks, log, data, |data|);
    var b := FlushMark(Value, a.0, a.1, data, |data|);
    FlushNone(Value, a.0, a.1, data, |data|);
    var c := FlushMark(Url, b.0, b.1, data, |data|);
    FlushNone(Url, b.0, b.1, data, |data|);
    var d := FlushMark(Body, c.0, c.1, data, |data|);
    FlushNone(Body, c.0, c.1, data, |data|);
    FlushNone(Status, d.0, d.1, data, |data|);
  }

  /** One byte that does not zero the counter leaves the head where it was. */
  lemma StepEarly(cfg: Config, m: Machine, ch: char)
    requires Early(m.f) && NoneComplete(m.log)
    ensures var o := Transition(cfg, m.f, ch);
            o.Out? && !o.reset && Step(cfg, m, ch).Went? ==> Early(o.f) && NoneComplete(Step(cfg, m, ch).m.log)
  {
    EarlyTransition(cfg, m.f, ch);
    hide Transition, Perform, Leftover, NoneComplete, NoComplete;
    var o := Transition(cfg, m.f, ch);
    if o.Out? && !o.reset {
      PerformNone(o.acts, StartMarks(m.f.state), m.log, [ch], 0);
      var (marks, log) := Perform(o.acts, StartMarks(m.f.state), m.log, [ch], 0);
      LeftoverNone(marks, log, [ch]);
    }
  }

  lemma StepLogs(cfg: Config, m: Machine, n: Machine, ch: char, pre: seq<Event>)
    requires n.log == pre + m.log && Closed(pre) && m.f.state == n.f.state
        && Blind(Transition(cfg, m.f, ch), Transition(cfg, n.f, ch))
    requires Step(cfg, m, ch).Went? && Step(cfg, n, ch).Went?
    ensures Step(cfg, n, ch).m.log == pre + Step(cfg, m, ch).m.log
  {
    hide Transition, Mask, Perform, Leftover;
    var o := Transition(cfg, m.f, ch);
    PerformBehind(o.acts, StartMarks(m.f.state), pre, m.log, [ch], 0);
    var (marks, log) := Perform(o.acts, StartMarks(m.f.state), m.log, [ch], 0);
    LeftoverBehind(marks, pre, log, [ch]);
  }

  lemma StepShadow(cfg: Config, m: Machine, n: Machine, ch: char, pre: seq<Event>, extra: nat)
    requires Shadows(m, n, pre, extra) && Closed(pre)
    ensures StepShadows(Step(cfg, m, ch), Step(cfg, n, ch), pre, extra)
  {
    hide Transition, Mask, Perform, Leftover, Responding, ParsingHeader, Early, NoneComplete, Emit, Closed;
    OutcomesAgree(cfg, m, n, ch);
    if n.nread != m.nread { StepEarly(cfg, m, ch); }
    if Step(cfg, m, ch).Went? && Step(cfg, n, ch).Went? { StepLogs(cfg, m, n, ch, pre); }
  }

  lemma MaskState(f: Fields, g: Fields)
    requires Mask(f) == Mask(g)
    ensures f.state == g.state
  {
  }

  /** A used parser and a fresh one run alike. */
  lemma {:induction false} FoldShadow(cfg: Config, m: Machine, n: Machine, data: string, p: nat, pre: seq<Event>,
      extra: nat, cap: int)
    requires Shadows(m, n, pre, extra) && Closed(pre) && p <= |data|
    ensures var (a, b) := (Fold(cfg, m, data, p), Fold(cfg, n, data, p));
            b.used == a.used && b.end == a.end && Shadows(a.m, b.m, pre, extra)
    ensures Fits(cfg, m, data, p, cap) ==> Fits(cfg, n, data, p, cap + extra)
    decreases |data| - p
  {
    hide Step, Mask, ParsingHeader, Responding;
    if p < |data| {
      StepShadow(cfg, m, n, data[p], pre, extra);
      MaskState(m.f, n.f);
      match Step(cfg, m, data[p])
      case Went(m', false) =>
        var n' := Step(cfg, n, data[p]).m;
        FoldShadow(cfg, m', n', data, p + 1, pre, extra, cap);
      case _ =>
    }
  }

  // ----- whole responses -----

  const NEW_CLIENT := Machine(InitFields(Response), 0, [])

  /** What a fresh parser makes of `text`. */
  function Log(cfg: Config, text: string): seq<Event> { Fold(cfg, NEW_CLIENT, text, 0).m.log }

  predicate EndsMessage(log: seq<Event>) {
    log != [] && log[|log| - 1].Note? && log[|log| - 1].note.MessageComplete?
  }

  /** Whole responses, after which the connection stays open. */
  predicate IsResponses(cfg: Config, text: string) {
    var r := Fold(cfg, NEW_CLIENT, text, 0);
    r.end.Ran? && r.m.f.state.StartRes? && (text == "" || EndsMessage(r.m.log))
  }

  /** What whole responses leave in the header counter: the last trailer. */
  function Left(cfg: Config, text: string): nat { Fold(cfg, NEW_CLIENT, text, 0).m.nread }

  /** No byte of a response writes the method. */
  predicate VerbKept(f: Fields, o: Outcome) { o.Out? ==> o.f.m.verb == f.m.verb && o.f.m.kind == f.m.kind }

  lemma HeadVerb(cfg: Config, f: Fields, ch: char)
    ensures VerbKept(f, HeaderFieldStartStep(cfg, f, ch)) && VerbKept(f, HeadersAlmostDoneStep(cfg, f, ch))
  {
    hide FieldStartState, Token;
  }

  lemma HeaderVerb(cfg: Config, f: Fields, ch: char)
    requires IsHeaderState(f.state)
    ensures VerbKept(f, HeaderStep(cfg, f, ch))
  {
    HeadVerb(cfg, f, ch);
    HeadVerb(cfg, EndOfLine(f).(state := HeaderFieldStart), ch);
    hide HeaderFieldStartStep, HeadersAlmostDoneStep, FieldChar, ValueMatch;
  }

  lemma BodyVerb(f: Fields, ch: char)
    requires IsBodyState(f.state)
    ensures VerbKept(f, BodyStep(f, ch))
  {
    hide Unhex;
  }

  lemma StatusVerb(f: Fields, ch: char)
    requires IsStatusState(f.state)
    ensures VerbKept(f, StatusStep(f, ch))
  {
  }

  lemma StepVerb(cfg: Config, m: Machine, ch: char)
    requires Responding(m.f)
    ensures Step(cfg, m, ch).Went? ==> VerbKept(m.f, Do(Step(cfg, m, ch).m.f, []))
  {
    if IsHeaderState(m.f.state) { HeaderVerb(cfg, m.f, ch); }
    else if IsBodyState(m.f.state) { BodyVerb(m.f, ch); }
    else if IsStatusState(m.f.state) { StatusVerb(m.f, ch); }
    hide HeaderStep, BodyStep, StatusStep, Perform, Leftover, ParsingHeader;
  }

  lemma {:induction false} StaysResponding(cfg: Config, m: Machine, data: string, p: nat)
    requires p <= |data| && Responding(m.f) && (m.f.state.ChunkSizeStart? ==> m.nread == 0)
    ensures Fold(cfg, m, data, p).m.f.m.verb == m.f.m.verb
    decreases |data| - p
  {
    hide Step, Responding, Mask;
    if p < |data| {
      StepVerb(cfg, m, data[p]);
      assert Shadows(m, m, [], 0) by { assert [] + m.log == m.log; }
      StepShadow(cfg, m, m, data[p], [], 0);
      match Step(cfg, m, data[p])
      case Went(n, false) => StaysResponding(cfg, n, data, p + 1);
      case _ =>
    }
  }

  /** A fresh parser but for the header bytes already on its counter. */
  function Start(left: nat): Machine { NEW_CLIENT.(nread := left) }

  lemma StartShadows(m: Machine, left: nat)
    requires m.f.state.StartRes? && m.f.m.kind.Response? && m.f.m.verb == 0 && m.nread == left
    ensures Shadows(Start(left), m, m.log, 0)
  {
    assert m.log + [] == m.log;
  }

  /** After whole responses the parser differs from a fresh one only where it does not matter. */
  lemma FreshAgain(cfg: Config, a: string, left: nat)
    requires IsResponses(cfg, a) && a != ""
    ensures var r := Fold(cfg, Start(left), a, 0);
            && r.end.Ran? && r.m.log == Log(cfg, a) && Closed(r.m.log) && r.m.nread == Left(cfg, a)
            && Shadows(Start(Left(cfg, a)), r.m, r.m.log, 0)
  {
    var s := Start(left);
    assert Shadows(NEW_CLIENT, s, [], left) by { assert [] + s.log == s.log; }
    FoldShadow(cfg, NEW_CLIENT, s, a, 0, [], left, 0);
    StaysResponding(cfg, s, a, 0);
    var (r, m) := (Fold(cfg, NEW_CLIENT, a, 0), Fold(cfg, s, a, 0).m);
    assert [] + r.m.log == r.m.log;
    assert r.m.log[|r.m.log| - 1] in r.m.log;
    hide Fold;
    StartShadows(m, Left(cfg, a));
  }

  lemma {:induction false} FitsThen(cfg: Config, m: Machine, x: string, y: string, p: nat, cap: int)
    requires p <= |x|
    ensures var r := Fold(cfg, m, x, p);
            r.end.Ran? && Fits(cfg, m, x, p, cap) && Fits(cfg, r.m, x + y, |x|, cap) ==> Fits(cfg, m, x + y, p, cap)
    decreases |x| - p
  {
    hide Step;
    if p < |x| {
      assert (x + y)[p] == x[p];
      match Step(cfg, m, x[p])
      case Went(n, false) => FitsThen(cfg, n, x, y, p + 1, cap);
      case _ =>
    }
  }

  /** The callbacks for two groups of responses on one connection are those for each group on a
      connection of its own, one after the other. */
  lemma TwoGroups(cfg: Config, a: string, b: string)
    requires IsResponses(cfg, a) && a != ""
    ensures Log(cfg, a + b) == Log(cfg, a) + Log(cfg, b)
    ensures IsResponses(cfg, b) ==> IsResponses(cfg, a + b)
  {
    FreshAgain(cfg, a, 0);
    assert Start(0) == NEW_CLIENT;
    var m := Fold(cfg, NEW_CLIENT, a, 0).m;
    FoldConcat(cfg, NEW_CLIENT, a, b);
    FreshLog(cfg, b, Left(cfg, a));
    FoldShadow(cfg, Start(Left(cfg, a)), m, b, 0, m.log, 0, 0);
    hide Fold, Mask;
    if b == "" { assert a + b == a; }
  }

  /** What is on the counter at the start does not show in the log. */
  lemma FreshLog(cfg: Config, b: string, left: nat)
    ensures var (r, q) := (Fold(cfg, NEW_CLIENT, b, 0), Fold(cfg, Start(left), b, 0));
            r.end == q.end && r.m.log == q.m.log && r.m.f.state == q.m.f.state
  {
    var s := Start(left);
    assert Shadows(NEW_CLIENT, s, [], left) by { assert [] + s.log == s.log; }
    FoldShadow(cfg, NEW_CLIENT, s, b, 0, [], left, 0);
    assert [] + Fold(cfg, NEW_CLIENT, b, 0).m.log == Fold(cfg, NEW_CLIENT, b, 0).m.log;
    hide Fold;
  }

  /** Two groups stay within the header limit if the first does, and the second does with what the
      first left on the counter. */
  lemma TwoFit(cfg: Config, a: string, b: string, left: nat, cap: int)
    requires IsResponses(cfg, a) && a != ""
    requires Fits(cfg, Start(left), a, 0, cap) && Fits(cfg, Start(Left(cfg, a)), b, 0, cap)
    ensures Fits(cfg, Start(left), a + b, 0, cap)
  {
    hide Fold, Fits, Clean, Shadows, Left, IsResponses, Start, Closed;
    FreshAgain(cfg, a, left);
    var m := Fold(cfg, Start(left), a, 0).m;
    FoldShadow(cfg, Start(Left(cfg, a)), m, b, 0, m.log, 0, cap);
    CleanShift(cfg, m, a, b, 0, cap);
    FitsThen(cfg, Start(left), a, b, 0, cap);
  }

  function Logs(cfg: Config, rs: seq<string>): seq<Event> {
    if rs == [] then [] else Log(cfg, rs[0]) + Logs(cfg, rs[1..])
  }

  /** Every head fits into the limit together with the trailer left by the response before it. */
  predicate EachFits(cfg: Config, rs: seq<string>, left: nat, cap: int) {
    rs == [] || (Fits(cfg, Start(left), rs[0], 0, cap) && EachFits(cfg, rs[1..], Left(cfg, rs[0]), cap))
  }

  predicate AllResponses(cfg: Config, rs: seq<string>) { forall r :: r in rs ==> r != "" && IsResponses(cfg, r) }

  lemma {:induction false} ManyResponses(cfg: Config, rs: seq<string>)
    requires AllResponses(cfg, rs)
    ensures Log(cfg, Flat(rs)) == Logs(cfg, rs) && IsResponses(cfg, Flat(rs))
  {
    if rs == [] {
      FoldNothing(cfg, NEW_CLIENT);
    } else {
      var r, rest := rs[0], rs[1..];
      assert r in rs && forall x :: x in rest ==> x in rs;
      ManyResponses(cfg, rest);
      TwoGroups(cfg, r, Flat(rest));
      hide Log, IsResponses;
    }
  }

  lemma {:induction false} ManyFit(cfg: Config, rs: seq<string>, left: nat, cap: int)
    requires AllResponses(cfg, rs) && left <= cap && EachFits(cfg, rs, left, cap)
    ensures Fits(cfg, Start(left), Flat(rs), 0, cap)
  {
    if rs != [] {
      var r, rest := rs[0], rs[1..];
      assert r in rs && forall x :: x in rest ==> x in rs;
      hide Fits, IsResponses, Left, Fold, Mask, Shadows, Start;
      FreshAgain(cfg, r, left);
      FitsEnd(cfg, Start(left), r, 0, cap);
      ManyFit(cfg, rest, Left(cfg, r), cap);
      TwoFit(cfg, r, Flat(rest), left, cap);
    }
  }

  lemma {:induction false} FitsEnd(cfg: Config, m: Machine, data: string, p: nat, cap: int)
    requires p <= |data| && Fits(cfg, m, data, p, cap) && Fold(cfg, m, data, p).end.Ran?
    ensures Fold(cfg, m, data, p).m.nread <= cap
    decreases |data| - p
  {
    hide Step;
    if p < |data| { FitsEnd(cfg, Step(cfg, m, data[p]).m, data, p + 1, cap); }
  }

  /** Keep-alive responses one after the other, cut into calls in any way: the callbacks are those
      of each response on a connection of its own.  The header limit does not get in the way as
      long as each head fits with the trailer before it and one byte for every call since the last reset,
      or both stay within half the limit, whatever the calls. */
  lemma ResponsesAnySplit(cfg: Config, a: Parser, rs: seq<string>, pieces: seq<string>, b: Parser, exited: bool)
    requires a == Parser(NEW_CLIENT, 0, Ok) && AllResponses(cfg, rs)
    requires Flat(pieces) == Flat(rs) && Fed(cfg, a, pieces, b, exited)
    ensures EachFits(cfg, rs, 0, FedRoom(cfg, a, pieces)) ==> b.errno.Ok?
    ensures EachFits(cfg, rs, 0, HTTP_MAX_HEADER_SIZE / 2) ==> b.errno.Ok?
    ensures !b.errno.HeaderOverflow? ==> b.errno.Ok? && !exited && b.m.log == Logs(cfg, rs)
  {
    hide Fed, Fits, Fold, EachFits, Logs, AllResponses, FedRoom;
    assert ParserInv(a) by { InitInv(Response); }
    ManyResponses(cfg, rs);
    assert Start(0) == NEW_CLIENT;
    if EachFits(cfg, rs, 0, FedRoom(cfg, a, pieces)) {
      ManyFit(cfg, rs, 0, FedRoom(cfg, a, pieces));
    } else if EachFits(cfg, rs, 0, HTTP_MAX_HEADER_SIZE / 2) {
      ManyFit(cfg, rs, 0, HTTP_MAX_HEADER_SIZE / 2);
      FitsLess(cfg, NEW_CLIENT, Flat(rs), 0, HTTP_MAX_HEADER_SIZE / 2, FedRoom(cfg, a, pieces));
    }
    FedReads(cfg, a, pieces, b, exited, Fold(cfg, NEW_CLIENT, Flat(rs), 0).m) by { FoldAll(cfg, NEW_CLIENT, Flat(rs)); }
  }

  lemma FoldAll(cfg: Config, m: Machine, data: string)
    requires Fold(cfg, m, data, 0).end.Ran?
    ensures Reads(cfg, m, data, Fold(cfg, m, data, 0).m)
  {
  }
}
