/** What every byte keeps: no `assert` of the parser can fail, the bit-field `index` never
    overflows, and the lengths stay in their ranges. */
module ParserInvariant {
  import opened Chars
  import opened ParserState
  import opened UrlChar
  import opened ByteTransition
  import opened StepMachine

  const MAX_CHUNK: nat := ULLONG_MAX - 16
  const MAX_CONTENT_LENGTH: nat := ULLONG_MAX - 6

  /** Header states of a line whose value is being read. */
  predicate IsValueState(h: HeaderState) {
    || h.General? || h.ContentLength? || h.MatchingTransferEncodingChunked? || h.MatchingConnectionTokenStart?
    || h.MatchingConnectionKeepAlive? || h.MatchingConnectionClose? || h.MatchingConnectionUpgrade?
    || h.MatchingConnectionToken? || h.TransferEncodingChunked? || h.ConnectionKeepAlive?
    || h.ConnectionClose? || h.ConnectionUpgrade?
  }

  /** How far a matcher of header names may have counted. */
  predicate NameIndex(h: HeaderState, i: nat) {
    match h
    case C => i == 0
    case CO => i == 1
    case CON => i == 2
    case MatchingConnection => 3 <= i < 9
    case MatchingProxyConnection => i < 15
    case MatchingContentLength => 3 <= i < 13
    case MatchingTransferEncoding => i < 16
    case MatchingUpgrade => i < 6
    case _ => i <= 16
  }

  /** How far a matcher of header values may have counted. */
  predicate ValueIndex(h: HeaderState, i: nat) {
    match h
    case MatchingTransferEncodingChunked => i < 6
    case MatchingConnectionKeepAlive => i < 9
    case MatchingConnectionClose => i < 4
    case MatchingConnectionUpgrade => i < 6
    case MatchingConnectionTokenStart => i == 0
    case _ => i <= 16
  }

  predicate NameInv(f: Fields) { IsNameState(f.hstate) && NameIndex(f.hstate, f.index) }

  predicate IsChunkState(s: State) {
    || s.ChunkSizeStart? || s.ChunkSize? || s.ChunkParameters? || s.ChunkSizeAlmostDone?
    || s.ChunkData? || s.ChunkDataAlmostDone? || s.ChunkDataDone?
  }

  predicate ValueInv(f: Fields) {
    && IsValueState(f.hstate) && ValueIndex(f.hstate, f.index)
    && (f.hstate.ContentLength? ==> f.length <= MAX_CONTENT_LENGTH)
  }

  /** What each state adds.  Three states are always left by re-execution: no call returns in them. */
  predicate StateInv(f: Fields) {
    match f.state
    case HeaderField => NameInv(f)
    case HeaderValueDiscardWs => NameInv(f)
    case HeaderValueDiscardWsAlmostDone => NameInv(f)
    case HeaderValueDiscardLws => NameInv(f)
    case HeaderValue => ValueInv(f)
    case HeaderAlmostDone => ValueInv(f)
    case HeaderValueLws => ValueInv(f)
    case ChunkSizeStart => f.m.flags.chunked
    case ChunkSize => f.m.flags.chunked && f.length <= MAX_CHUNK
    case ChunkParameters => f.m.flags.chunked && f.length <= MAX_CHUNK
    case ChunkSizeAlmostDone => f.m.flags.chunked && f.length <= MAX_CHUNK
    case ChunkData => f.m.flags.chunked && HasLength(f)
    case ChunkDataAlmostDone => f.m.flags.chunked && f.length == 0
    case ChunkDataDone => f.m.flags.chunked
    case BodyIdentity => HasLength(f)
    case ReqMethod => f.index <= |MethodString(f.m.verb)|
    case HeaderValueStart => false
    case HeadersDone => false
    case MessageDone => false
    case _ => true
  }

  predicate Bounds(f: Fields) {
    && f.index <= 16 && f.length <= ULLONG_MAX && f.m.statusCode <= 999
    && (f.m.flags.trailing ==> f.m.flags.chunked)
  }

  predicate Inv(f: Fields) { Bounds(f) && StateInv(f) }

  predicate IsParseError(e: Errno) { e != Ok && e != AssertFailure && e != InvalidInternalState && e != HeaderOverflow }

  predicate Kept(o: Outcome) {
    match o
    case Out(f, _, _, _) => Inv(f)
    case Fail(e) => IsParseError(e)
  }

  lemma InitInv(kind: MessageType)
    ensures Inv(InitFields(kind))
  {
  }

  lemma NameKept(f: Fields, ch: char)
    requires IsNameState(f.hstate) && NameIndex(f.hstate, f.index)
    ensures var (i, h) := FieldChar(f.hstate, f.index, ch); IsToken(ch) ==> IsNameState(h) && NameIndex(h, i)
  {
  }

  /** The 64-bit arithmetic of `Content-Length` does not wrap on an accepted digit. */
  lemma LengthDigitExact(f: Fields, ch: char)
    ensures var o := LengthDigit(f, ch);
            if IsNum(ch) && f.length * 10 + Digit(ch) <= MAX_CONTENT_LENGTH
            then o == Do(f.(length := f.length * 10 + Digit(ch)), [])
            else o == Fail(InvalidContentLength)
  {
  }

  /** Nor does that of a chunk size. */
  lemma ChunkDigitExact(f: Fields, ch: char)
    requires ch != '\r' && Unhex(ch) != -1
    ensures var o := ChunkSizeStep(f, ch);
            if f.length * 16 + Unhex(ch) <= MAX_CHUNK
            then o == Do(f.(length := f.length * 16 + Unhex(ch)), [])
            else o == Fail(InvalidContentLength)
  {
  }

  lemma ValueMatchKept(f: Fields, ch: char)
    requires ValueInv(f) && !f.hstate.ContentLength? && !IsConnectionWord(f.hstate)
    ensures var (i, h) := ValueMatch(f.hstate, f.index, ch);
            IsValueState(h) && !h.ContentLength? && ValueIndex(h, i) && i <= 16
  {
  }

  lemma ValueCharKept(f: Fields, ch: char)
    requires Inv(f) && f.state.HeaderValue?
    ensures Kept(ValueChar(f, ch))
  {
    hide LengthDigit, ValueMatch;
    if f.hstate.ContentLength? {
      LengthDigitExact(f, ch);
    } else if IsConnectionWord(f.hstate) {
    } else if !f.hstate.General? {
      ValueMatchKept(f, ch);
    }
  }

  lemma CompletedKept(f: Fields, reset: bool, exit: bool)
    requires Bounds(f)
    ensures Kept(Completed(f, reset, exit))
  {
  }

  lemma HeadersDoneKept(f: Fields)
    requires Bounds(f)
    ensures Kept(HeadersDoneStep(f, '\n'))
  {
    hide Completed;
    CompletedKept(f, true, true);
    CompletedKept(f, true, false);
  }

  lemma HeadersAlmostDoneKept(cfg: Config, f: Fields, ch: char)
    requires Bounds(f)
    ensures Kept(HeadersAlmostDoneStep(cfg, f, ch))
  {
    hide HeadersDoneStep, Completed;
    var g := f.(state := HeadersDone, m := Answered(f.m, cfg.answer));
    CompletedKept(f.(state := MessageDone), false, f.m.upgrade);
    HeadersDoneKept(g);
  }

  lemma FieldStartKept(cfg: Config, f: Fields, ch: char)
    requires Bounds(f)
    ensures Kept(HeaderFieldStartStep(cfg, f, ch))
  {
    hide HeadersAlmostDoneStep;
    HeadersAlmostDoneKept(cfg, f.(state := HeadersAlmostDone), ch);
  }

  lemma EndOfLineKept(f: Fields)
    requires Bounds(f)
    ensures Bounds(EndOfLine(f).(state := HeaderFieldStart))
  {
  }

  lemma ValueStartKept(f: Fields, ch: char)
    requires Bounds(f)
    ensures Kept(HeaderValueStartStep(f, ch))
  {
    hide Inv, Lower;
    if f.hstate.ContentLength? {
      LengthStartKept(f, ch);
    } else {
      ValueAtKept(f, General);
      ValueAtKept(f, MatchingTransferEncodingChunked);
      ValueAtKept(f, MatchingConnectionTokenStart);
      ValueAtKept(f, ConnectionWord(Lower(ch), MatchingConnectionToken));
    }
  }

  lemma ValueAtKept(f: Fields, h: HeaderState)
    requires Bounds(f) && IsValueState(h) && !h.ContentLength?
    ensures Inv(ValueAt(f, h)) && Inv(SetFlags(ValueAt(f, h), f.m.flags.(upgrade := true)))
  {
    hide MethodString, NameIndex;
  }

  lemma LengthStartKept(f: Fields, ch: char)
    requires Bounds(f) && f.hstate.ContentLength?
    ensures Kept(HeaderValueStartStep(f, ch))
  {
  }

  lemma LwsKept(cfg: Config, f: Fields, ch: char)
    requires Bounds(f) && (NameInv(f) || ValueInv(f))
    ensures Kept(HeaderValueLwsStep(cfg, f, ch))
    ensures NameInv(f) ==> Kept(HeaderValueDiscardLwsStep(cfg, f, ch))
  {
    hide HeaderFieldStartStep, HeaderValueStartStep, EndOfLine;
    EndOfLineKept(f);
    FieldStartKept(cfg, EndOfLine(f).(state := HeaderFieldStart), ch);
    ValueStartKept(f.(state := HeaderValueStart), ch);
  }

  lemma HeaderKept(cfg: Config, f: Fields, ch: char)
    requires Inv(f) && IsHeaderState(f.state)
    ensures Kept(HeaderStep(cfg, f, ch))
  {
    hide HeadersAlmostDoneStep, HeaderFieldStartStep, FieldChar, ValueChar, HeaderValueStartStep, HeaderValueLwsStep,
      HeaderValueDiscardLwsStep;
    match f.state {
      case HeaderFieldStart => FieldStartKept(cfg, f, ch);
      case HeaderField => NameKept(f, ch);
      case HeaderValueDiscardWs => ValueStartKept(f, ch);
      case HeaderValueDiscardLws => LwsKept(cfg, f, ch);
      case HeaderValueLws => LwsKept(cfg, f, ch);
      case HeadersAlmostDone => HeadersAlmostDoneKept(cfg, f, ch);
      case HeaderValue => ValueCharKept(f, ch);
      case _ =>
    }
  }

  lemma ChunkKept(f: Fields, ch: char)
    requires Inv(f) && f.m.flags.chunked && IsBodyState(f.state)
    ensures f.state.BodyIdentity? || f.state.BodyIdentityEof? || Kept(ChunkStep(f, ch))
  {
    hide ChunkSizeStep;
    if f.state.ChunkSize? { SizeKept(f, ch); }
  }

  lemma SizeKept(f: Fields, ch: char)
    requires Inv(f) && f.state.ChunkSize?
    ensures Kept(ChunkSizeStep(f, ch))
  {
    if ch != '\r' && Unhex(ch) != -1 { ChunkDigitExact(f, ch); }
    hide Unhex;
  }

  lemma BodyKept(f: Fields, ch: char)
    requires Inv(f) && IsBodyState(f.state)
    ensures Kept(BodyStep(f, ch))
  {
    hide ChunkStep, Completed;
    if f.m.flags.chunked { ChunkKept(f, ch); }
    CompletedKept(f.(state := MessageDone, length := 0), false, f.m.upgrade);
  }

  lemma StatusKept(f: Fields, ch: char)
    requires Inv(f) && IsStatusState(f.state)
    ensures Kept(StatusStep(f, ch))
  {
  }

  lemma MethodLength(verb: nat)
    ensures |MethodString(verb)| <= 11
  {
  }

  lemma OtherMethodLonger(verb: nat, pos: nat, ch: char)
    ensures OtherMethod(verb, pos, ch).Some? ==> pos < |MethodString(OtherMethod(verb, pos, ch).value)|
  {
  }

  lemma ReqMethodKept(f: Fields, ch: char)
    requires Inv(f) && f.state.ReqMethod?
    ensures Kept(ReqMethodStep(f, ch))
  {
    hide MethodString, OtherMethod;
    MethodLength(f.m.verb);
    OtherMethodLonger(f.m.verb, f.index, ch);
  }

  lemma UrlKept(f: Fields, ch: char)
    requires Inv(f) && (IsUrlState(f.state) || f.state.ReqSpacesBeforeUrl?)
    ensures Kept(RequestStep(f, ch))
  {
    hide ParseUrlChar;
  }

  predicate IsVersionState(s: State) {
    || s.ReqHttpStart? || s.ReqHttpH? || s.ReqHttpHT? || s.ReqHttpHTT? || s.ReqHttpHTTP? || s.ReqHttpMajor?
    || s.ReqHttpDot? || s.ReqHttpMinor? || s.ReqHttpEnd? || s.ReqLineAlmostDone?
  }

  /** Their bytes change the state and the version. */
  lemma VersionMoves(f: Fields, ch: char)
    requires IsVersionState(f.state)
    ensures var o := RequestVersionStep(f, ch);
            match o
            case Fail(e) => IsParseError(e)
            case Out(g, _, _, _) =>
              && g == f.(state := g.state, m := f.m.(major := g.m.major, minor := g.m.minor))
              && (IsVersionState(g.state) || g.state.HeaderFieldStart?)
  {
  }

  lemma RequestVersionKept(f: Fields, ch: char)
    requires Inv(f) && IsVersionState(f.state)
    ensures Kept(RequestVersionStep(f, ch))
  {
    hide RequestVersionStep, IsParseError;
    VersionMoves(f, ch);
  }

  lemma RequestKept(f: Fields, ch: char)
    requires Inv(f) && !IsHeaderState(f.state) && !IsBodyState(f.state) && !IsStatusState(f.state) && !f.state.Dead?
    ensures Kept(RequestStep(f, ch))
  {
    hide ReqMethodStep, RequestVersionStep, UrlStep, UrlStartStep, UrlRestStep;
    if f.state.ReqMethod? { ReqMethodKept(f, ch); }
    else if IsUrlState(f.state) || f.state.ReqSpacesBeforeUrl? { UrlKept(f, ch); }
    else if IsVersionState(f.state) { RequestVersionKept(f, ch); }
  }

  /** One byte keeps the invariant, or ends in an error that is no failed `assert`. */
  lemma TransitionKept(cfg: Config, f: Fields, ch: char)
    requires Inv(f)
    ensures Kept(Transition(cfg, f, ch))
  {
    hide HeaderStep, BodyStep, StatusStep, RequestStep;
    if IsHeaderState(f.state) { HeaderKept(cfg, f, ch); }
    else if IsBodyState(f.state) { BodyKept(f, ch); }
    else if IsStatusState(f.state) { StatusKept(f, ch); }
    else if !f.state.Dead? { RequestKept(f, ch); }
  }
}
