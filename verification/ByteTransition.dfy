/** What one byte does to the parser: the body of the loop of `http_parser_execute` for a
    single byte, with every `goto reexecute` followed to its end.  A state that re-executes
    calls the function of the state it jumps to, so the order of the functions below is the
    rank by which the jumps terminate. */
module ByteTransition {
  import opened Chars
  import opened Numbers
  import opened ParserState
  import opened UrlChar

  // ----- matching of fixed words -----

  datatype Match = Mismatch | Partial | Complete

  /** Compare the byte at `i` of a word, as the `index`-based matchers do. */
  function MatchAt(word: string, i: nat, c: char): Match {
    if i >= |word| || c != word[i] then Mismatch
    else if i == |word| - 1 then Complete
    else Partial
  }

  function Settle(m: Match, partial: HeaderState, complete: HeaderState, mismatch: HeaderState): HeaderState {
    match m case Partial => partial case Complete => complete case Mismatch => mismatch
  }

  // ----- message boundaries -----

  /** The end of a message: back to the start state, or dead (`NEW_MESSAGE`). */
  function Completed(f: Fields, reset: bool, exit: bool): Outcome {
    var g := f.(state := NewMessage(f));
    Out(g, [Notify(MessageComplete(ShouldKeepAlive(g)))], reset, exit)
  }

  function MessageDoneStep(f: Fields): Outcome { Completed(f, false, f.m.upgrade) }

  predicate HasBody(f: Fields) { f.m.flags.chunked || (f.length > 0 && f.length != ULLONG_MAX) }

  function HeadersDoneStep(f: Fields, ch: char): Outcome {
    if ch != '\n' then Fail(Strict)
    else if f.m.upgrade && (f.m.verb == CONNECT || f.m.flags.skipBody || !HasBody(f)) then Completed(f, true, true)
    else if f.m.flags.skipBody then Completed(f, true, false)
    else if f.m.flags.chunked then Out(f.(state := ChunkSizeStart), [], true, false)
    else if f.length == 0 then Completed(f, true, false)
    else if f.length != ULLONG_MAX then Out(f.(state := BodyIdentity), [], true, false)
    else if !MessageNeedsEof(f) then Completed(f, true, false)
    else Out(f.(state := BodyIdentityEof), [], true, false)
  }

  function IsUpgrade(m: Message): bool {
    if m.flags.upgrade && m.flags.connUpgrade then m.kind.Request? || m.statusCode == 101
    else m.verb == CONNECT
  }

  /** `parser->upgrade` and `F_SKIPBODY` once `on_headers_complete` has answered. */
  function Answered(m: Message, answer: Answer): Message {
    match answer
    case Continue => m.(upgrade := IsUpgrade(m))
    case NoBody => m.(upgrade := IsUpgrade(m), flags := m.flags.(skipBody := true))
    case NoBodyNoMore => m.(upgrade := true, flags := m.flags.(skipBody := true))
  }

  /** Run `acts` before the macros of `o`. */
  function After(acts: seq<Act>, o: Outcome): Outcome {
    if o.Fail? then o else o.(acts := acts + o.acts)
  }

  function HeadersAlmostDoneStep(cfg: Config, f: Fields, ch: char): Outcome {
    if ch != '\n' then Fail(Strict)
    else if f.m.flags.trailing then
      After([Notify(ChunkComplete)], MessageDoneStep(f.(state := MessageDone)))
    else if f.m.flags.chunked && f.m.flags.contentLength then Fail(UnexpectedContentLength)
    else
      After([Notify(HeadersComplete(f.m.statusCode))],
            HeadersDoneStep(f.(state := HeadersDone, m := Answered(f.m, cfg.answer)), ch))
  }

  // ----- header lines -----

  function FieldStartState(c: char): HeaderState {
    if c == 'c' then C
    else if c == 'p' then MatchingProxyConnection
    else if c == 't' then MatchingTransferEncoding
    else if c == 'u' then MatchingUpgrade
    else General
  }

  function HeaderFieldStartStep(cfg: Config, f: Fields, ch: char): Outcome {
    if ch == '\r' then To(f, HeadersAlmostDone)
    else if ch == '\n' then HeadersAlmostDoneStep(cfg, f.(state := HeadersAlmostDone), ch)
    else if !IsToken(ch) then Fail(InvalidHeaderToken)
    else Do(f.(state := HeaderField, index := 0, hstate := FieldStartState(Token(ch))), [Mark(Field)])
  }

  /** The matcher of header names on one token byte: new index and state. */
  function FieldChar(h: HeaderState, i: nat, ch: char): (nat, HeaderState) {
    var c := Token(ch);
    match h
    case General => (i, General)
    case C => (i + 1, if c == 'o' then CO else General)
    case CO => (i + 1, if c == 'n' then CON else General)
    case CON => (i + 1, if c == 'n' then MatchingConnection else if c == 't' then MatchingContentLength else General)
    case MatchingConnection => (i + 1, Settle(MatchAt("connection", i + 1, c), h, Connection, General))
    case MatchingProxyConnection => (i + 1, Settle(MatchAt("proxy-connection", i + 1, c), h, Connection, General))
    case MatchingContentLength => (i + 1, Settle(MatchAt("content-length", i + 1, c), h, ContentLength, General))
    case MatchingTransferEncoding =>
      (i + 1, Settle(MatchAt("transfer-encoding", i + 1, c), h, TransferEncoding, General))
    case MatchingUpgrade => (i + 1, Settle(MatchAt("upgrade", i + 1, c), h, Upgrade, General))
    case _ => (i, if ch != ' ' then General else h)
  }

  /** The header states that the name matcher knows. */
  predicate IsNameState(h: HeaderState) {
    || h.General? || h.C? || h.CO? || h.CON? || h.MatchingConnection? || h.MatchingProxyConnection?
    || h.MatchingContentLength? || h.MatchingTransferEncoding? || h.MatchingUpgrade?
    || h.Connection? || h.ContentLength? || h.TransferEncoding? || h.Upgrade?
  }

  function HeaderFieldStep(f: Fields, ch: char): Outcome {
    if IsToken(ch) && !IsNameState(f.hstate) then Fail(AssertFailure)
    else if IsToken(ch) then
      var (i, h) := FieldChar(f.hstate, f.index, ch);
      Do(f.(index := i, hstate := h), [])
    else if ch == ':' then Do(f.(state := HeaderValueDiscardWs), [Flush(Field, false)])
    else Fail(InvalidHeaderToken)
  }

  function ConnectionWord(c: char, other: HeaderState): HeaderState {
    if c == 'k' then MatchingConnectionKeepAlive
    else if c == 'c' then MatchingConnectionClose
    else if c == 'u' then MatchingConnectionUpgrade
    else other
  }

  function ValueAt(f: Fields, h: HeaderState): Fields { f.(state := HeaderValue, index := 0, hstate := h) }

  function HeaderValueStartStep(f: Fields, ch: char): Outcome {
    var c := Lower(ch);
    match f.hstate
    case Upgrade => Do(SetFlags(ValueAt(f, General), f.m.flags.(upgrade := true)), [Mark(Value)])
    case TransferEncoding =>
      Do(ValueAt(f, if c == 'c' then MatchingTransferEncodingChunked else General), [Mark(Value)])
    case ContentLength =>
      if !IsNum(ch) then Fail(InvalidContentLength)
      else if f.m.flags.contentLength then Fail(UnexpectedContentLength)
      else Do(SetFlags(ValueAt(f, ContentLength).(length := Digit(ch)), f.m.flags.(contentLength := true)),
              [Mark(Value)])
    case Connection => Do(ValueAt(f, ConnectionWord(c, MatchingConnectionToken)), [Mark(Value)])
    case MatchingConnectionTokenStart => Do(ValueAt(f, MatchingConnectionTokenStart), [Mark(Value)])
    case _ => Do(ValueAt(f, General), [Mark(Value)])
  }

  function HeaderValueDiscardWsStep(f: Fields, ch: char): Outcome {
    if ch == ' ' || ch == '\t' then Do(f, [])
    else if ch == '\r' then To(f, HeaderValueDiscardWsAlmostDone)
    else if ch == '\n' then To(f, HeaderValueDiscardLws)
    else HeaderValueStartStep(f, ch)
  }

  const TWO_64: nat := 0x1_0000_0000_0000_0000

  /** One more digit of a `Content-Length`, in 64-bit arithmetic. */
  function LengthDigit(f: Fields, ch: char): Outcome {
    if !IsNum(ch) then Fail(InvalidContentLength)
    else if (ULLONG_MAX - 10) / 10 < f.length then Fail(InvalidContentLength)
    else Do(f.(length := (f.length * 10 % TWO_64 + Digit(ch)) % TWO_64), [])
  }

  function EndConnectionWord(f: Flags, h: HeaderState): Flags {
    match h
    case ConnectionKeepAlive => f.(keepAlive := true)
    case ConnectionClose => f.(close := true)
    case ConnectionUpgrade => f.(connUpgrade := true)
    case _ => f
  }

  /** The matchers of header values on one byte: new index and state. */
  function ValueMatch(h: HeaderState, i: nat, ch: char): (nat, HeaderState) {
    var c := Lower(ch);
    match h
    case MatchingTransferEncodingChunked =>
      (i + 1, Settle(MatchAt("chunked", i + 1, c), h, TransferEncodingChunked, General))
    case MatchingConnectionTokenStart =>
      var other := if IsToken(c) then MatchingConnectionToken else if c == ' ' || c == '\t' then h else General;
      (i, ConnectionWord(c, other))
    case MatchingConnectionKeepAlive =>
      (i + 1, Settle(MatchAt("keep-alive", i + 1, c), h, ConnectionKeepAlive, MatchingConnectionToken))
    case MatchingConnectionClose =>
      (i + 1, Settle(MatchAt("close", i + 1, c), h, ConnectionClose, MatchingConnectionToken))
    case MatchingConnectionUpgrade =>
      (i + 1, Settle(MatchAt("upgrade", i + 1, c), h, ConnectionUpgrade, MatchingConnectionToken))
    case MatchingConnectionToken =>
      if ch == ',' then (0, MatchingConnectionTokenStart) else (i, h)
    case TransferEncodingChunked => (i, if ch != ' ' then General else h)
    case _ => (i, General)
  }

  /** One byte after a whole word of a `Connection` list. */
  function AfterConnectionWord(f: Fields, ch: char): Fields {
    if ch == ',' then
      SetFlags(f, EndConnectionWord(f.m.flags, f.hstate)).(hstate := MatchingConnectionTokenStart, index := 0)
    else if ch != ' ' then f.(hstate := MatchingConnectionToken)
    else f
  }

  predicate IsConnectionWord(h: HeaderState) { h.ConnectionKeepAlive? || h.ConnectionClose? || h.ConnectionUpgrade? }

  /** One byte of a header value that is neither CR nor LF nor an invalid header character. */
  function ValueChar(f: Fields, ch: char): Outcome {
    if f.hstate.General? then Do(f, [])
    else if f.hstate.Connection? || f.hstate.TransferEncoding? then Fail(AssertFailure)
    else if f.hstate.ContentLength? then (if ch == ' ' then Do(f, []) else LengthDigit(f, ch))
    else if IsConnectionWord(f.hstate) then Do(AfterConnectionWord(f, ch), [])
    else
      var (i, h) := ValueMatch(f.hstate, f.index, ch);
      Do(f.(index := i, hstate := h), [])
  }

  function HeaderAlmostDoneStep(f: Fields, ch: char): Outcome {
    if ch != '\n' then Fail(LfExpected) else To(f, HeaderValueLws)
  }

  function HeaderValueStep(cfg: Config, f: Fields, ch: char): Outcome {
    if ch == '\r' then Do(f.(state := HeaderAlmostDone), [Flush(Value, false)])
    else if ch == '\n' then After([Flush(Value, false)], HeaderAlmostDoneStep(f.(state := HeaderAlmostDone), ch))
    else if !cfg.lenient && !IsHeaderChar(ch) then Fail(InvalidHeaderToken)
    else ValueChar(f, ch)
  }

  /** Flags set at the end of a header line. */
  function EndOfLine(f: Fields): Fields {
    SetFlags(f, if f.hstate.TransferEncodingChunked? then f.m.flags.(chunked := true)
                else EndConnectionWord(f.m.flags, f.hstate))
  }

  function HeaderValueLwsStep(cfg: Config, f: Fields, ch: char): Outcome {
    if ch == ' ' || ch == '\t' then HeaderValueStartStep(f.(state := HeaderValueStart), ch)
    else HeaderFieldStartStep(cfg, EndOfLine(f).(state := HeaderFieldStart), ch)
  }

  function HeaderValueDiscardLwsStep(cfg: Config, f: Fields, ch: char): Outcome {
    if ch == ' ' || ch == '\t' then To(f, HeaderValueDiscardWs)
    else
      After([Mark(Value), Flush(Value, false)],
            HeaderFieldStartStep(cfg, EndOfLine(f).(state := HeaderFieldStart), ch))
  }

  function HeaderStep(cfg: Config, f: Fields, ch: char): Outcome {
    match f.state
    case HeaderFieldStart => HeaderFieldStartStep(cfg, f, ch)
    case HeaderField => HeaderFieldStep(f, ch)
    case HeaderValueDiscardWs => HeaderValueDiscardWsStep(f, ch)
    case HeaderValueDiscardWsAlmostDone => if ch != '\n' then Fail(Strict) else To(f, HeaderValueDiscardLws)
    case HeaderValueDiscardLws => HeaderValueDiscardLwsStep(cfg, f, ch)
    case HeaderValueStart => HeaderValueStartStep(f, ch)
    case HeaderValue => HeaderValueStep(cfg, f, ch)
    case HeaderAlmostDone => HeaderAlmostDoneStep(f, ch)
    case HeaderValueLws => HeaderValueLwsStep(cfg, f, ch)
    case HeadersAlmostDone => HeadersAlmostDoneStep(cfg, f, ch)
    case HeadersDone => HeadersDoneStep(f, ch)
    case _ => Fail(InvalidInternalState)
  }

  predicate IsHeaderState(s: State) {
    || s.HeaderFieldStart? || s.HeaderField? || s.HeaderValueDiscardWs? || s.HeaderValueDiscardWsAlmostDone?
    || s.HeaderValueDiscardLws? || s.HeaderValueStart? || s.HeaderValue? || s.HeaderAlmostDone?
    || s.HeaderValueLws? || s.HeadersAlmostDone? || s.HeadersDone?
  }

  // ----- bodies -----

  predicate HasLength(f: Fields) { f.length != 0 && f.length != ULLONG_MAX }

  function BodyIdentityStep(f: Fields): Outcome {
    if !HasLength(f) then Fail(AssertFailure)
    else if f.length > 1 then Do(f.(length := f.length - 1), [Mark(Body)])
    else After([Mark(Body), Flush(Body, true)], MessageDoneStep(f.(state := MessageDone, length := 0)))
  }

  function ChunkSizeStep(f: Fields, ch: char): Outcome {
    if ch == '\r' then To(f, ChunkSizeAlmostDone)
    else if Unhex(ch) == -1 then
      if ch == ';' || ch == ' ' then To(f, ChunkParameters) else Fail(InvalidChunkSize)
    else if (ULLONG_MAX - 16) / 16 < f.length then Fail(InvalidContentLength)
    else Do(f.(length := (f.length * 16 % TWO_64 + Unhex(ch)) % TWO_64), [])
  }

  function ChunkSizeAlmostDoneStep(f: Fields, ch: char): Outcome {
    if ch != '\n' then Fail(Strict)
    else
      var g := if f.length == 0 then SetFlags(f, f.m.flags.(trailing := true)).(state := HeaderFieldStart)
               else f.(state := ChunkData);
      Out(g, [Notify(ChunkHeader(f.length))], true, false)
  }

  function ChunkDataStep(f: Fields): Outcome {
    if !HasLength(f) then Fail(AssertFailure)
    else
      Do(f.(length := f.length - 1, state := if f.length == 1 then ChunkDataAlmostDone else ChunkData), [Mark(Body)])
  }

  function BodyStep(f: Fields, ch: char): Outcome {
    match f.state
    case BodyIdentity => BodyIdentityStep(f)
    case BodyIdentityEof => Do(f, [Mark(Body)])
    case MessageDone => MessageDoneStep(f)
    case _ => if f.m.flags.chunked then ChunkStep(f, ch) else Fail(AssertFailure)
  }

  function ChunkStep(f: Fields, ch: char): Outcome {
    match f.state
    case ChunkSizeStart =>
      if Unhex(ch) == -1 then Fail(InvalidChunkSize)
      else To(f.(length := Unhex(ch)), ChunkSize)
    case ChunkSize => ChunkSizeStep(f, ch)
    case ChunkParameters => if ch == '\r' then To(f, ChunkSizeAlmostDone) else Do(f, [])
    case ChunkSizeAlmostDone => ChunkSizeAlmostDoneStep(f, ch)
    case ChunkData => ChunkDataStep(f)
    case ChunkDataAlmostDone =>
      if f.length != 0 then Fail(AssertFailure)
      else if ch != '\r' then Fail(Strict)
      else Do(f.(state := ChunkDataDone), [Flush(Body, false)])
    case ChunkDataDone =>
      if ch != '\n' then Fail(Strict)
      else Out(f.(state := ChunkSizeStart), [Notify(ChunkComplete)], true, false)
    case _ => Fail(InvalidInternalState)
  }

  predicate IsBodyState(s: State) {
    || s.BodyIdentity? || s.BodyIdentityEof? || s.ChunkSizeStart? || s.ChunkSize? || s.ChunkParameters?
    || s.ChunkSizeAlmostDone? || s.ChunkData? || s.ChunkDataAlmostDone? || s.ChunkDataDone? || s.MessageDone?
  }

  // ----- status line -----

  /** `flags` and `content_length` at the start of a message. */
  function Fresh(f: Fields): Fields { SetFlags(f, NO_FLAGS).(length := ULLONG_MAX) }

  function ResStatusStartStep(f: Fields, ch: char): Outcome {
    var g := f.(state := ResStatus, index := 0);
    if ch == '\r' then Do(g.(state := ResLineAlmostDone), [Mark(Status), Flush(Status, false)])
    else if ch == '\n' then Do(g.(state := HeaderFieldStart), [Mark(Status), Flush(Status, false)])
    else Do(g, [Mark(Status)])
  }

  function ResStatusCodeStep(f: Fields, ch: char): Outcome {
    if IsNum(ch) then
      var code := f.m.statusCode * 10 + Digit(ch);
      if code > 999 then Fail(InvalidStatus) else Do(f.(m := f.m.(statusCode := code)), [])
    else if ch == ' ' then To(f, ResStatusStart)
    else if ch == '\r' || ch == '\n' then ResStatusStartStep(f.(state := ResStatusStart), ch)
    else Fail(InvalidStatus)
  }

  function StatusStep(f: Fields, ch: char): Outcome {
    match f.state
    case StartRes =>
      if ch == 'H' then Do(Fresh(f).(state := ResH), [Notify(MessageBegin)])
      else if ch == '\r' || ch == '\n' then Do(Fresh(f), [Notify(MessageBegin)])
      else Fail(InvalidConstant)
    case ResH => Expect(f, ch == 'T', Strict, ResHT)
    case ResHT => Expect(f, ch == 'T', Strict, ResHTT)
    case ResHTT => Expect(f, ch == 'P', Strict, ResHTTP)
    case ResHTTP => Expect(f, ch == '/', Strict, ResHttpMajor)
    case ResHttpMajor =>
      if IsNum(ch) then To(f.(m := f.m.(major := Digit(ch))), ResHttpDot) else Fail(InvalidVersion)
    case ResHttpDot => Expect(f, ch == '.', InvalidVersion, ResHttpMinor)
    case ResHttpMinor =>
      if IsNum(ch) then To(f.(m := f.m.(minor := Digit(ch))), ResHttpEnd) else Fail(InvalidVersion)
    case ResHttpEnd => Expect(f, ch == ' ', InvalidVersion, ResFirstStatusCode)
    case ResFirstStatusCode =>
      if IsNum(ch) then To(f.(m := f.m.(statusCode := Digit(ch))), ResStatusCode)
      else if ch == ' ' then Do(f, []) else Fail(InvalidStatus)
    case ResStatusCode => ResStatusCodeStep(f, ch)
    case ResStatusStart => ResStatusStartStep(f, ch)
    case ResStatus =>
      if ch == '\r' then Do(f.(state := ResLineAlmostDone), [Flush(Status, false)])
      else if ch == '\n' then Do(f.(state := HeaderFieldStart), [Flush(Status, false)])
      else Do(f, [])
    case ResLineAlmostDone => Expect(f, ch == '\n', Strict, HeaderFieldStart)
    case _ => Fail(InvalidInternalState)
  }

  predicate IsStatusState(s: State) {
    || s.StartRes? || s.ResH? || s.ResHT? || s.ResHTT? || s.ResHTTP? || s.ResHttpMajor? || s.ResHttpDot?
    || s.ResHttpMinor? || s.ResHttpEnd? || s.ResFirstStatusCode? || s.ResStatusCode? || s.ResStatusStart?
    || s.ResStatus? || s.ResLineAlmostDone?
  }

  // ----- request line -----

  const GET: nat := 1
  const HEAD: nat := 2
  const POST: nat := 3
  const PUT: nat := 4
  const CONNECT: nat := 5

  /** The table `method_strings`, indexed by `enum http_method`. */
  function MethodString(verb: nat): string {
    match verb
    case 0 => "DELETE" case 1 => "GET" case 2 => "HEAD" case 3 => "POST" case 4 => "PUT" case 5 => "CONNECT"
    case 6 => "OPTIONS" case 7 => "TRACE" case 8 => "COPY" case 9 => "LOCK" case 10 => "MKCOL" case 11 => "MOVE"
    case 12 => "PROPFIND" case 13 => "PROPPATCH" case 14 => "SEARCH" case 15 => "UNLOCK" case 16 => "BIND"
    case 17 => "REBIND" case 18 => "UNBIND" case 19 => "ACL" case 20 => "REPORT" case 21 => "MKACTIVITY"
    case 22 => "CHECKOUT" case 23 => "MERGE" case 24 => "M-SEARCH" case 25 => "NOTIFY" case 26 => "SUBSCRIBE"
    case 27 => "UNSUBSCRIBE" case 28 => "PATCH" case 29 => "PURGE" case 30 => "MKCALENDAR" case 31 => "LINK"
    case 32 => "UNLINK" case _ => ""
  }

  /** The method first guessed from the first letter of a request. */
  function FirstMethod(ch: char): Option<nat> {
    match ch
    case 'A' => Some(19) case 'B' => Some(16) case 'C' => Some(5) case 'D' => Some(0) case 'G' => Some(1)
    case 'H' => Some(2) case 'L' => Some(9) case 'M' => Some(10) case 'N' => Some(25) case 'O' => Some(6)
    case 'P' => Some(3) case 'R' => Some(20) case 'S' => Some(26) case 'T' => Some(7) case 'U' => Some(15)
    case _ => None
  }

  /** The method guessed instead when byte `pos` of the current guess does not match. */
  function OtherMethod(verb: nat, pos: nat, ch: char): Option<nat> {
    match (verb, pos, ch)
    case (3, 1, 'U') => Some(4)
    case (3, 1, 'A') => Some(28)
    case (3, 1, 'R') => Some(12)
    case (4, 2, 'R') => Some(29)
    case (5, 1, 'H') => Some(22)
    case (5, 2, 'P') => Some(8)
    case (10, 1, 'O') => Some(11)
    case (10, 1, 'E') => Some(23)
    case (10, 1, '-') => Some(24)
    case (10, 2, 'A') => Some(21)
    case (10, 3, 'A') => Some(30)
    case (26, 1, 'E') => Some(14)
    case (20, 2, 'B') => Some(17)
    case (12, 4, 'P') => Some(13)
    case (9, 1, 'I') => Some(31)
    case (15, 2, 'S') => Some(27)
    case (15, 2, 'B') => Some(18)
    case (15, 3, 'I') => Some(32)
    case _ => None
  }

  function StartReqStep(f: Fields, ch: char): Outcome {
    if ch == '\r' || ch == '\n' then Do(f, [])
    else if !IsAlpha(ch) then Fail(InvalidMethod)
    else match FirstMethod(ch)
      case None => Fail(InvalidMethod)
      case Some(v) =>
        var g := Fresh(f);
        Do(g.(state := ReqMethod, index := 1, m := g.m.(verb := v)), [Notify(MessageBegin)])
  }

  function ReqMethodStep(f: Fields, ch: char): Outcome {
    var word := MethodString(f.m.verb);
    if ch == '\0' then Fail(InvalidMethod)
    else if ch == ' ' && f.index == |word| then Do(f.(state := ReqSpacesBeforeUrl, index := f.index + 1), [])
    else if f.index < |word| && ch == word[f.index] then Do(f.(index := f.index + 1), [])
    else if 'A' <= ch <= 'Z' || ch == '-' then
      match OtherMethod(f.m.verb, f.index, ch)
      case None => Fail(InvalidMethod)
      case Some(v) => Do(f.(index := f.index + 1, m := f.m.(verb := v)), [])
    else Fail(InvalidMethod)
  }

  function UrlStep(f: Fields, s: State, ch: char, acts: seq<Act>): Outcome {
    var t := ParseUrlChar(s, ch);
    if t.Dead? then Fail(InvalidUrl) else Do(f.(state := t), acts)
  }

  /** A byte of the URL in a state that the request line may not leave. */
  function UrlStartStep(f: Fields, ch: char): Outcome {
    if ch == ' ' || ch == '\r' || ch == '\n' then Fail(InvalidUrl) else UrlStep(f, f.state, ch, [])
  }

  /** A byte of the URL in a state that may end the URL. */
  function UrlRestStep(f: Fields, ch: char): Outcome {
    if ch == ' ' then Do(f.(state := ReqHttpStart), [Flush(Url, false)])
    else if ch == '\r' then Do(f.(m := f.m.(major := 0, minor := 9), state := ReqLineAlmostDone), [Flush(Url, false)])
    else if ch == '\n' then Do(f.(m := f.m.(major := 0, minor := 9), state := HeaderFieldStart), [Flush(Url, false)])
    else UrlStep(f, f.state, ch, [])
  }

  function RequestStep(f: Fields, ch: char): Outcome {
    match f.state
    case StartReqOrRes =>
      if ch == '\r' || ch == '\n' then Do(f, [])
      else if ch == 'H' then Do(Fresh(f).(state := ResOrRespH), [Notify(MessageBegin)])
      else StartReqStep(f.(m := f.m.(kind := Request), state := StartReq), ch)
    case ResOrRespH =>
      if ch == 'T' then To(f.(m := f.m.(kind := Response)), ResHT)
      else if ch == 'E' then Do(f.(state := ReqMethod, index := 2, m := f.m.(kind := Request, verb := HEAD)), [])
      else Fail(InvalidConstant)
    case StartReq => StartReqStep(f, ch)
    case ReqMethod => ReqMethodStep(f, ch)
    case ReqSpacesBeforeUrl =>
      if ch == ' ' then Do(f, [])
      else UrlStep(f, if f.m.verb == CONNECT then ReqServerStart else f.state, ch, [Mark(Url)])
    case ReqSchema => UrlStartStep(f, ch)
    case ReqSchemaSlash => UrlStartStep(f, ch)
    case ReqSchemaSlashSlash => UrlStartStep(f, ch)
    case ReqServerStart => UrlStartStep(f, ch)
    case ReqServer => UrlRestStep(f, ch)
    case ReqServerWithAt => UrlRestStep(f, ch)
    case ReqPath => UrlRestStep(f, ch)
    case ReqQueryStringStart => UrlRestStep(f, ch)
    case ReqQueryString => UrlRestStep(f, ch)
    case ReqFragmentStart => UrlRestStep(f, ch)
    case ReqFragment => UrlRestStep(f, ch)
    case _ => RequestVersionStep(f, ch)
  }

  function RequestVersionStep(f: Fields, ch: char): Outcome {
    match f.state
    case ReqHttpStart =>
      if ch == 'H' then To(f, ReqHttpH) else if ch == ' ' then Do(f, []) else Fail(InvalidConstant)
    case ReqHttpH => Expect(f, ch == 'T', Strict, ReqHttpHT)
    case ReqHttpHT => Expect(f, ch == 'T', Strict, ReqHttpHTT)
    case ReqHttpHTT => Expect(f, ch == 'P', Strict, ReqHttpHTTP)
    case ReqHttpHTTP => Expect(f, ch == '/', Strict, ReqHttpMajor)
    case ReqHttpMajor =>
      if IsNum(ch) then To(f.(m := f.m.(major := Digit(ch))), ReqHttpDot) else Fail(InvalidVersion)
    case ReqHttpDot => Expect(f, ch == '.', InvalidVersion, ReqHttpMinor)
    case ReqHttpMinor =>
      if IsNum(ch) then To(f.(m := f.m.(minor := Digit(ch))), ReqHttpEnd) else Fail(InvalidVersion)
    case ReqHttpEnd =>
      if ch == '\r' then To(f, ReqLineAlmostDone)
      else if ch == '\n' then To(f, HeaderFieldStart) else Fail(InvalidVersion)
    case ReqLineAlmostDone => Expect(f, ch == '\n', LfExpected, HeaderFieldStart)
    case _ => Fail(InvalidInternalState)
  }

  // ----- the whole step -----

  function Transition(cfg: Config, f: Fields, ch: char): Outcome
  {
    if f.state.Dead? then
      if ch == '\r' || ch == '\n' then Do(f, []) else Fail(ClosedConnection)
    else if IsHeaderState(f.state) then HeaderStep(cfg, f, ch)
    else if IsBodyState(f.state) then BodyStep(f, ch)
    else if IsStatusState(f.state) then StatusStep(f, ch)
    else RequestStep(f, ch)
  }
}
