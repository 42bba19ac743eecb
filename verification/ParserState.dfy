/** The data of the HTTP parser: `struct http_parser` without its byte counter, and
    what one byte may make the parser do. */
module ParserState {

  const HTTP_MAX_HEADER_SIZE: nat := 80 * 1024
  const ULLONG_MAX: nat := 0xFFFF_FFFF_FFFF_FFFF

  datatype MessageType = Request | Response | Both

  datatype State =
    | Dead
    | StartReqOrRes | ResOrRespH
    | StartRes | ResH | ResHT | ResHTT | ResHTTP
    | ResHttpMajor | ResHttpDot | ResHttpMinor | ResHttpEnd
    | ResFirstStatusCode | ResStatusCode | ResStatusStart | ResStatus | ResLineAlmostDone
    | StartReq | ReqMethod | ReqSpacesBeforeUrl
    | ReqSchema | ReqSchemaSlash | ReqSchemaSlashSlash
    | ReqServerStart | ReqServer | ReqServerWithAt
    | ReqPath | ReqQueryStringStart | ReqQueryString | ReqFragmentStart | ReqFragment
    | ReqHttpStart | ReqHttpH | ReqHttpHT | ReqHttpHTT | ReqHttpHTTP
    | ReqHttpMajor | ReqHttpDot | ReqHttpMinor | ReqHttpEnd | ReqLineAlmostDone
    | HeaderFieldStart | HeaderField
    | HeaderValueDiscardWs | HeaderValueDiscardWsAlmostDone | HeaderValueDiscardLws
    | HeaderValueStart | HeaderValue | HeaderValueLws | HeaderAlmostDone
    | ChunkSizeStart | ChunkSize | ChunkParameters | ChunkSizeAlmostDone
    | HeadersAlmostDone | HeadersDone
    | ChunkData | ChunkDataAlmostDone | ChunkDataDone
    | BodyIdentity | BodyIdentityEof
    | MessageDone

  /** States up to `HeadersDone`, whose bytes count against the header size limit. */
  predicate ParsingHeader(s: State) {
    && !s.ChunkData? && !s.ChunkDataAlmostDone? && !s.ChunkDataDone?
    && !s.BodyIdentity? && !s.BodyIdentityEof? && !s.MessageDone?
  }

  datatype HeaderState =
    | General | C | CO | CON
    | MatchingConnection | MatchingProxyConnection | MatchingContentLength
    | MatchingTransferEncoding | MatchingUpgrade
    | Connection | ContentLength | TransferEncoding | Upgrade
    | MatchingTransferEncodingChunked | MatchingConnectionTokenStart | MatchingConnectionKeepAlive
    | MatchingConnectionClose | MatchingConnectionUpgrade | MatchingConnectionToken
    | TransferEncodingChunked | ConnectionKeepAlive | ConnectionClose | ConnectionUpgrade

  /** The bits of `http_parser.flags`. */
  datatype Flags = Flags(chunked: bool, keepAlive: bool, close: bool, connUpgrade: bool,
                         trailing: bool, upgrade: bool, skipBody: bool, contentLength: bool)

  const NO_FLAGS := Flags(false, false, false, false, false, false, false, false)

  datatype Errno =
    | Ok | InvalidEofState | HeaderOverflow | ClosedConnection | InvalidVersion | InvalidStatus | InvalidMethod
    | InvalidUrl | LfExpected | InvalidHeaderToken | InvalidContentLength | UnexpectedContentLength
    | InvalidChunkSize | InvalidConstant | InvalidInternalState | Strict
    | AssertFailure  // a C `assert` that does not hold

  /** The part of `struct http_parser` that describes the message being read. */
  datatype Message = Message(kind: MessageType, flags: Flags, major: nat, minor: nat, statusCode: nat,
                             verb: nat, upgrade: bool)

  /** `struct http_parser` without `nread` and `http_errno`, which `Machine` and `HttpParser`
      hold apart, and without `lenient_http_headers`, which the parser never writes. */
  datatype Fields = Fields(state: State, hstate: HeaderState, index: nat, length: nat, m: Message)

  function InitFields(kind: MessageType): Fields {
    Fields(match kind { case Request => StartReq case Response => StartRes case Both => StartReqOrRes },
           General, 0, 0, Message(kind, NO_FLAGS, 0, 0, 0, 0, false))
  }

  /** What `on_headers_complete` returns: 0, 1 or 2.  The other callbacks return 0. */
  datatype Answer = Continue | NoBody | NoBodyNoMore

  datatype Config = Config(lenient: bool, answer: Answer)

  datatype Kind = Field | Value | Url | Body | Status

  datatype Note =
    | MessageBegin
    | HeadersComplete(status: nat)
    | MessageComplete(keepAlive: bool)
    | ChunkHeader(length: nat)
    | ChunkComplete

  /** The parser's macros: `MARK`, `CALLBACK_DATA` (`whole` takes the current byte too, line 1849)
      and `CALLBACK_NOTIFY`. */
  datatype Act = Mark(kind: Kind) | Flush(kind: Kind, whole: bool) | Notify(note: Note)

  /** What one byte does.  `Out`: the new fields, the macros run in order, whether `nread` is
      zeroed, and whether the call returns here with the byte consumed.  `Fail`: `goto error`. */
  datatype Outcome = Out(f: Fields, acts: seq<Act>, reset: bool, exit: bool) | Fail(errno: Errno)

  function To(f: Fields, s: State): Outcome { Out(f.(state := s), [], false, false) }

  function Do(f: Fields, acts: seq<Act>): Outcome { Out(f, acts, false, false) }

  function Expect(f: Fields, ok: bool, e: Errno, s: State): Outcome {
    if ok then To(f, s) else Fail(e)
  }

  function SetFlags(f: Fields, flags: Flags): Fields { f.(m := f.m.(flags := flags)) }

  function MessageNeedsEof(f: Fields): bool {
    && !f.m.kind.Request?
    && !(f.m.statusCode / 100 == 1 || f.m.statusCode == 204 || f.m.statusCode == 304 || f.m.flags.skipBody)
    && !(f.m.flags.chunked || f.length != ULLONG_MAX)
  }

  function ShouldKeepAlive(f: Fields): bool {
    && (if f.m.major > 0 && f.m.minor > 0 then !f.m.flags.close else f.m.flags.keepAlive)
    && !MessageNeedsEof(f)
  }

  function StartState(f: Fields): State { if f.m.kind.Request? then StartReq else StartRes }

  function NewMessage(f: Fields): State { if ShouldKeepAlive(f) then StartState(f) else Dead }
}
