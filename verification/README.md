# asio_http: a verified model

This project models the parts of the asio_http client whose behaviour is hard to see from any one
function, and proves what they promise.

* **The incremental HTTP parser** (`http_parser.c`, strict mode). `ByteTransition` says what one byte
  does, with every `goto reexecute` followed to its end. `StepMachine` is the reference: every byte is
  a call of its own, and neighbouring data fragments are joined. `HttpParser` is the parser object with
  its marks, its jumps (`memchr` in header values, `content_length` in bodies) and its 32-bit header
  counter; `Execute` is proved to do what `Runs.CallFold` says on every buffer, and `CallFold` to be the
  reference wherever header values hold only bytes that may stand there. From there the other modules
  prove what happens to whole texts, however they are cut into calls: header names, lengths, the words of
  `Transfer-Encoding` and `Connection`, chunked bodies, bodies that run to the end of the connection,
  responses back to back, response heads with any line ends and what follows each of them, whole responses
  framed by a length or in chunks, and requests. `RequestLines` says which request lines are
  accepted, and `Refusals` and `CharTables` the same of status lines, names, CRs without their LF, and the
  character classes.
* **The client's side of the callbacks** (`http_client_connection.h`, `http_content.h`): the header
  assembler, the request printer, `on_read`, the print/parse round trip, a request with the reads that bring
  its answer (`Exchange`), and the callback slot with the result it holds, over every history that the
  scheduler gives it.
* **The scheduler** (`request_manager.cpp`, `connection_pool.cpp`, `http_content.h`,
  `http_error_handling.cpp`): a transition system whose events are the users' calls, the handlers
  posted to the strands, and whatever ends a request on a connection. The objects are proved against
  its functions, and its invariant, its results and its termination hold for every run. `PoolEffects` and
  `SchedulerEffects` say what each event does to the entries and the connections themselves.
* **The URL splitters** (`url.cpp`, `http_parser_parse_url`), with the grammars of what the second accepts, and **the tuple reference count**
  (`tuple_ptr.h`) under every interleaving of atomic accesses.

A buffer is a `string` that holds one `char` per byte. Callbacks return 0, but `on_headers_complete`
returns 0, 1 or 2 as `Config.answer` says. A C `assert` is the outcome `AssertFailure`, which is proved
never to happen. Buffers are at most `MAX_CALL` bytes long, since the parser adds a run of bytes to a
32-bit counter at once; the client reads 1024 bytes at a time.

## Where the code does not do what one might expect

* `url(location)` throws on a `Location` that is no URL, such as a path (`ErrorHandling.DecisionExact`,
  `Url.ParseExact`, `ErrorHandling.PathIsNoUrl`). The exception leaves the posted handler: the entry stays
  in progress for good and holds a place. Every handler is invoked exactly once, and entries and
  connections stay in bijection, if and only if this never happens in a run (`SchedulerResults.ExactlyOnce`,
  `SchedulerResults.Ownership`; `SchedulerRedirects.StrandedRun` is a run in which it does). Once it has
  happened `max_parallel_requests` times, waiting requests are never started
  (`SchedulerRedirects.StarvesAt`).
* `cancel_requests` runs to the end of the token index, so it also cancels greater tokens
  (`SchedulerResults.CancelEffect`). A cancelled request is tried again if and only if its report redirects
  to a URL and an attempt is left (`SchedulerRedirects.CancelledExact`; `SchedulerRedirects.CancelledRun`
  is such a run).
* A general header value is checked for invalid characters only where a call or a jump starts in it. Two
  cuts of a text agree as long as one call and single bytes agree on such a character (`Calls.Steady`);
  otherwise they differ (`Calls.SplitDependence`), as on `A:ab` followed by the byte 1
  (`ControlBytes.ExampleUnsteady`). Up to a plain value they agree if and only if the parser is lenient, or
  the value has no second byte, or that one is a control byte, or none is from there on
  (`ControlBytes.SteadyExact`).
* `nread` may exceed the header bytes read: by at most one for each call since it was reset, and never by
  more than those bytes. So the limit of 80 KiB never stops a head of up to 40 KiB, however it is cut
  (`HttpParser.HttpParser.Execute`, `Calls.FedIsFold`).
* The path of a URL may hold any byte but `?`, a fragment with its `#` among them, and is printed as it is.
  The parser reads the request back if and only if the path holds only the characters of a URL, `?` and `#`
  (`RequestTarget.UrlRequestAnySplit`): a blank, a control byte or a byte beyond ASCII is not escaped
  (`RequestTarget.TwoPaths`).
* Not every item of a `Connection` list is looked at. One that is looked at hides the next if it is cut
  short, as in `c,close`, or empty in the first place; it hides all that follow if it is empty, or starts
  with no token byte, in a later place (`ConnectionOptions.ItemLookedAt`). A first item
  whose first byte is no option's first letter is passed over and hides nothing: `(,close` closes, but
  `close` behind a NUL does not, as it would later in a list (`ConnectionOptions.FirstPlace`). The flags are those
  of the items looked at (`ConnectionOptions.ListExact`), so no option is lost if and only if each one that
  the list names is that of such an item (`ConnectionOptions.NoneLost`).
* A status line may have any number of blanks before its code, which may be of one to any number of digits up
  to 999 in value, and none of RFC 7230's three (`Refusals.StatusLineExact`).
* A chunk size counts bytes from 0x80 up as the digit 0 (`CharTables.HexDigits`). `start_res` notifies the start
  of a message for every CR or LF before it (`ResponseHead.ReadLineEnds`). The printed request line has no
  query. A URL with an explicit port 0 under `http` or `https` does not survive printing (`Url.PortZeroLost`).
* The parser is never told about the end of the input. The heads after which it needs that are exactly
  those that announce neither chunks nor a length, with a status that has a body, and not in answer to
  HEAD (`EofBody.EofExact`). No byte completes such a response (`EofBody.NeverCompleted`), `on_read` answers
  with the error of the socket when it ends (`ClientConnection.Connection.OnRead`), and the request is tried
  again as long as an attempt is left, or its handler is given that error (`SchedulerRedirects.EofExact`).
* `http_content` clears `m_result` when it runs the callback, not when a request starts. A read that brings
  a further response along with the one waited for leaves its status and headers there, and the next
  request on the connection is given them if it ends before a head of its own
  (`SecondHead.HeadOfAnother`), and redirected by them (`SecondHead.RedirectedByAnother`). Every callback is
  given what came for its own request if and only if none runs before its own head while one that nobody
  waited for is left over (`HttpContent.OwnExact`).

## Model

| member | source | states |
|---|---|---|
| ParserInvariant.TransitionKept | http_parser/http_parser.c:706-1996 | from every state that satisfies the invariant, every byte keeps it or is refused with a parse error: no `assert` fails, no state is unknown, the 7-bit `index` stays at most 16, body states hold a non-zero length that is not the sentinel |
| ParserInvariant.LengthDigitExact | http_parser/http_parser.c:1495-1520 | the 64-bit step of `Content-Length` is exact on every digit that is let through, and lets through exactly those with a result up to 2^64 - 7 |
| ParserInvariant.ChunkDigitExact | http_parser/http_parser.c:1888-1923 | the same for a chunk size, with results up to 2^64 - 17 |
| CallRefinement.TransitionKeys | http_parser/http_parser.c:133-139 | the macros of every byte respect the marks: at most one is live, and the state says which, so the `assert` at the end of a call holds |
| CallRefinement.TogetherAll | http_parser/http_parser.c:102-145 | orderly macros make the same joined callbacks in a long call with its marks as in a call for the one byte |
| LogInvariant.TransitionEnding | http_parser/http_parser.c:125-145 | how the callbacks of every byte end: no value fragment is ever joined onto an empty header value |
| Refinement.ByteRefines | http_parser/http_parser.c:674-697 | one byte in the middle of a long call has the effect of a call for that byte alone: fields, joined callbacks, errors, exit |
| Refinement.StepKept | http_parser/http_parser.c:699-1997 | the reference machine keeps the parser invariant and the log invariant |
| Runs.GeneralJump | http_parser/http_parser.c:1465-1487 | jumping over a general header value to the next line end keeps the call in step with `CallFold`, mark, log and count |
| Runs.CallIsFold | http_parser/http_parser.c:1457-1488 | a call with its jumps does what the single bytes do, on every buffer whose header values hold only bytes that may stand there |
| Runs.BodyRun | http_parser/http_parser.c:1820-1861 | jumping through a body or a chunk is the run of its single bytes |
| HttpParser.MemChr | http_parser/http_parser.c:1474-1475 | the first place of a character within a limit, or none |
| HttpParser.NextLineEnd | http_parser/http_parser.c:1471-1484 | the jump ends at the first CR or LF, or at the end of the buffer when there is none within the limit |
| HttpParser.HttpParser.constructor | http_parser/http_parser.c:2083-2091 | a new parser satisfies the invariant |
| HttpParser.HttpParser.CountHeader | http_parser/http_parser.c:151-158 | the 32-bit header counter, and the overflow error beyond 80 KiB |
| HttpParser.HttpParser.HeaderName | http_parser/http_parser.c:1228-1355 | the loop over a header name does what the single bytes do |
| HttpParser.HttpParser.HeaderValue | http_parser/http_parser.c:1436-1625 | the loop over a header value, with its jump, does what the single bytes do, or the size limit stops it and the exact count would not have fitted |
| HttpParser.HttpParser.BodyBytes | http_parser/http_parser.c:1953-1974 | the jump inside a body or a chunk does what the single bytes do |
| HttpParser.HttpParser.Leftovers | http_parser/http_parser.c:2009-2021 | the callbacks for the mark left over at the end of a call |
| HttpParser.HttpParser.AtEof | http_parser/http_parser.c:652-671 | an empty buffer ends a body that runs to the end of the input, is ignored by a closed parser, and is an error elsewhere |
| HttpParser.HttpParser.Execute | http_parser/http_parser.c:631-2029 | a call does what `CallFold` says on every buffer, in fields, joined callbacks, error, exit and bytes consumed, or overflows where the exact count leaves no room; the invariant holds after it; header bytes read are at most `nread`, `nread` at most 80 KiB and at most twice those bytes, and the excess is at most one behind a reset, and else grows by at most one |
| HttpParser.FeedAll | http_parser/http_parser.c:631-2029 | an object that is fed pieces one after the other makes a sequence of calls as all the theorems over splits speak of |
| Calls.FedIsFold | http_parser/http_parser.c:631-2029 | any sequence of non-empty calls does what the reference does over all the bytes, unless the limit stops it, where the exact count since the last reset leaves less than one byte of room for each call since then and is more than half the limit; `nread` exceeds the exact count by at most those calls |
| Calls.MostCallsAll | http_parser/http_parser.c:1779-1779 | the most calls between two resets, by which the room is counted, are no more than all calls |
| Calls.AnyCut | http_parser/http_parser.c:1457-1488 | any sequence of calls over any bytes does what one call over all of them does, or is stopped by a byte of a header value that the one call does not look at |
| Calls.SplitInvariance | http_parser/http_parser.c:631-2029 | two ways to cut the same bytes into calls end with the same error and exit, the same fields and the same joined callbacks, unless single bytes refuse an invalid header character that one call does not; `nread` differs by at most one per call since the last reset |
| Calls.SplitDependence | http_parser/http_parser.c:1457-1488 | in that case byte by byte and one call do differ |
| Calls.SplitShort | http_parser/http_parser.c:631-2029 | for texts without control bytes, or a lenient parser, and of up to half the limit or as much as the calls leave room for, any two cuts agree without further conditions |
| ControlBytes.SteadyExact | http_parser/http_parser.c:1457-1488 | up to a plain header's value, after any text, one call and single bytes agree if and only if the parser is lenient, or the value has no second byte, or that one is a control byte, or none is from there on |
| ControlBytes.HeaderUnsteady | http_parser/http_parser.c:1457-1488 | every response head with a control byte behind the first two bytes of a plain header's value is such a text |
| ControlBytes.ExampleUnsteady | http_parser/http_parser.c:1457-1488 | one such text, written out |
| ControlBytes.CutShows | http_parser/http_parser.c:1457-1488 | on such a text two parser objects fed differently end with different errors |
| HeaderName.MatchedStep | http_parser/http_parser.c:1238-1332 | the name matcher stands inside a word exactly when the lower-cased bytes read so far are a prefix of it, and in the general state when they start none |
| HeaderName.ReadNameColon | http_parser/http_parser.c:1178-1351 | every name is read up to its colon, where the state is a framing header's if and only if the lower-cased name is that header's |
| Splits.NameAnySplit | http_parser/http_parser.c:1178-1351 | the same for the parser object over any split |
| Lengths.ReadLength | http_parser/http_parser.c:1396-1409 | a first `Content-Length` is accepted if and only if it is digits, with spaces after the first, of a number up to 2^64 - 7; the stored length is exact and never the sentinel |
| Splits.LengthAnySplit | http_parser/http_parser.c:1495-1520 | the same for the parser object over any split |
| Lengths.ReadSize | http_parser/http_parser.c:1872-1923 | a chunk size of any bytes is accepted if and only if all are digits to the parser and their number is at most 2^64 - 17, and is stored exactly |
| Splits.SizeAnySplit | http_parser/http_parser.c:1872-1923 | the same for the parser object over any split |
| HeaderLine.ReadFolds | http_parser/http_parser.c:1638-1665 | a folded line joins onto the value of its header |
| HeaderLine.ReadLeads | http_parser/http_parser.c:1667-1703 | white space before a value is skipped, over line ends too |
| HeaderLine.ReadLines | http_parser/http_parser.c:1178-1703 | header lines that frame nothing, empty and folded values among them, make one field and one value callback each and leave the message fields alone |
| Chunked.ReadChunk | http_parser/http_parser.c:1872-1990 | a chunk in any spelling of its size and with any extension gives its header, its bytes and its end, and the parser is at the next chunk with `nread` zeroed |
| Chunked.ReadChunked | http_parser/http_parser.c:1705-1714 | a whole chunked body gives the pieces in order, one header and end per chunk with the last one, the trailers, and one message completion |
| Chunked.ChunkedAnySplit | http_parser/http_parser.c:1774-1797 | the same for every split into calls: the delivered bytes are the concatenation of the pieces |
| Chunked.EncodeGood | http_parser/http_parser.c:221-230 | every list of non-empty pieces has a chunked form that the two rows above apply to |
| HeaderWords.ReadEncoding | http_parser/http_parser.c:1382-1389 | a `Transfer-Encoding` value sets the chunked flag at the end of its line if and only if it is "chunked" in any case with only spaces behind it |
| ConnectionOptions.ReadConnection | http_parser/http_parser.c:1533-1612 | every `Connection` value is read, and at the end of its line has set the flags of exactly the options of its list, and no others |
| ConnectionOptions.ListExact | http_parser/http_parser.c:1533-1612 | an option is among them if and only if an item that is looked at is that option |
| ConnectionOptions.ItemLookedAt | http_parser/http_parser.c:1411-1430 | for every value and every item behind the first, the matcher stands where an option may start if and only if no item looked at before ends the list, and the one before does not hide it |
| ConnectionOptions.NoneLost | http_parser/http_parser.c:1563-1569 | all options that the items name are set if and only if each of them is that of an item looked at |
| ConnectionOptions.TidyExact | http_parser/http_parser.c:1563-1569 | of a value in which no item but the last ends the list or hides another, the options set are those that its items are |
| ConnectionOptions.FirstPlace | http_parser/http_parser.c:1411-1430 | an item that ends the list elsewhere does not in the first place, and a blank byte elsewhere loses its option there |
| ConnectionOptions.CutShortLoses | http_parser/http_parser.c:1563-1569 | `c,close` does not set the flag that `close` sets |
| IdentityBody.LastByte | http_parser/http_parser.c:1820-1861 | the last byte of a body of known length, and only it, completes the message |
| Replies.ReadReply | http_parser/http_parser.c:1774-1818 | a whole response, framed by its length or in chunks, makes the callbacks of its head and of its body and one message completion, by its last byte |
| Replies.BytesReply | http_parser/http_parser.c:1802-1804 | every body has a response by its length that the row above applies to |
| Replies.ChunksReply | http_parser/http_parser.c:1794-1796 | every list of non-empty pieces has one in chunks |
| Replies.RepliesAnySplit | http_parser/http_parser.c:631-2029 | any number of such responses on one connection, over any split: all heads and bodies arrive in order, one message each, and the limit does not matter while each head with the trailer before it is at most 40 KiB, or leaves a byte for each call since the last reset |
| BackToBack.TransitionBlind | http_parser/http_parser.c:755-776 | no byte of a response makes the parser read a field that an earlier message left and this one has not written |
| BackToBack.EarlyTransition | http_parser/http_parser.c:1774-1818 | a message is completed only after `nread` was zeroed at the end of its head |
| BackToBack.FoldShadow | http_parser/http_parser.c:453-453 | a used parser and a fresh one behave alike on the same bytes, whatever the first holds in dead fields |
| BackToBack.ManyResponses | http_parser/http_parser.c:1863-1870 | the callbacks for keep-alive responses on one connection are those of each on a connection of its own, one after the other |
| BackToBack.ManyFit | http_parser/http_parser.c:151-158 | they fit into the header limit as soon as each head fits with the trailer before it |
| BackToBack.ResponsesAnySplit | http_parser/http_parser.c:2033-2072 | both for every split into calls, whatever their number where heads are at most 40 KiB |
| HeaderAssembly.TrimmedLength | implementation/interface/asio_http/internal/http_client_connection.h:72-72 | the length of a value without the white space at its end |
| HeaderAssembly.TrimExact | implementation/interface/asio_http/internal/http_client_connection.h:72-72 | what is taken off the end are line ends, tabs and blanks, all of them, and nothing else |
| HeaderAssembly.RequestBuffers.PushCurrentHeader | implementation/interface/asio_http/internal/http_client_connection.h:69-76 | the current header joins the list with its value trimmed at the end, and is cleared |
| HeaderAssembly.RequestBuffers.OnHeaderField | implementation/interface/asio_http/internal/http_client_connection.h:293-304 | the new state of the buffers |
| HeaderAssembly.RequestBuffers.OnHeaderValue | implementation/interface/asio_http/internal/http_client_connection.h:306-317 | the new state of the buffers |
| HeaderAssembly.RequestBuffers.HeadersComplete | implementation/interface/asio_http/internal/http_client_connection.h:270-287 | the last header joins the list, which is handed on |
| HeaderAssembly.AssembleJoined | implementation/interface/asio_http/internal/http_client_connection.h:293-317 | the assembled headers do not depend on how the callbacks were cut up |
| HeaderAssembly.HeadGiven | implementation/interface/asio_http/internal/http_client_connection.h:270-287 | the list handed on is every name with its value trimmed at the end, in order, empty values too |
| ResponseHead.AnyLine | http_parser/http_parser.c:1357-1454 | any header line, framing ones too, either is refused or makes one field and one value callback, and records chunks, a length, an upgrade and the options of its list if and only if it announces them; it is refused if and only if it announces a length that is none, or a second one |
| ResponseHead.ReadLineEnds | http_parser/http_parser.c:755-776 | every CR or LF before a response notifies the start of a message, and changes nothing that the status line does not set |
| ResponseHead.ReadStatusLine | http_parser/http_parser.c:755-915 | a status line sets version and status and makes one status callback, for an empty reason too |
| ResponseHead.ReadHead | http_parser/http_parser.c:755-1818 | the callbacks for any response head that the parser accepts |
| HeadEnds.EndTransition | http_parser/http_parser.c:1774-1818 | the last byte of a head, by the fields: whether chunks, a body, a body to the end of the connection or nothing follows, which callbacks it makes, and when the call returns early |
| HeadEnds.ReadWhole | http_parser/http_parser.c:755-1818 | what the fields hold there, by the lines |
| HeadEnds.HeadExact | http_parser/http_parser.c:1774-1818 | a head is accepted if and only if it announces at most one length, a good one, and not together with chunks; then what follows is chunks, a body of that length, a body to the end of the connection, or nothing, each if and only if the lines, the status and the answer of the client say so, and in answer to HEAD always nothing; the header count starts over; where nothing follows, one message completion, and the parser starts over or is closed by the version and the options |
| HeadEnds.RequestEndTransition | http_parser/http_parser.c:1705-1818 | the last byte of a request's head, by the fields: a body follows if and only if chunks or a length but zero are announced and it is no tunnel; when it ends there, whether the call returns early, and whether the parser starts over or is closed |
| EofBody.EofExact | http_parser/http_parser.c:1774-1818 | of the response heads that the parser accepts, exactly those lead to a body up to the end of the input that announce neither chunks nor a length, have a status with a body, and do not answer HEAD |
| EofBody.PlainUnframed | http_parser/http_parser.c:2033-2052 | every head whose headers frame nothing is accepted, so there are such heads |
| EofBody.EofStays | http_parser/http_parser.c:1857-1861 | there, no data ends the message: it is all body, and the parser stays |
| EofBody.EofCalled | http_parser/http_parser.c:1857-1861 | the same of a call, which takes all of the data |
| EofBody.NeverCompleted | http_parser/http_parser.c:2033-2052 | the same of the whole response, over any split: its body arrives, and no message is ever completed |
| LineFeeds.BareLf | http_parser/http_parser.c:1449-1455 | in every state in which a line of a head may end, a bare LF does what CR LF does |
| LineFeeds.BareLfText | http_parser/http_parser.c:1185-1190 | so any line end of a head may be a bare LF, with the same callbacks, fields and errors |
| LineFeeds.BareCodeText | http_parser/http_parser.c:848-871 | the status line may end behind the digits of its code |
| Refusals.StatusLineExact | http_parser/http_parser.c:755-915 | a status line is accepted if and only if it is a version of one digit before and one behind the dot, a blank or more, a code up to 999, and nothing or a blank and any reason |
| Refusals.NameExact | http_parser/http_parser.c:1178-1355 | what stands before a colon is a name of token characters, or the line is refused |
| Refusals.BareCr | http_parser/http_parser.c:1449-1455 | a CR in a head is refused unless LF follows |
| Refusals.ChunkCr | http_parser/http_parser.c:1936-1990 | behind the bytes of a chunk there must be CR LF, and behind the CR of its head an LF |
| Refusals.ClosedExact | http_parser/http_parser.c:708-716 | behind the last message of a connection line ends are passed over, and anything else is an error |
| CharTables.Letters | http_parser/http_parser.c:409-410 | the letters, by ranges |
| CharTables.Tokens | http_parser/http_parser.c:186-218 | the token characters, listed, and their small letters |
| CharTables.UrlChars | http_parser/http_parser.c:240-275 | the characters of a URL, listed |
| CharTables.ServerChars | http_parser/http_parser.c:410-426 | the characters of a user, a host and an address, listed |
| CharTables.HeaderChars | http_parser/http_parser.c:439-445 | the characters that a header value may not hold |
| CharTables.HexDigits | http_parser/http_parser.c:221-230 | the digits of a chunk size with their values, and bytes from 0x80 up, which are the digit 0 |
| CharTables.Lowered | http_parser/http_parser.c:409-409 | the bit that is set, whatever the byte |
| ClientConnection.Connection.OnRead | implementation/interface/asio_http/internal/http_client_connection.h:212-246 | the buffers hold what the callbacks since the request began assemble to; what is reported or read next, by message state, bytes consumed and socket error; in a body up to the end of the input the message is never done, and the next thing is another read or the socket's error |
| ClientConnection.Connection.WriteHeaders | implementation/interface/asio_http/internal/http_client_connection.h:156-172 | the buffers start afresh, and the printed request is written or a connection to the URL's host and port asked for |
| ClientConnection.Connection.OnConnected | implementation/interface/asio_http/internal/http_client_connection.h:181-191 | the printed request is written, or the error goes up |
| ClientConnection.HeadersAnySplit | implementation/interface/asio_http/internal/http_client_connection.h:69-76 | whatever the read sizes, the list handed on for a response head is its names with their whole values, trimmed, folded lines and empty values included |
| Exchange.TransitionExit | http_parser/http_parser.c:1774-1818 | no byte makes a call return early but one that completes a message |
| Exchange.ReadAll | implementation/interface/asio_http/internal/http_client_connection.h:212-246 | reads one after the other reach the parser as a sequence of calls, until the request is done or the parser reports an error |
| Exchange.PartRead | http_parser/http_parser.c:1774-1818 | over any split of a response head, no message has ended before the last byte, and then one has if and only if nothing follows the head |
| Exchange.Ask | implementation/interface/asio_http/internal/http_client_connection.h:156-287 | a request and the reads that bring the head of its answer, over any split: the list handed on is the head's, the parser reports no error, and the request is done if and only if its method is HEAD, or the head announces no chunks and a length of zero, or no length and has a status without a body; else the client reads on |
| Numbers.DecimalTextValue | implementation/interface/asio_http/internal/http_content.h:101-101 | a printed number is digits, and reads back as the number |
| Numbers.DecimalTextExact | implementation/interface/asio_http/internal/http_content.h:101-101 | and is the only text of digits without needless zeros that does |
| RequestPrinter.PrintRequestHeaders | implementation/interface/asio_http/internal/http_client_connection.h:78-92 | the text of the request line and the headers |
| RequestPrinter.OneRequest | implementation/interface/asio_http/internal/http_client_connection.h:78-92 | one request, written out |
| RoundTrip.ReadRequestLine | http_parser/http_parser.c:917-1176 | the request line gives back the method, the path and version 1.1 |
| RoundTrip.ReadRequest | http_parser/http_parser.c:917-1083 | all bytes of a request but the last leave the message open; the last completes it, and the callbacks are the request's |
| RoundTrip.RequestRoundTrip | implementation/interface/asio_http/internal/http_content.h:97-104 | printing a request and parsing it, over any split, gives back method, path, header list and body with one message |
| RequestTarget.RequestLineExact | http_parser/http_parser.c:1085-1176 | for every path that starts with a slash the printed request line is read back if and only if all its bytes are target bytes |
| RequestTarget.UrlRequestAnySplit | implementation/interface/asio_http/internal/http_client_connection.h:78-92 | the same for the client's whole request for any parsed URL, over any split |
| RequestTarget.TwoPaths | implementation/url.cpp:26-31 | a path with a fragment, which is read back, and one with a blank, which is not |
| RequestLines.MethodExact | http_parser/http_parser.c:917-1010 | a word and a blank are read if and only if the word is one of the 33 methods, which is then held; guesses of the first letters are corrected in time for every one of them, and let through nothing else |
| RequestLines.TargetExact | http_parser/http_parser.c:483-629 | the texts that may be a target, as a grammar: a path or an asterisk with what may follow, or a protocol with its mark and a server; for CONNECT a server at once |
| RequestLines.VersionExact | http_parser/http_parser.c:1113-1176 | the rest of a line is a version of one digit before and one behind the dot, or is refused |
| RequestLines.LineExact | http_parser/http_parser.c:917-1176 | a text is accepted as a request line if and only if it is a method, a blank or more, a target, and nothing or a blank or more and a version; then the parser holds that method and that version, 0.9 for none, and has called back for the begin of a message and for this target |
| EitherKind.EitherExact | http_parser/http_parser.c:718-753 | a parser of both kinds reads what starts with HT as a response, HE or another letter as a request, as a parser of that kind does, and refuses H with anything else behind it |
| Url.MatchesExact | implementation/url.cpp:26-31 | the deterministic cut finds a split that the expression allows whenever there is one |
| Url.LastSplitIs | implementation/url.cpp:26-31 | the greedy choice of the protocol is the last place where the rest matches |
| Url.ParsedShape | implementation/url.cpp:24-54 | what holds of every parsed URL; no protocol could end in its path or query |
| Url.ParseExact | implementation/url.cpp:24-54 | a string is taken as a URL if and only if the expression matches it and the port of the match with the longest protocol fits into 16 bits; then its parts are those of that match, the query with its `?` among them, a slash for no path, and for no port 80, 443 or 0 by the protocol |
| Url.AllParts | implementation/url.cpp:24-54 | one URL with all parts, in which only the first `?` counts |
| Url.UrlRoundTrip | implementation/url.cpp:71-83 | parsing the printed form of a parsed URL gives it back if and only if it is not a port 0 under http or https |
| Url.PortZeroLost | implementation/url.cpp:71-83 | "http://h:0" does not survive printing |
| UrlFields.Forward | http_parser/http_parser.c:483-629 | the URL automaton only moves forward, and enters states between fields by delimiters |
| UrlFields.HostForward | http_parser/http_parser.c:2111-2191 | the same for the host automaton |
| UrlFields.ParserUrl.ParseHost | http_parser/http_parser.c:2193-2273 | the authority is refused, or cut into user, host and port that are apart, in order, and cover it but for delimiters |
| UrlFields.ParserUrl.PortValue | http_parser/http_parser.c:2369-2379 | the port is the decimal value of its digits |
| UrlFields.ParserUrl.Parse | http_parser/http_parser.c:2280-2382 | the fields of an accepted URL are within bounds, disjoint and in order; every other byte is a delimiter; query, fragment, port and user are found at their marks; which URLs are accepted |
| UrlForms.TextExact | http_parser/http_parser.c:2294-2353 | the URL texts of which no byte is refused, as a grammar: empty, a path or an asterisk, or a protocol with its mark, a server without two at signs in a row, and what may follow; for CONNECT the server at once |
| UrlForms.AuthorityExact | http_parser/http_parser.c:2193-2273 | the authorities that are accepted, as a grammar: a user if there is an at sign, then a name or a bracketed address with or without a zone, then a port or none |
| UrlForms.HostPortExact | http_parser/http_parser.c:2111-2191 | the same of what follows the user |
| UrlForms.DecideExact | http_parser/http_parser.c:2356-2382 | a URL is accepted if and only if no byte is refused, a protocol has a host, the server is an authority, for CONNECT there are a host and a port and nothing else, and the port fits into 16 bits |
| ErrorHandling.DecisionExact | implementation/http_error_handling.cpp:40-74 | when a request is retried, redirected or given back, and when the redirect throws, by the error code, the status and the first header named `Location` in any case: it throws if and only if that is not empty and no URL; without such a header there is no redirect |
| ErrorHandling.GetHeaderExact | interface/asio_http/http_request_result.h:24-35 | the value found is that of the first header whose name is the one asked for, letter by letter up to case; without one it is empty |
| ErrorHandling.PathIsNoUrl | implementation/http_error_handling.cpp:19-38 | a location that is a path is no URL |
| SchedulerSteps.RunSubmitKept | implementation/request_manager.cpp:56-61 | inserting a request and starting one keeps the invariant |
| SchedulerSteps.RunWakeupKept | implementation/request_manager.cpp:125-146 | a wake-up spent fills a place, or there was none to fill |
| SchedulerSteps.RunDoneKept | implementation/request_manager.cpp:94-123 | a completion keeps the invariant, whether it retries, redirects, finishes or throws |
| SchedulerSteps.AlwaysFound | implementation/request_manager.cpp:100-102 | the search for the entry of a completed connection always succeeds |
| SchedulerSteps.CancelFromKept | implementation/request_manager.cpp:63-84 | the cancel loop keeps the invariant |
| SchedulerSteps.RunStartKept | implementation/interface/asio_http/internal/http_content.h:79-105 | a connection is started only with an empty callback slot |
| SchedulerSteps.CompleteSlotKept | implementation/interface/asio_http/internal/http_content.h:107-119 | a callback that runs leaves the slot and becomes a posted completion |
| SchedulerSteps.RunKept | implementation/request_manager.cpp:56-146 | the invariant holds after every run |
| SchedulerTermination.EventMeasure | implementation/request_manager.cpp:103-121 | every event but a user's call makes the measure smaller |
| SchedulerTermination.RunBounded | implementation/request_manager.cpp:56-146 | no run is longer than the users' calls pay for |
| SchedulerResults.Bounds | implementation/request_manager.cpp:125-132 | in-progress requests stay within the limit, pending wake-ups are at least the smaller of free places and waiting requests, no request is started more than `max_attempts + 1` times |
| SchedulerResults.AtMostOnce | implementation/request_manager.cpp:86-92 | a handler is invoked at most once, and its request is gone then |
| SchedulerResults.Ownership | implementation/request_manager.cpp:134-140 | after every run, entries in progress and their connections are in bijection, and none of these is idle or dropped, if and only if no redirect threw in it |
| SchedulerResults.BusyFound | implementation/request_manager.cpp:94-102 | every connection in use is in use once and has an entry |
| SchedulerResults.IdleDistinct | implementation/connection_pool.cpp:119-137 | idle connections are distinct, not in use, and under their own host |
| SchedulerResults.DroppedForGood | implementation/connection_pool.cpp:164-180 | a connection that completed with an error is dropped, and in whatever run follows it is not started, at work, reported or idle again |
| SchedulerResults.Conservation | implementation/connection_pool.cpp:119-180 | connections made are those idle, in use and dropped |
| SchedulerResults.CancelEffect | implementation/request_manager.cpp:63-84 | exactly which entries the loop finishes from a place of the index on, and which connections it asks to cancel |
| SchedulerEffects.RunCancelExact | implementation/request_manager.cpp:63-71 | a cancellation has an effect if and only if its token is empty or some entry has exactly this one, and then it is that of the loop from the start; else nothing changes |
| SchedulerEffects.CancelledEntries | implementation/request_manager.cpp:73-84 | entry by entry, in every reachable world: a waiting one under this token or a greater one is gone and its handler was invoked, every other one stays and its handler was not; the connections asked to cancel are those of entries in progress under these tokens |
| SchedulerEffects.ActiveIs | implementation/request_manager.cpp:125-132 | places taken are the entries in progress, counted one by one |
| SchedulerEffects.WakeupExact | implementation/request_manager.cpp:125-146 | a wake-up starts the waiting entry that goes first, one to be retried before any other and then the oldest, if and only if there are such an entry and a free place; nothing else changes but its connection and a posted start |
| SchedulerEffects.SubmitExact | implementation/request_manager.cpp:56-61 | so does a request that enters the table, which may be the one started |
| SchedulerEffects.ExecutePosts | interface/asio_http/http_client.h:29-40 | a user's request is posted as it was given, waiting and with no attempt spent |
| SchedulerEffects.DoneExact | implementation/request_manager.cpp:94-100 | a completion puts its connection on its host's stack, or drops it with all that are idle there if and only if it reports an error |
| SchedulerEffects.ReusedNext | implementation/connection_pool.cpp:119-180 | a connection that completes without an error is the one that the next request to its host goes out on, whatever happens to other hosts in between; none is made for it |
| SchedulerEffects.DoneReports | implementation/interface/asio_http/internal/http_content.h:107-119 | along every run, a completion that waits to be handled carries the report that its connection made |
| SchedulerResults.StuckByThrows | implementation/http_error_handling.cpp:19-38 | entries are stranded exactly by the redirects that threw |
| SchedulerResults.Progress | implementation/request_manager.cpp:56-146 | unless all is quiet, some posted handler or connection can go on |
| SchedulerResults.ExactlyOnce | implementation/request_manager.cpp:86-146 | where a run ends, the table is empty and every handler was invoked exactly once if and only if no redirect threw in it; each that did left one entry in progress |
| SchedulerResults.Terminates | implementation/request_manager.cpp:56-146 | every run is finite and can only stop where all is quiet |
| SchedulerRedirects.CompletionExact | implementation/request_manager.cpp:94-123 | for every report of a connection: the request waits for another attempt, its handler is invoked, or the redirect throws, each if and only if what the report and the attempts left say so; a waiting one keeps all but its phase, one attempt and, when redirected, its target |
| SchedulerRedirects.CancelledExact | implementation/http_error_handling.cpp:52-65 | when a cancelled request is tried again |
| SchedulerRedirects.EofExact | implementation/http_error_handling.cpp:40-50 | a request whose connection reports the end of the input is tried again if and only if an attempt is left, and else its handler is invoked |
| SchedulerRedirects.StrandedRun | implementation/request_manager.cpp:94-123 | a run that ends with all quiet and a handler never invoked |
| SchedulerRedirects.CancelledRun | implementation/request_manager.cpp:73-84 | a run that cancels a request and leaves it waiting for another attempt |
| SchedulerRedirects.StarvesAt | implementation/request_manager.cpp:125-146 | at most `max_parallel_requests` redirects throw in a run, and once that many have, no waiting request is ever started |
| RequestManager.RequestManager.ExecuteRequest | implementation/request_manager.cpp:56-61 | the entry joins the table, and the one that goes first is started if there is a free place; the same as the transition system's |
| RequestManager.RequestManager.CancelRequests | implementation/request_manager.cpp:63-71 | the whole effect of a cancellation if the token is empty or some entry has exactly this one, and else none; the same as the transition system's |
| RequestManager.RequestManager.HandleCompletedRequest | implementation/request_manager.cpp:86-92 | the new state |
| RequestManager.RequestManager.OnRequestCompleted | implementation/request_manager.cpp:94-123 | the new state, for the entry found under the connection |
| RequestManager.RequestManager.ExecuteWaitingRequests | implementation/request_manager.cpp:125-146 | the waiting entry that goes first is started if and only if there are one and a free place, on a connection of its host; nothing else changes; the same as the transition system's |
| RequestManager.RequestManager.FirstInIndex | implementation/interface/asio_http/internal/request_manager.h:69-78 | an entry that none comes before by state and creation time |
| ConnectionPool.ConnectionPool.GetConnection | implementation/connection_pool.cpp:119-137 | the last connection released for the host, which leaves the stack; or a new one, if and only if none is idle there; all other stacks are as they were |
| ConnectionPool.ConnectionPool.ReleaseConnection | implementation/connection_pool.cpp:164-180 | the connection joins its host's stack, or is dropped with the whole stack; all other stacks are as they were |
| PoolEffects.AcquireExact | implementation/connection_pool.cpp:119-137 | the transition system's `get_connection` does the same |
| PoolEffects.ReleaseExact | implementation/connection_pool.cpp:164-180 | so does its `release_connection` |
| PoolEffects.LastInFirstOut | implementation/connection_pool.cpp:130-134 | a connection given back without an error is the next one for its host, and taking it leaves the stack as it was before |
| HttpContent.HttpContent.Start | implementation/interface/asio_http/internal/http_content.h:79-105 | the new state of the slot, and the headers given to `write_headers`, written out: the user's, `Host`, and `Content-Length` if the body is not empty |
| HttpContent.HttpContent.CompleteRequest | implementation/interface/asio_http/internal/http_content.h:107-119 | the callback runs once with what was received, and is cleared |
| HttpContent.HttpContent.Play | implementation/interface/asio_http/internal/http_content.h:107-148 | whatever happens to the object, its state is the one that the two rows below speak of |
| HttpContent.OneShot | implementation/interface/asio_http/internal/http_content.h:107-148 | over any order of errors, completions, timeouts and cancellations, the callback of every start has run once or is still in the slot |
| HttpContent.WholeBody | implementation/interface/asio_http/internal/http_content.h:131-141 | the callback is given the body bytes received since the start, in order |
| HttpContent.CallIs | implementation/interface/asio_http/internal/http_content.h:107-136 | in every proper history, each callback is given the body bytes since its start, and the last head since then, or else the last one left over since a callback ran |
| HttpContent.OwnExact | implementation/interface/asio_http/internal/http_content.h:107-136 | all callbacks are given what came for their own request if and only if none of them runs before its own head with a head left over |
| HttpContent.StaleHead | implementation/interface/asio_http/internal/http_content.h:131-137 | such a history, written out |
| SecondHead.ToldJoined | implementation/interface/asio_http/internal/http_client_connection.h:248-287 | the top layer ends up the same however the parser's callbacks were cut up |
| SecondHead.ReplyTold | implementation/interface/asio_http/internal/http_client_connection.h:248-287 | a response is, to the top layer, its head with all headers of the request so far, the bytes of its body, and an end |
| SecondHead.HeadOfAnother | implementation/interface/asio_http/internal/http_content.h:131-137 | two responses in one read: the first goes to its request, and the status and headers of the second to the next request on the connection, if that ends before its own head |
| SecondHead.RedirectedByAnother | implementation/http_error_handling.cpp:52-65 | which is redirected by them |
| SlotHistory.SlotsOfRun | implementation/interface/asio_http/internal/http_content.h:79-119 | every run of the scheduler gives every connection a proper history, whatever is received in between; its slot is set exactly when the scheduler has it armed, and its callback has run once for every report that waits or was handled |
| TuplePtr.StepKept | implementation/interface/asio_http/internal/tuple_ptr.h:46-97 | every atomic step keeps the invariant that ties the two counters to their holders |
| TuplePtr.Safety | implementation/interface/asio_http/internal/tuple_ptr.h:117-136 | in every interleaving objects are destroyed at most once and only without owners, and the block is freed at most once, after all objects, when nobody is left to touch it |
| TuplePtr.ReleaseSmaller | implementation/interface/asio_http/internal/tuple_ptr.h:77-97 | releasing comes to an end |
| TuplePtr.AllReleased | implementation/interface/asio_http/internal/tuple_ptr.h:46-97 | where nothing is left to release, every object was destroyed once and the block freed once |
| TuplePtr.Counters.AddShared | implementation/interface/asio_http/internal/tuple_ptr.h:46-46 | the counter agrees with the number of owners after a copy |
| TuplePtr.Counters.AddWeak | implementation/interface/asio_http/internal/tuple_ptr.h:76-76 | the counter agrees with the number of weak holders after a copy |
| TuplePtr.Counters.ReleaseShared | implementation/interface/asio_http/internal/tuple_ptr.h:47-55 | the access that reports zero is the last owner's |
| TuplePtr.Counters.LoadWeak | implementation/interface/asio_http/internal/tuple_ptr.h:84-92 | the load that reads zero is the last holder's |
| TuplePtr.Counters.SubWeak | implementation/interface/asio_http/internal/tuple_ptr.h:93-96 | the subtraction from zero is the last holder's |

## Left out

- Parser pause and resume, failing callbacks, non-strict mode, and the table of error texts.
- After an error, the parser's fields other than `http_errno`: every further call returns at once.
- HttpParser.HttpParser.Execute: buffers of 4 GiB and more, where the 32-bit counter would wrap within one call.
- Chunked.ChunkedAnySplit: messages that also upgrade the connection, which leave the call after their body.
- HttpContent.HttpContent.Start: the timer, whose expiry is an event that may come at any time.
- Replies.ReadReply: responses of other versions than 1.1, or with a `Connection` or `Upgrade` header among theirs; `BackToBack.ManyResponses` covers those that keep the connection.
- ResponseHead.ReadStatusLine: blanks before the code, which `Refusals.StatusLineExact` accepts; what follows such a line is not stated.
- HeadEnds.HeadExact: a list of connection options that is folded over several lines, for whether the connection stays open and the call returns early; requests.
- ConnectionOptions.ReadConnection: a list that is folded over several lines, where the parser drops a word at the end of a line.
- The printing and parsing round trip covers the four methods that the client sends; for the other methods `RequestLines.LineExact` covers the request line.
- RoundTrip.RequestRoundTrip: the body is taken as the bytes that the source hands out; the 1024-byte pieces of `on_write`, which also goes on after an error, and compression are not modelled.
- The answer to `on_headers_complete` is fixed for a call, since the client decides it by the method of its request.
- Sockets, TLS, DNS, timers and strands: what they cause is an event that may happen at any time while a callback is set; a posted handler is one atomic step, and handlers may run in any order, which allows more runs than the strands do.
- Requests keep only what scheduling looks at: state, creation time, token, host and port, retries. Cancellation tokens are their places in the order of strings.
- Ties in the state index may be broken in any way; the model does not fix the order among equal creation times.
- `m_status_code` is not initialised in a new connection; the model takes it for 0 until a head arrives or a callback has run.
- `HTTP_PARSER_ERRNO` is reported as the parser's error; its translation into an error code is not modelled.
- zlib, futures, coroutines, executors, logging and the test server.
- The layers of a connection are not built from templates; `upper_layer` and `lower_layer` calls appear as results of the methods.
- `tuple_ptr`: memory orders (every atomic access is taken as sequentially consistent), the pointers themselves, and `shared_from_this` on an object that no owner holds, where the check and the increment are not one step.
- UrlFields.ParserUrl.Parse: buffers of more than 65535 bytes, whose offsets would not fit into 16 bits; the byte after a port that ends the buffer is taken to be no digit.
- The regular expression is modelled by what it matches and its greedy choice, not by a matcher for expressions in general.
