/** The connection: bytes read from the socket go through the parser, and its callbacks into the
    buffers of the current request. */
module ClientConnection {
  import opened Numbers
  import opened ParserState
  import opened ByteTransition
  import opened Chars
  import opened StepMachine
  import opened ParserInvariant
  import opened LogInvariant
  import opened Runs
  import opened Calls
  import opened HttpParser
  import opened Reading
  import opened HeaderName
  import opened Lengths
  import opened HeaderLine
  import opened ResponseHead
  import opened Headers
  import opened HeaderAssembly
  import opened RequestPrinter
  import opened EofBody
  import B = BackToBack
  import U = Url

  /** What `on_read` does last: nothing, read on, or report an error of the parser or the socket. */
  datatype Next = Nothing | ReadOn | ParserError(errno: Errno) | SocketError

  /** What is asked of the layer below. */
  datatype Down = Write(text: string) | Connect(host: string, port: string)

  class Connection {
    const parser: HttpParser
    const buffers: RequestBuffers
    /** The request to send: its method, its URL, and its headers. */
    var verb: nat
    var url: U.Url
    var request: seq<Pair>
    /** The callbacks before the current request. */
    ghost var base: nat

    ghost predicate Valid() reads this, parser, buffers {
      && parser.Valid() && base <= |parser.events|
      && buffers.View() == Assemble(NO_HEADERS, parser.events[base..])
    }

    constructor ()
      ensures Valid() && fresh(parser) && fresh(buffers) && parser.events == [] && base == 0
      ensures parser.View() == Parser(B.NEW_CLIENT, 0, Ok)
    {
      parser := new HttpParser(Response);
      buffers := new RequestBuffers();
      verb, url, request, base := GET, U.Url("", "", 0, "", ""), [], 0;
    }

    /** `write_headers`: the buffers start afresh; the request goes out at once on an open connection. */
    method WriteHeaders(method_: nat, headers: seq<Pair>, to: U.Url, open: bool) returns (down: Down)
      requires Valid() && IsMethod(method_)
      modifies this, buffers
      ensures Valid() && buffers.View() == NO_HEADERS && base == |parser.events|
      ensures verb == method_ && url == to && request == headers
      ensures down == if open then Write(PrintHead(method_, to.path, headers))
          else Connect(to.host, DecimalText(to.port))
    {
      buffers.Clear();
      verb, url, request := method_, to, headers;
      base := |parser.events|;
      assert parser.events[base..] == [];
      if open {
        down := SendHeaders();
      } else {
        down := Connect(url.host, DecimalText(url.port));
      }
    }

    /** `send_headers`. */
    method SendHeaders() returns (down: Down)
      requires IsMethod(verb)
      ensures down == Write(PrintHead(verb, url.path, request))
    {
      var text := PrintRequestHeaders(verb, url.path, request);
      down := Write(text);
    }

    /** `on_connected`: the request goes out, or the error goes up. */
    method OnConnected(error: bool) returns (down: Option<Down>)
      requires IsMethod(verb)
      ensures down == if error then None else Some(Write(PrintHead(verb, url.path, request)))
    {
      if error { return None; }
      var sent := SendHeaders();
      down := Some(sent);
    }

    /** The callbacks made since `from` run on the buffers. */
    method Deliver(from: nat)
      requires parser.Valid() && base <= from <= |parser.events|
      requires buffers.View() == Assemble(NO_HEADERS, parser.events[base..from])
      modifies buffers
      ensures Valid()
    {
      hide Assemble, Joined, MachineInv, RawOk;
      var i := from;
      while i < |parser.events|
        invariant base <= from <= i <= |parser.events| && parser.Valid()
        invariant buffers.View() == Assemble(NO_HEADERS, parser.events[base..i])
      {
        buffers.Callback(parser.events[i]);
        assert parser.events[base..i + 1] == parser.events[base..i] + [parser.events[i]];
        AssembleMore(NO_HEADERS, parser.events[base..i], parser.events[i]);
        i := i + 1;
      }
      assert parser.events[base..i] == parser.events[base..];
    }

    function Answers(): Config reads this { Config(false, if verb == HEAD then NoBody else Continue) }

    /** `on_read`.  Once the message is done the bytes are dropped.  `used` is what the parser took. */
    method OnRead(data: string, error: bool) returns (next: Next, used: nat, ghost exited: bool)
      requires Valid() && |data| <= MAX_CALL
      modifies parser, buffers
      ensures Valid() && old(parser.events) <= parser.events
      ensures old(buffers.done) || data == "" ==>
                used == |data| && parser.View() == old(parser.View()) && parser.events == old(parser.events)
      ensures !old(parser.errno).Ok? ==> parser.View() == old(parser.View()) && parser.events == old(parser.events)
      ensures !old(buffers.done) && data != "" && old(parser.errno).Ok? ==>
                Called(Answers(), old(parser.View()), data, parser.View(), used, exited)
      ensures next == if buffers.done then Nothing
                      else if used != |data| then ParserError(parser.errno)
                      else if error then SocketError else ReadOn
      // Within a body that runs to the end of the connection nothing is ever done.
      ensures old(parser.errno).Ok? && old(parser.f).state.BodyIdentityEof? && !old(buffers.done) ==>
                && parser.errno.Ok? && parser.f.state.BodyIdentityEof? && !buffers.done
                && next == if error then SocketError else ReadOn
    {
      hide Called, Fold, Clean, Fits, MachineInv, RawOk, Joined, Assemble, CalledAtEof;
      used := |data|;
      exited := false;
      if |data| != 0 && !buffers.done {
        var before := |parser.events|;
        var ex;
        used, ex := parser.Execute(Answers(), data);
        exited := ex;
        assert parser.events[..before] == old(parser.events);
        assert parser.events[base..before] == old(parser.events[base..]);
        Deliver(before);
        if old(parser.errno).Ok? && old(parser.f).state.BodyIdentityEof? {
          EofCalled(Answers(), old(parser.View()), data, parser.View(), used, exited);
          NotDone(old(parser.events), base, parser.events, data);
        }
      }
      if buffers.done { next := Nothing; }
      else if used != |data| { next := ParserError(parser.errno); }
      else if !error { next := ReadOn; }
      else { next := SocketError; }
    }
  }

  // ----- headers and read sizes -----

  function Pairs(hs: seq<Header>): seq<Pair> {
    if hs == [] then [] else [Pair(hs[0].name, Whole(hs[0]))] + Pairs(hs[1..])
  }

  lemma {:induction false} LineFields(cfg: Config, hs: seq<Header>)
    requires forall h :: h in hs ==> IsAny(cfg, h)
    ensures LineEvents(hs) == FieldEvents(Pairs(hs)) && forall p :: p in Pairs(hs) ==> p.name != ""
  {
    if hs != [] {
      assert hs[0] in hs && forall x :: x in hs[1..] ==> x in hs;
      LineFields(cfg, hs[1..]);
    }
  }

  /** The log of a head, assembled: the names in order, each with its whole value, trimmed. */
  lemma HeadAssembled(cfg: Config, log: seq<Event>, code: string, reason: string, hs: seq<Header>)
    requires MaybeDone(log, HeadEvents(code, reason, hs)) && forall h :: h in hs ==> IsAny(cfg, h)
    ensures Assemble(NO_HEADERS, log).given == [Given(Decimal(code), Trimmed(Pairs(hs)))]
  {
    var start: seq<Event> := [Note(MessageBegin), Data(Status, reason)];
    var rest := FieldEvents(Pairs(hs)) + [Note(HeadersComplete(Decimal(code)))];
    LineFields(cfg, hs);
    assert HeadEvents(code, reason, hs) == start + rest;
    AssembleConcat(NO_HEADERS, start, rest);
    assert start[..1] == [Note(MessageBegin)];
    AssembleOne(NO_HEADERS, Note(MessageBegin));
    assert Assemble(NO_HEADERS, start) == NO_HEADERS;
    HeadGiven(NO_HEADERS, Pairs(hs), Decimal(code));
    assert [] + Trimmed(Pairs(hs)) == Trimmed(Pairs(hs));
    if log != start + rest {
      AssembleConcat(NO_HEADERS, start + rest, [log[|start + rest|]]);
      AssembleOne(Assemble(NO_HEADERS, start + rest), log[|start + rest|]);
    }
    hide Assemble;
  }

  /** No byte of a header line is one that may not stand in a header value. */
  lemma {:induction false} LinesChars(cfg: Config, hs: seq<Header>)
    requires forall h :: h in hs ==> IsAny(cfg, h)
    ensures forall c :: c in Lines(hs) ==> cfg.lenient || IsHeaderChar(c)
  {
    hide IsAny, LineText, IsHeaderChar;
    if hs != [] {
      assert hs[0] in hs && forall x :: x in hs[1..] ==> x in hs;
      LineChars(cfg, hs[0]);
      LinesChars(cfg, hs[1..]);
    }
  }

  lemma LineChars(cfg: Config, h: Header)
    requires IsAny(cfg, h)
    ensures forall c :: c in LineText(h) ==> cfg.lenient || IsHeaderChar(c)
  {
    LeadChars(h.leads);
    FoldChars(cfg, h.folds);
    hide Flat, FoldsText, IsLead, IsFold;
  }

  lemma {:induction false} LeadChars(leads: seq<string>)
    requires forall l :: l in leads ==> IsLead(l)
    ensures forall c :: c in Flat(leads) ==> IsHeaderChar(c)
  {
    if leads != [] {
      assert leads[0] in leads && forall x :: x in leads[1..] ==> x in leads;
      LeadChars(leads[1..]);
    }
  }

  lemma {:induction false} FoldChars(cfg: Config, folds: seq<string>)
    requires forall f :: f in folds ==> IsFold(cfg, f)
    ensures forall c :: c in FoldsText(folds) ==> cfg.lenient || IsHeaderChar(c)
  {
    if folds != [] {
      assert folds[0] in folds && forall x :: x in folds[1..] ==> x in folds;
      FoldChars(cfg, folds[1..]);
    }
  }

  lemma HeadClean(cfg: Config, m: Machine, major: char, minor: char, code: string, reason: string, hs: seq<Header>)
    requires m.f.state.StartRes? && IsNum(major) && IsNum(minor) && IsCode(code) && IsReason(reason)
    requires forall h :: h in hs ==> IsAny(cfg, h)
    ensures Clean(cfg, m, HeadText(major, minor, code, reason, hs), 0)
  {
    hide Fold, Clean, IsAny, Lines, StatusLine, IsCode, IsReason, IsNum, StatusRead;
    var (line, rest) := (StatusLine(major, minor, code, reason), Lines(hs) + "\r\n");
    ReadStatusLine(cfg, m, major, minor, code, reason);
    ReadsIs(cfg, m, line, StatusRead(m, major, minor, code, reason));
    RanClean(cfg, m, line, 0);
    LinesChars(cfg, hs);
    assert forall i :: 0 <= i < |rest| ==> rest[i] in rest;
    CharsClean(cfg, StatusRead(m, major, minor, code, reason), rest, 0);
    CleanJoin(cfg, m, line, rest);
  }

  /** The headers handed to the upper layer are those of the head, however the bytes were read. */
  lemma HeadersAnySplit(cfg: Config, major: char, minor: char, code: string, reason: string, hs: seq<Header>,
                        pieces: seq<string>, b: Parser, exited: bool, raw: seq<Event>)
    requires IsNum(major) && IsNum(minor) && IsCode(code) && IsReason(reason) && forall h :: h in hs ==> IsAny(cfg, h)
    requires Flat(pieces) == HeadText(major, minor, code, reason, hs)
    requires Fed(cfg, Parser(B.NEW_CLIENT, 0, Ok), pieces, b, exited) && b.errno.Ok?
    requires RawOk(raw) && Joined(raw) == b.m.log
    ensures Assemble(NO_HEADERS, raw).given == [Given(Decimal(code), Trimmed(Pairs(hs)))]
  {
    hide Fed, Clean, Fits, Fold, Decimal, Assemble, HeadText, HeadEvents, IsAny, RawOk, Joined;
    var a := Parser(B.NEW_CLIENT, 0, Ok);
    assert ParserInv(a) by { InitInv(Response); }
    HeadClean(cfg, B.NEW_CLIENT, major, minor, code, reason, hs);
    FedIsFold(cfg, a, pieces, b, exited);
    ReadHead(cfg, B.NEW_CLIENT, major, minor, code, reason, hs);
    assert [] + HeadEvents(code, reason, hs) == HeadEvents(code, reason, hs);
    HeadAssembled(cfg, b.m.log, code, reason, hs);
    AssembleJoined(NO_HEADERS, raw);
  }
}
