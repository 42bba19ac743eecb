/** A request and the reads that bring its answer: when the request is done, whatever the reads. */
module Exchange {
  import opened Chars
  import opened Numbers
  import opened Headers
  import opened ParserState
  import opened ByteTransition
  import opened StepMachine
  import opened ParserInvariant
  import opened CallRefinement
  import opened LogInvariant
  import opened Refinement
  import opened Runs
  import opened Calls
  import opened Stepping
  import opened Reading
  import opened HttpParser
  import opened HeaderLine
  import opened HeaderAssembly
  import opened HeadEnds
  import opened EofBody
  import opened RequestPrinter
  import opened ClientConnection
  import H = ResponseHead
  import B = BackToBack
  import U = Url

  // ----- leaving a call -----

  function Ends(acts: seq<Act>): nat {
    if acts == [] then 0
    else (if acts[0].Notify? && acts[0].note.MessageComplete? then 1 else 0) + Ends(acts[1..])
  }

  lemma {:induction false} PerformEndings(acts: seq<Act>, marks: Marks, log: seq<Event>, data: string, p: nat)
    requires InBuffer(marks, p) && p < |data|
    ensures Endings(Perform(acts, marks, log, data, p).1) == Endings(log) + Ends(acts)
    decreases |acts|
  {
    hide Emit, Endings;
    if acts != [] {
      var (m, l) := PerformOne(acts[0], marks, log, data, p);
      match acts[0] {
        case Mark(k) =>
        case Flush(k, whole) =>
          if k in marks { EndingsEmit(log, Data(k, data[marks[k]..if whole then p + 1 else p])); }
        case Notify(n) => EndingsEmit(log, Note(n));
      }
      PerformEndings(acts[1..], m, l, data, p);
    }
  }

  lemma FlushEndings(k: Kind, marks: Marks, log: seq<Event>, data: string, end: nat)
    requires InBuffer(marks, end) && end <= |data|
    ensures Endings(FlushMark(k, marks, log, data, end).1) == Endings(log)
  {
    hide Emit, Endings;
    if k in marks { EndingsEmit(log, Data(k, data[marks[k]..end])); }
  }

  lemma LeftoverEndings(marks: Marks, log: seq<Event>, data: string)
    requires InBuffer(marks, |data|)
    ensures Endings(Leftover(marks, log, data)) == Endings(log)
  {
    hide Endings, FlushMark;
    var a := FlushMark(Field, marks, log, data, |data|);
    var b := FlushMark(Value, a.0, a.1, data, |data|);
    var c := FlushMark(Url, b.0, b.1, data, |data|);
    var d := FlushMark(Body, c.0, c.1, data, |data|);
    FlushEndings(Field, marks, log, data, |data|);
    FlushEndings(Value, a.0, a.1, data, |data|);
    FlushEndings(Url, b.0, b.1, data, |data|);
    FlushEndings(Body, c.0, c.1, data, |data|);
    FlushEndings(Status, d.0, d.1, data, |data|);
  }

  predicate ExitEnds(o: Outcome) { o.Out? && o.exit ==> Ends(o.acts) > 0 }

  lemma CompletedEnds(f: Fields, reset: bool, exit: bool)
    ensures Ends(Completed(f, reset, exit).acts) == 1
  {
  }

  lemma {:induction false} EndsThen(a: seq<Act>, b: seq<Act>)
    ensures Ends(a + b) == Ends(a) + Ends(b)
    decreases |a|
  {
    if a == [] {
      assert a + b == b;
    } else {
      assert (a + b)[0] == a[0] && (a + b)[1..] == a[1..] + b;
      EndsThen(a[1..], b);
    }
  }

  lemma AfterEnds(acts: seq<Act>, o: Outcome)
    requires ExitEnds(o)
    ensures ExitEnds(After(acts, o))
  {
    if o.Out? { EndsThen(acts, o.acts); }
  }

  lemma DoneExit(f: Fields, ch: char)
    ensures ExitEnds(HeadersDoneStep(f, ch))
  {
    hide Completed, Ends;
    CompletedEnds(f, true, true);
    CompletedEnds(f, true, false);
  }

  lemma HeadersDoneExit(cfg: Config, f: Fields, ch: char)
    ensures ExitEnds(HeadersDoneStep(f, ch)) && ExitEnds(HeadersAlmostDoneStep(cfg, f, ch))
  {
    hide Completed, Ends, HeadersDoneStep;
    var g := f.(state := HeadersDone, m := Answered(f.m, cfg.answer));
    DoneExit(f, ch);
    DoneExit(g, ch);
    var h := f.(state := MessageDone);
    CompletedEnds(h, false, h.m.upgrade);
    AfterEnds([Notify(ChunkComplete)], Completed(h, false, h.m.upgrade));
    AfterEnds([Notify(HeadersComplete(f.m.statusCode))], HeadersDoneStep(g, ch));
  }

  lemma FieldStartExit(cfg: Config, f: Fields, ch: char)
    ensures ExitEnds(HeaderFieldStartStep(cfg, f, ch))
  {
    HeadersDoneExit(cfg, f.(state := HeadersAlmostDone), ch);
    hide HeadersAlmostDoneStep, Ends;
  }

  lemma HeaderExit(cfg: Config, f: Fields, ch: char)
    requires IsHeaderState(f.state)
    ensures ExitEnds(HeaderStep(cfg, f, ch))
  {
    hide HeadersAlmostDoneStep, HeadersDoneStep, HeaderFieldStartStep, Ends, ValueChar, EndOfLine, FieldChar;
    HeadersDoneExit(cfg, f, ch);
    FieldStartExit(cfg, f, ch);
    var g := EndOfLine(f).(state := HeaderFieldStart);
    FieldStartExit(cfg, g, ch);
    AfterEnds([Mark(Value), Flush(Value, false)], HeaderFieldStartStep(cfg, g, ch));
    ValueExit(f, ch);
  }

  lemma ValueExit(f: Fields, ch: char)
    ensures ValueChar(f, ch).Out? ==> !ValueChar(f, ch).exit
  {
  }

  lemma BodyExit(f: Fields, ch: char)
    requires IsBodyState(f.state)
    ensures ExitEnds(BodyStep(f, ch))
  {
    hide Completed, Ends, ChunkStep;
    ChunkExit(f, ch);
    var g := f.(state := MessageDone, length := 0);
    CompletedEnds(g, false, g.m.upgrade);
    CompletedEnds(f, false, f.m.upgrade);
    AfterEnds([Mark(Body), Flush(Body, true)], Completed(g, false, g.m.upgrade));
  }

  lemma ChunkExit(f: Fields, ch: char)
    ensures ChunkStep(f, ch).Out? ==> !ChunkStep(f, ch).exit
  {
  }

  lemma OtherExit(f: Fields, ch: char)
    ensures StatusStep(f, ch).Out? ==> !StatusStep(f, ch).exit
    ensures RequestStep(f, ch).Out? ==> !RequestStep(f, ch).exit
  {
    hide MethodString, OtherMethod, FirstMethod;
  }

  /** A byte after which a call returns early has ended a message. */
  lemma TransitionExit(cfg: Config, f: Fields, ch: char)
    ensures ExitEnds(Transition(cfg, f, ch))
  {
    hide HeaderStep, BodyStep, StatusStep, RequestStep, Ends;
    if IsHeaderState(f.state) { HeaderExit(cfg, f, ch); }
    else if IsBodyState(f.state) { BodyExit(f, ch); }
    OtherExit(f, ch);
  }

  lemma StepEndings(cfg: Config, m: Machine, ch: char)
    ensures var w := Step(cfg, m, ch);
            w.Went? ==> Endings(w.m.log) >= Endings(m.log) && (w.exit ==> Endings(w.m.log) > Endings(m.log))
  {
    hide Transition, Perform, Leftover, Endings, Ends;
    TransitionExit(cfg, m.f, ch);
    var o := Transition(cfg, m.f, ch);
    if o.Out? {
      PerformEndings(o.acts, StartMarks(m.f.state), m.log, [ch], 0);
      var (marks, log) := Perform(o.acts, StartMarks(m.f.state), m.log, [ch], 0);
      LeftoverEndings(marks, log, [ch]);
    }
  }

  lemma {:induction false} FoldEndings(cfg: Config, m: Machine, data: string, p: nat)
    requires p <= |data|
    ensures var r := Fold(cfg, m, data, p);
            Endings(r.m.log) >= Endings(m.log) && (r.end.Exited? ==> Endings(r.m.log) > Endings(m.log))
    decreases |data| - p
  {
    hide Step, Endings;
    if p < |data| {
      StepEndings(cfg, m, data[p]);
      match Step(cfg, m, data[p])
      case Went(n, false) => FoldEndings(cfg, n, data, p + 1);
      case _ =>
    }
  }

  lemma {:induction false} CallEndings(cfg: Config, m: Machine, data: string, p: nat)
    requires p <= |data|
    ensures var r := CallFold(cfg, m, data, p);
            Endings(r.m.log) >= Endings(m.log) && (r.end.Exited? ==> Endings(r.m.log) > Endings(m.log))
    decreases |data| - p
  {
    hide Step, Endings, Emit, LineEnd;
    if p < |data| {
      if Jumps(cfg, m.f, data[p]) {
        var q := LineEnd(data, p);
        JumpForward(cfg, m.f, data, p);
        EndingsEmit(m.log, Data(Value, data[p..q]));
        CallEndings(cfg, Skipped(m, data, p, q), data, q);
      } else {
        StepEndings(cfg, m, data[p]);
        match Step(cfg, m, data[p])
        case Went(n, false) => CallEndings(cfg, n, data, p + 1);
        case _ =>
      }
    }
  }

  // ----- reading an answer -----

  lemma CalledUsed(cfg: Config, a: Parser, data: string, b: Parser, used: nat, exited: bool)
    requires Called(cfg, a, data, b, used, exited)
    ensures b.errno.Ok? && !exited ==> used == |data|
    ensures exited && b.errno.Ok? ==> Endings(b.m.log) > Endings(a.m.log)
  {
    hide CallFold, CallFits, CallZeroes, ParserInv, Endings;
    CallEndings(cfg, a.m, data, 0);
    CallUsed(cfg, a.m, data, 0);
  }

  lemma {:induction false} CallUsed(cfg: Config, m: Machine, data: string, p: nat)
    requires p <= |data|
    ensures CallFold(cfg, m, data, p).end.Ran? ==> CallFold(cfg, m, data, p).used == |data|
    decreases |data| - p
  {
    hide Step, Skipped, LineEnd;
    if p < |data| {
      if Jumps(cfg, m.f, data[p]) {
        JumpForward(cfg, m.f, data, p);
        CallUsed(cfg, Skipped(m, data, p, LineEnd(data, p)), data, LineEnd(data, p));
      } else {
        match Step(cfg, m, data[p])
        case Went(n, false) => CallUsed(cfg, n, data, p + 1);
        case _ =>
      }
    }
  }

  /** A message that has ended since the request was sent makes it done. */
  lemma EndsDone(raw: seq<Event>, base: nat, raw': seq<Event>)
    requires base <= |raw| && raw <= raw' && Endings(Joined(raw')) > Endings(Joined(raw))
    ensures Assemble(NO_HEADERS, raw'[base..]).done
  {
    hide Joined, Assemble, Endings;
    EndingsJoined(raw);
    EndingsJoined(raw');
    assert raw' == raw + raw'[|raw|..] && raw'[base..] == raw[base..] + raw'[|raw|..];
    EndingsConcat(raw, raw'[|raw|..]);
    EndingsConcat(raw[base..], raw'[|raw|..]);
    DoneIs(NO_HEADERS, raw'[base..]);
  }

  /** Reads of the socket, one after the other, for as long as the client asks for more.  `k` of them reach
      the parser before it reports an error. */
  method ReadAll(c: Connection, pieces: seq<string>) returns (next: Next, ghost k: nat, ghost exited: bool)
    requires c.Valid() && !c.buffers.done && forall x :: x in pieces ==> x != "" && |x| <= MAX_CALL
    modifies c.parser, c.buffers
    ensures c.Valid() && old(c.parser.events) <= c.parser.events && k <= |pieces|
    ensures old(c.parser.errno).Ok? ==>
        Fed(c.Answers(), old(c.parser.View()), pieces[..k], c.parser.View(), exited)
    ensures !old(c.parser.errno).Ok? ==> c.parser.View() == old(c.parser.View())
    ensures next.ReadOn? && c.parser.errno.Ok? ==> k == |pieces| && !exited
    ensures next.Nothing? <==> c.buffers.done
    ensures next.ParserError? ==> !c.parser.errno.Ok?
    ensures !next.SocketError?
    decreases |pieces|
  {
    hide Called, Joined, Assemble, RawOk, MachineInv, Endings;
    if pieces == [] { return ReadOn, 0, false; }
    assert pieces[0] in pieces && forall x :: x in pieces[1..] ==> x in pieces;
    ghost var (a, raw) := (c.parser.View(), c.parser.events);
    var used;
    ghost var ex;
    next, used, ex := c.OnRead(pieces[0], false);
    ghost var mid := c.parser.View();
    k, exited := 1, ex;
    if a.errno.Ok? { CalledUsed(c.Answers(), a, pieces[0], mid, used, ex); }
    if a.errno.Ok? && ex && mid.errno.Ok? { EndsDone(raw, c.base, c.parser.events); }
    if next.ReadOn? {
      ghost var j, e;
      next, j, e := ReadAll(c, pieces[1..]);
      if mid.errno.Ok? {
        k, exited := j + 1, e;
        assert pieces[..k][0] == pieces[0] && pieces[..k][1..] == pieces[1..][..j];
      }
    }
    assert pieces[..1] == [pieces[0]] && pieces[..1][1..] == [];
    if a.errno.Ok? { assert FedFirst(c.Answers(), a, pieces[..k], c.parser.View(), exited, mid, used, ex); }
  }

  // ----- the answer to a request -----

  /** A head that the parser accepts. */
  predicate IsHead(cfg: Config, major: char, minor: char, code: string, reason: string, hs: seq<Header>) {
    && IsNum(major) && IsNum(minor) && H.IsCode(code) && H.IsReason(reason) && (forall h :: h in hs ==> H.IsAny(cfg, h))
    && LengthGood(hs) && !(Chunks(hs) && GivesLength(hs))
  }

  /** Before its last byte no message has ended. */
  lemma BeforeLast(cfg: Config, major: char, minor: char, code: string, reason: string, hs: seq<Header>)
    requires IsHead(cfg, major, minor, code, reason, hs)
    ensures var t := H.HeadText(major, minor, code, reason, hs);
            t != "" && var r := Fold(cfg, B.NEW_CLIENT, t[..|t| - 1], 0); r.end.Ran? && Endings(r.m.log) == 0
  {
    hide Fold, Reads, IsNum, H.IsCode, H.IsReason, Decimal, H.StatusLine, H.IsAny, Lines, LineEvents, H.Framing,
      AtHeadEnd, Leads, H.StatusRead, LastIs, LengthGood, H.GoodLines, H.Sized, Chunks, GivesLength, Transition,
      Endings;
    var (line, m) := (H.StatusLine(major, minor, code, reason), B.NEW_CLIENT);
    var s := H.StatusRead(m, major, minor, code, reason);
    StatusFields(m, major, minor, code, reason);
    SizedAtEnd(s.f);
    GoodExact(false, hs);
    H.ReadStatusLine(cfg, m, major, minor, code, reason);
    assert StartsLine("\r");
    var n := H.AnyLines(cfg, s, hs, "\r");
    assert H.GoesOn(cfg, s, Lines(hs), n, "\r", s.log + LineEvents(hs), hs);
    var o := n.(f := n.f.(state := HeadersAlmostDone), nread := n.nread + 1);
    LineStart(cfg, n, o);
    LeadsReads(cfg, s, Lines(hs), n, "\r", o);
    ReadThen(cfg, m, line, s, Lines(hs) + "\r", o);
    var t := H.HeadText(major, minor, code, reason, hs);
    assert t == line + (Lines(hs) + "\r") + "\n";
    assert t[..|t| - 1] == line + (Lines(hs) + "\r");
    ReadsIs(cfg, m, t[..|t| - 1], o);
    assert s.log == [Note(MessageBegin), Data(Status, reason)];
    NoneEnded(reason, hs);
  }

  lemma LineStart(cfg: Config, n: Machine, o: Machine)
    requires n.f.state.HeaderFieldStart? && o == n.(f := n.f.(state := HeadersAlmostDone), nread := n.nread + 1)
    ensures Reads(cfg, n, "\r", o)
  {
    assert Transition(cfg, n.f, '\r') == Do(o.f, []);
    hide Transition, Step, Fold;
    Quiet(cfg, n, '\r', o.f);
    ReadByte(cfg, n, '\r', o);
    assert ['\r'] == "\r";
  }

  lemma NoneEnded(reason: string, hs: seq<Header>)
    ensures Endings([Note(MessageBegin), Data(Status, reason)] + LineEvents(hs)) == 0
  {
    hide LineEvents;
    var e: seq<Event> := [Note(MessageBegin), Data(Status, reason)];
    assert e[..1] == [e[0]] && e[..1][..0] == [] && Endings([]) == 0 && Endings(e[..1]) == 0 && Endings(e) == 0;
    LinesEndings(hs);
    EndingsConcat(e, LineEvents(hs));
  }

  lemma {:induction false} FlatSplit(pieces: seq<string>, k: nat)
    requires k <= |pieces|
    ensures Flat(pieces) == Flat(pieces[..k]) + Flat(pieces[k..])
    decreases |pieces|
  {
    if k == 0 {
      assert pieces[..0] == [] && pieces[0..] == pieces;
    } else {
      var rest := pieces[1..];
      assert pieces[..k][0] == pieces[0] && pieces[..k][1..] == rest[..k - 1] && pieces[k..] == rest[k - 1..];
      FlatSplit(pieces[1..], k - 1);
    }
  }

  /** Some of the reads that bring a head: no message has ended until the last of them, and then one has if
      and only if nothing follows the head. */
  lemma PartRead(cfg: Config, major: char, minor: char, code: string, reason: string, hs: seq<Header>,
                 pieces: seq<string>, k: nat, b: Parser, exited: bool)
    requires IsHead(cfg, major, minor, code, reason, hs) && k <= |pieces| && forall x :: x in pieces ==> x != ""
    requires Flat(pieces) == H.HeadText(major, minor, code, reason, hs)
        && |Flat(pieces)| <= HTTP_MAX_HEADER_SIZE / 2
    requires Fed(cfg, Parser(B.NEW_CLIENT, 0, Ok), pieces[..k], b, exited)
    ensures b.errno.Ok? && (k < |pieces| ==> Endings(b.m.log) == 0)
    ensures k == |pieces| ==> b.m == Fold(cfg, B.NEW_CLIENT, Flat(pieces), 0).m
  {
    hide Fold, Fed, ParserInv, MachineInv, H.HeadText, IsHead, Endings;
    var (t, p, q) := (Flat(pieces), Flat(pieces[..k]), Flat(pieces[k..]));
    FlatSplit(pieces, k);
    HeadRan(cfg, major, minor, code, reason, hs);
    BeforeLast(cfg, major, minor, code, reason, hs);
    PartFed(cfg, pieces[..k], q, b, exited);
    if k < |pieces| {
      assert pieces[k] in pieces && pieces[k..][0] == pieces[k];
      assert q != "" && t[..|t| - 1] == p + q[..|q| - 1];
      FoldConcat(cfg, B.NEW_CLIENT, p, q[..|q| - 1]);
      FoldEndings(cfg, Fold(cfg, B.NEW_CLIENT, p, 0).m, q[..|q| - 1], 0);
    } else {
      assert pieces[..k] == pieces && pieces[k..] == [] && p == t;
    }
  }

  lemma HeadRan(cfg: Config, major: char, minor: char, code: string, reason: string, hs: seq<Header>)
    requires IsHead(cfg, major, minor, code, reason, hs)
    ensures !Fold(cfg, B.NEW_CLIENT, H.HeadText(major, minor, code, reason, hs), 0).end.Failed?
  {
    hide Fold, H.HeadText, H.HeadEvents, IsNum, H.IsCode, H.IsReason, H.IsAny, LengthGood, Chunks, GivesLength, Decimal;
    HeadExact(cfg, B.NEW_CLIENT, major, minor, code, reason, hs);
  }

  /** Calls that bring the first part of a short text that the parser accepts. */
  lemma PartFed(cfg: Config, part: seq<string>, q: string, b: Parser, exited: bool)
    requires Fed(cfg, Parser(B.NEW_CLIENT, 0, Ok), part, b, exited)
    requires |Flat(part)| <= HTTP_MAX_HEADER_SIZE / 2
    requires !Fold(cfg, B.NEW_CLIENT, Flat(part) + q, 0).end.Failed?
    ensures b.errno.Ok? && b.m == Fold(cfg, B.NEW_CLIENT, Flat(part), 0).m
  {
    hide Fold, Fed, FedRoom, Fits, Inv, LogInv, Clean;
    var a := Parser(B.NEW_CLIENT, 0, Ok);
    NewClientInv();
    ShortFed(cfg, a, part, b, exited);
    RanClean(cfg, B.NEW_CLIENT, Flat(part) + q, 0);
    CleanConcat(cfg, B.NEW_CLIENT, Flat(part), q, 0);
    FedIsFold(cfg, a, part, b, exited);
    FoldConcat(cfg, B.NEW_CLIENT, Flat(part), q);
  }

  /** A request on a new connection, and the reads that bring the head of its answer, cut in any way: the
      request is done with the last of them in answer to HEAD, whatever the head announces, and for other
      methods if and only if it announces no body.  The client is given the head. */
  method Ask(c: Connection, verb: nat, headers: seq<Pair>, to: U.Url, open: bool, pieces: seq<string>,
             ghost major: char, ghost minor: char, ghost code: string, ghost reason: string, ghost hs: seq<Header>)
    returns (next: Next)
    requires c.Valid() && c.parser.View() == Parser(B.NEW_CLIENT, 0, Ok) && c.parser.events == [] && IsMethod(verb)
    requires IsHead(Config(false, Continue), major, minor, code, reason, hs) && forall x :: x in pieces ==> x != ""
    requires Flat(pieces) == H.HeadText(major, minor, code, reason, hs)
        && |Flat(pieces)| <= HTTP_MAX_HEADER_SIZE / 2
    modifies c, c.parser, c.buffers
    ensures c.Valid() && c.parser.errno.Ok?
    ensures c.buffers.done <==>
        verb == HEAD || (!Chunks(hs) && if GivesLength(hs) then NoLength(hs) else Bodiless(Decimal(code)))
    ensures next == if c.buffers.done then Nothing else ReadOn
    ensures c.buffers.given == [Given(Decimal(code), Trimmed(Pairs(hs)))]
  {
    hide Fed, Fold, Joined, Assemble, RawOk, MachineInv, Endings, IsHead, H.HeadText, Trimmed, Pairs, Decimal;
    var down := c.WriteHeaders(verb, headers, to, open);
    FlatSmall(pieces);
    ghost var k, exited;
    next, k, exited := ReadAll(c, pieces);
    assert c.parser.events[0..] == c.parser.events;
    AskedAll(c.Answers(), major, minor, code, reason, hs, pieces, k, c.parser.View(), exited, c.parser.events);
  }

  lemma {:induction false} FlatSmall(pieces: seq<string>)
    ensures forall x :: x in pieces ==> |x| <= |Flat(pieces)|
  {
    if pieces != [] { FlatSmall(pieces[1..]); }
  }

  lemma AskedAll(cfg: Config, major: char, minor: char, code: string, reason: string, hs: seq<Header>,
                 pieces: seq<string>, k: nat, b: Parser, exited: bool, raw: seq<Event>)
    requires IsHead(Config(false, Continue), major, minor, code, reason, hs)
    requires !cfg.lenient && !cfg.answer.NoBodyNoMore?
    requires forall x :: x in pieces ==> x != ""
    requires Flat(pieces) == H.HeadText(major, minor, code, reason, hs)
        && |Flat(pieces)| <= HTTP_MAX_HEADER_SIZE / 2
    requires k <= |pieces| && Fed(cfg, Parser(B.NEW_CLIENT, 0, Ok), pieces[..k], b, exited)
    requires RawOk(raw) && Joined(raw) == b.m.log
    requires k < |pieces| ==> Assemble(NO_HEADERS, raw).done || !b.errno.Ok?
    ensures b.errno.Ok? && Assemble(NO_HEADERS, raw).given == [Given(Decimal(code), Trimmed(Pairs(hs)))]
    ensures Assemble(NO_HEADERS, raw).done <==> NothingFollows(cfg, Decimal(code), hs)
  {
    hide Fold, Fed, Joined, Assemble, RawOk, Endings, H.HeadText, Trimmed, Pairs, Decimal, H.HeadEvents, IsNum,
      H.IsCode, H.IsReason, H.IsAny, LengthGood, Chunks, GivesLength, NothingFollows;
    AnyLenient(cfg, hs);
    PartRead(cfg, major, minor, code, reason, hs, pieces, k, b, exited);
    DoneIs(NO_HEADERS, raw);
    EndingsJoined(raw);
    HeadExact(cfg, B.NEW_CLIENT, major, minor, code, reason, hs);
    assert [] + H.HeadEvents(code, reason, hs) == H.HeadEvents(code, reason, hs);
    HeadEndings(code, reason, hs);
    var done := NothingFollows(cfg, Decimal(code), hs);
    var e := Note(MessageComplete(b.m.f.state.StartRes?));
    EndingsEmit(H.HeadEvents(code, reason, hs), e);
    assert H.MaybeDone(b.m.log, H.HeadEvents(code, reason, hs));
    HeadAssembled(cfg, b.m.log, code, reason, hs);
    AssembleJoined(NO_HEADERS, raw);
  }

  /** What may stand in a header does not depend on the answer. */
  lemma AnyLenient(cfg: Config, hs: seq<Header>)
    requires !cfg.lenient && forall h :: h in hs ==> H.IsAny(Config(false, Continue), h)
    ensures forall h :: h in hs ==> H.IsAny(cfg, h)
  {
    forall h | h in hs ensures H.IsAny(cfg, h) { AnySame(cfg, h); }
  }

  lemma AnySame(cfg: Config, h: Header)
    requires !cfg.lenient && H.IsAny(Config(false, Continue), h)
    ensures H.IsAny(cfg, h)
  {
    assert forall f :: f in h.folds ==> IsFold(Config(false, Continue), f);
  }
}
