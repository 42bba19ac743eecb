/** Bodies that run to the end of the connection: which heads announce one, and that no byte ends it. */
module EofBody {
  import opened Chars
  import opened Numbers
  import opened ParserState
  import opened ByteTransition
  import opened StepMachine
  import opened ParserInvariant
  import opened LogInvariant
  import opened Runs
  import opened Calls
  import opened Stepping
  import opened Reading
  import opened HeaderName
  import opened HeaderLine
  import opened HeaderWords
  import opened HttpParser
  import opened HeaderAssembly
  import opened HeadEnds
  import H = ResponseHead
  import B = BackToBack

  // ----- inside such a body -----

  /** The machine after more bytes of the body. */
  function Taken(m: Machine, data: string): Machine { m.(log := Emit(m.log, Data(Body, data))) }

  lemma EofStep(cfg: Config, m: Machine, c: char)
    requires m.f.state.BodyIdentityEof?
    ensures Step(cfg, m, c) == Went(Taken(m, [c]), false) && Transition(cfg, m.f, c) == Do(m.f, [Mark(Body)])
  {
    assert Transition(cfg, m.f, c) == Do(m.f, [Mark(Body)]);
    Sets(cfg, m, c, m.f, Body);
    hide Step, Transition, Emit;
  }

  /** No data leads out of the body or ends the message, byte by byte or in one call. */
  lemma {:induction false} EofStays(cfg: Config, m: Machine, data: string)
    requires m.f.state.BodyIdentityEof? && data != ""
    ensures Fold(cfg, m, data, 0) == Result(Taken(m, data), |data|, Ran)
    decreases |data|
  {
    hide Step, Transition, Emit, Fold;
    var init, c := data[..|data| - 1], data[|data| - 1];
    assert data == init + [c];
    var n := if init == "" then m else Taken(m, init);
    EofStep(cfg, n, c);
    ReadByte(cfg, n, c, Taken(n, [c]));
    if init == "" {
      assert data == [c];
    } else {
      EofStays(cfg, m, init);
      ReadThen(cfg, m, init, n, [c], Taken(n, [c]));
      EmitEmit(m.log, Body, init, [c]);
    }
  }

  lemma {:induction false} EofCall(cfg: Config, m: Machine, data: string, p: nat, cap: int)
    requires m.f.state.BodyIdentityEof? && p <= |data|
    ensures CallFold(cfg, m, data, p) == Fold(cfg, m, data, p) && !CallZeroes(cfg, m, data, p)
    ensures m.nread <= cap ==> CallFits(cfg, m, data, p, cap)
    decreases |data| - p
  {
    hide Step, Transition, Emit;
    if p < |data| {
      EofStep(cfg, m, data[p]);
      EofCall(cfg, Taken(m, [data[p]]), data, p + 1, cap);
    }
  }

  /** On the parser: it takes all of the data, and is where it was. */
  lemma EofCalled(cfg: Config, a: Parser, data: string, b: Parser, used: nat, exited: bool)
    requires a.errno.Ok? && ParserInv(a) && a.m.f.state.BodyIdentityEof? && data != ""
    requires Called(cfg, a, data, b, used, exited)
    ensures b == a.(m := Taken(a.m, data)) && used == |data| && !exited
  {
    hide Fold, CallFold, CallFits, CallZeroes, Inv, LogInv, Emit;
    EofStays(cfg, a.m, data);
    EofCall(cfg, a.m, data, 0, Room(a));
  }

  // ----- messages ended -----

  /** The messages that the callbacks end. */
  function Endings(log: seq<Event>): nat {
    if log == [] then 0
    else Endings(log[..|log| - 1]) + if log[|log| - 1].Note? && log[|log| - 1].note.MessageComplete? then 1 else 0
  }

  lemma {:induction false} EndingsConcat(x: seq<Event>, y: seq<Event>)
    ensures Endings(x + y) == Endings(x) + Endings(y)
    decreases |y|
  {
    if y == [] {
      assert x + y == x;
    } else {
      assert (x + y)[..|x + y| - 1] == x + y[..|y| - 1];
      EndingsConcat(x, y[..|y| - 1]);
    }
  }

  lemma EndingsEmit(log: seq<Event>, e: Event)
    ensures Endings(Emit(log, e)) == Endings(log) + if e.Note? && e.note.MessageComplete? then 1 else 0
  {
    var l := Emit(log, e);
    if e.Data? && LastIs(log, e.kind) {
      assert l[..|l| - 1] == log[..|log| - 1];
    } else {
      assert l[..|l| - 1] == log;
    }
  }

  lemma {:induction false} EndingsJoined(raw: seq<Event>)
    ensures Endings(Joined(raw)) == Endings(raw)
  {
    hide Emit;
    if raw != [] {
      EndingsJoined(raw[..|raw| - 1]);
      EndingsEmit(Joined(raw[..|raw| - 1]), raw[|raw| - 1]);
    }
  }

  /** The client takes its request for done exactly when a message has ended since it was sent. */
  lemma {:induction false} DoneIs(a: Assembly, log: seq<Event>)
    ensures Assemble(a, log).done <==> a.done || Endings(log) > 0
  {
    hide TrimEnd;
    if log != [] { DoneIs(a, log[..|log| - 1]); }
  }

  /** So the request does not come to be done inside such a body. */
  lemma NotDone(raw: seq<Event>, base: nat, raw': seq<Event>, data: string)
    requires base <= |raw| && raw <= raw' && Joined(raw') == Emit(Joined(raw), Data(Body, data))
    ensures Assemble(NO_HEADERS, raw'[base..]).done == Assemble(NO_HEADERS, raw[base..]).done
  {
    hide Emit, Joined, Assemble, Endings;
    EndingsEmit(Joined(raw), Data(Body, data));
    EndingsJoined(raw);
    EndingsJoined(raw');
    assert raw' == raw[..base] + raw'[base..] && raw == raw[..base] + raw[base..];
    EndingsConcat(raw[..base], raw'[base..]);
    EndingsConcat(raw[..base], raw[base..]);
    DoneIs(NO_HEADERS, raw'[base..]);
    DoneIs(NO_HEADERS, raw[base..]);
  }

  // ----- which heads -----

  /** Nothing frames the body: no chunks, no length, a status that has one, and no answer to HEAD. */
  predicate Unframed(cfg: Config, status: nat, hs: seq<Header>) {
    && cfg.answer.Continue? && !Bodiless(status)
    && forall h :: h in hs ==> !H.AnnouncesChunks(h) && !H.AnnouncesLength(h)
  }

  /** Of the heads that the parser accepts, exactly those that frame no body lead there. */
  lemma EofExact(cfg: Config, m: Machine, major: char, minor: char, code: string, reason: string, hs: seq<Header>)
    requires m.f.state.StartRes? && m.f.m.kind.Response? && m.f.m.verb != CONNECT
    requires IsNum(major) && IsNum(minor) && H.IsCode(code) && H.IsReason(reason)
    requires forall h :: h in hs ==> H.IsAny(cfg, h)
    ensures var r := Fold(cfg, m, H.HeadText(major, minor, code, reason, hs), 0);
            !r.end.Failed? ==>
              && (r.m.f.state.BodyIdentityEof? <==> Unframed(cfg, Decimal(code), hs))
              && (r.m.f.state.BodyIdentityEof? ==>
                r.end.Ran? && r.m.nread == 0 && r.m.log == m.log + H.HeadEvents(code, reason, hs))
  {
    hide Fold, IsNum, H.IsCode, H.IsReason, Decimal, H.HeadText, H.HeadEvents, H.IsAny, H.AnnouncesChunks,
      H.AnnouncesLength, Bodiless, LengthGood;
    HeadExact(cfg, m, major, minor, code, reason, hs);
    EofRuns(cfg, m, major, minor, code, reason, hs);
    assert m.log + H.HeadEvents(code, reason, hs) + [] == m.log + H.HeadEvents(code, reason, hs);
  }

  /** A call goes on there. */
  lemma EofRuns(cfg: Config, m: Machine, major: char, minor: char, code: string, reason: string, hs: seq<Header>)
    requires m.f.state.StartRes? && m.f.m.kind.Response? && m.f.m.verb != CONNECT
    requires IsNum(major) && IsNum(minor) && H.IsCode(code) && H.IsReason(reason)
    requires forall h :: h in hs ==> H.IsAny(cfg, h)
    ensures var r := Fold(cfg, m, H.HeadText(major, minor, code, reason, hs), 0);
            !r.end.Failed? && r.m.f.state.BodyIdentityEof? ==> r.end.Ran?
  {
    hide Fold, IsNum, H.IsCode, H.IsReason, Decimal, H.HeadText, H.HeadEvents, H.IsAny, LinesRead;
    var n := ReadWhole(cfg, m, major, minor, code, reason, hs);
  }

  /** A head whose headers frame nothing is accepted, so there is such a head for every list of them. */
  lemma PlainUnframed(cfg: Config, code: string, reason: string, hs: seq<Header>)
    requires cfg.answer.Continue? && H.IsCode(code) && H.IsReason(reason) && AllPlain(cfg, hs)
        && !Bodiless(Decimal(code))
    ensures (forall h :: h in hs ==> H.IsAny(cfg, h)) && Unframed(cfg, Decimal(code), hs)
    ensures !Fold(cfg, B.NEW_CLIENT, H.HeadText('1', '1', code, reason, hs), 0).end.Failed?
  {
    hide Fold, H.IsCode, H.IsReason, Decimal, H.HeadText, H.IsAny, IsPlain;
    forall h | h in hs ensures H.IsAny(cfg, h) && !H.AnnouncesChunks(h) && !H.AnnouncesLength(h) {
      assert IsPlain(cfg, h);
      PlainIsAny(cfg, h);
    }
    assert LengthGood(hs) by {
      forall i | 0 <= i < |hs| ensures !H.AnnouncesLength(hs[i]) { assert hs[i] in hs; }
    }
    hide LengthGood;
    HeadExact(cfg, B.NEW_CLIENT, '1', '1', code, reason, hs);
  }

  lemma PlainIsAny(cfg: Config, h: Header)
    requires IsPlain(cfg, h)
    ensures H.IsAny(cfg, h) && !H.AnnouncesChunks(h) && !H.AnnouncesLength(h)
  {
    hide IsChunked, IsLead, IsFold, IsName;
    assert NameState(CONTENT_LENGTH).ContentLength? && NameState(TRANSFER_ENCODING).TransferEncoding?;
    hide LowerName, NameState;
  }

  /** A response without a frame is never completed, whatever the body and the calls: its bytes are
      delivered, and the parser waits for more. */
  lemma NeverCompleted(cfg: Config, major: char, minor: char, code: string, reason: string, hs: seq<Header>,
                       body: string, pieces: seq<string>, b: Parser, exited: bool)
    requires IsNum(major) && IsNum(minor) && H.IsCode(code) && H.IsReason(reason)
    requires (forall h :: h in hs ==> H.IsAny(cfg, h)) && Unframed(cfg, Decimal(code), hs) && body != ""
    requires var r := Fold(cfg, B.NEW_CLIENT, H.HeadText(major, minor, code, reason, hs), 0); !r.end.Failed?
    requires Flat(pieces) == H.HeadText(major, minor, code, reason, hs) + body
    requires Fed(cfg, Parser(B.NEW_CLIENT, 0, Ok), pieces, b, exited) && !b.errno.HeaderOverflow?
    ensures b.errno.Ok? && !exited && b.m.f.state.BodyIdentityEof?
    ensures b.m.log == H.HeadEvents(code, reason, hs) + [Data(Body, body)] && Endings(b.m.log) == 0
  {
    hide Fold, Fed, Fits, H.HeadText, H.HeadEvents, H.IsCode, H.IsReason, IsNum, H.IsAny, Unframed, Decimal, Endings,
      FedRoom, Inv, LogInv;
    EofExact(cfg, B.NEW_CLIENT, major, minor, code, reason, hs);
    var (head, a) := (H.HeadText(major, minor, code, reason, hs), Parser(B.NEW_CLIENT, 0, Ok));
    var m := Fold(cfg, B.NEW_CLIENT, head, 0).m;
    FoldConcat(cfg, B.NEW_CLIENT, head, body);
    EofStays(cfg, m, body);
    NewClientInv();
    assert [] + H.HeadEvents(code, reason, hs) == H.HeadEvents(code, reason, hs);
    B.FoldAll(cfg, B.NEW_CLIENT, head + body);
    FedReads(cfg, a, pieces, b, exited, Taken(m, body));
    HeadEndings(code, reason, hs);
    EndingsEmit(m.log, Data(Body, body));
  }

  lemma NewClientInv()
    ensures ParserInv(Parser(B.NEW_CLIENT, 0, Ok))
  {
    InitInv(Response);
  }

  lemma {:induction false} LinesEndings(hs: seq<Header>)
    ensures Endings(LineEvents(hs)) == 0
  {
    if hs != [] {
      var e := [Data(Field, hs[0].name), Data(Value, Whole(hs[0]))];
      assert e[..1] == [e[0]] && e[..1][..0] == [] && Endings([]) == 0 && Endings(e[..1]) == 0 && Endings(e) == 0;
      EndingsConcat(e, LineEvents(hs[1..]));
      LinesEndings(hs[1..]);
    }
  }

  lemma HeadEndings(code: string, reason: string, hs: seq<Header>)
    ensures Endings(H.HeadEvents(code, reason, hs)) == 0
    ensures !LastIs(H.HeadEvents(code, reason, hs), Body)
  {
    hide LineEvents, Decimal;
    var e: seq<Event> := [Note(MessageBegin), Data(Status, reason)];
    var d: seq<Event> := [Note(HeadersComplete(Decimal(code)))];
    assert e[..1] == [e[0]] && e[..1][..0] == [] && Endings([]) == 0 && Endings(e[..1]) == 0 && Endings(e) == 0;
    assert d[..0] == [] && Endings(d) == 0;
    LinesEndings(hs);
    EndingsConcat(e, LineEvents(hs));
    EndingsConcat(e + LineEvents(hs), d);
  }
}
