/** What follows the head of a response: chunks, a body of known length, a body up to the end of the
    connection, or nothing.  Which of these it is depends on the lines of the head, its status, and the
    answer of the client. */
module HeadEnds {
  import opened Chars
  import opened Numbers
  import opened ParserState
  import opened ByteTransition
  import opened StepMachine
  import opened ParserInvariant
  import opened LogInvariant
  import opened Calls
  import opened Stepping
  import opened Reading
  import opened HeaderName
  import opened Lengths
  import opened HeaderLine
  import opened HeaderWords
  import opened HttpParser
  import O = ConnectionOptions
  import H = ResponseHead
  import B = BackToBack

  /** Statuses whose responses have no body. */
  predicate Bodiless(status: nat) { status / 100 == 1 || status == 204 || status == 304 }

  /** At the end of a client's head. */
  predicate AtHeadEnd(f: Fields) {
    f.m.kind.Response? && f.m.verb != CONNECT && !f.m.flags.trailing && !f.m.flags.skipBody && H.Sized(f)
  }

  // ----- by the fields -----

  /** No body follows. */
  predicate EndsThere(cfg: Config, f: Fields) {
    || !cfg.answer.Continue?
    || (!f.m.flags.chunked && if f.m.flags.contentLength then f.length == 0 else Bodiless(f.m.statusCode))
  }

  /** The connection stays open. */
  predicate StaysOpen(f: Fields) {
    if f.m.major > 0 && f.m.minor > 0 then !f.m.flags.close else f.m.flags.keepAlive
  }

  /** The rest of the input is in another protocol. */
  predicate Switches(cfg: Config, f: Fields) {
    cfg.answer.NoBodyNoMore? || (f.m.flags.upgrade && f.m.flags.connUpgrade && f.m.statusCode == 101)
  }

  function NextState(cfg: Config, f: Fields): State {
    if EndsThere(cfg, f) then (if StaysOpen(f) then StartRes else Dead)
    else if f.m.flags.chunked then ChunkSizeStart
    else if f.m.flags.contentLength then BodyIdentity
    else BodyIdentityEof
  }

  function EndActs(cfg: Config, f: Fields): seq<Act> {
    [Notify(HeadersComplete(f.m.statusCode))]
    + if EndsThere(cfg, f) then [Notify(MessageComplete(StaysOpen(f)))] else []
  }

  lemma EndTransition(cfg: Config, f: Fields)
    requires f.state.HeadersAlmostDone? && AtHeadEnd(f)
    ensures var o := Transition(cfg, f, '\n');
            && (o.Out? <==> !(f.m.flags.chunked && f.m.flags.contentLength))
            && (o.Out? ==>
              && o.reset && o.acts == EndActs(cfg, f) && o.f.state == NextState(cfg, f)
              && (o.exit <==> EndsThere(cfg, f) && Switches(cfg, f)) && o.f.length == f.length)
  {
    hide H.Sized;
    var g := f.(state := HeadersDone, m := Answered(f.m, cfg.answer));
    assert Transition(cfg, f, '\n') == HeadersAlmostDoneStep(cfg, f, '\n');
    if !(f.m.flags.chunked && f.m.flags.contentLength) { DoneTransition(cfg, f, g); }
    hide HeadersDoneStep, Transition, Answered, StaysOpen, EndsThere, NextState, Switches;
  }

  lemma DoneTransition(cfg: Config, f: Fields, g: Fields)
    requires AtHeadEnd(f) && !(f.m.flags.chunked && f.m.flags.contentLength)
    requires g == f.(state := HeadersDone, m := Answered(f.m, cfg.answer))
    ensures var o := HeadersDoneStep(g, '\n');
            && o.Out? && o.reset && o.f.state == NextState(cfg, f) && o.f.length == f.length
            && [Notify(HeadersComplete(f.m.statusCode))] + o.acts == EndActs(cfg, f)
            && (o.exit <==> EndsThere(cfg, f) && Switches(cfg, f))
  {
    if EndsThere(cfg, f) { CompletesAs(cfg, f, g); }
  }

  /** Where the message ends there, the parser starts over if and only if the connection stays open. */
  lemma CompletesAs(cfg: Config, f: Fields, g: Fields)
    requires AtHeadEnd(f) && !(f.m.flags.chunked && f.m.flags.contentLength) && EndsThere(cfg, f)
    requires g == f.(state := HeadersDone, m := Answered(f.m, cfg.answer))
    ensures ShouldKeepAlive(g) == ShouldKeepAlive(g.(state := NewMessage(g))) == StaysOpen(f)
  {
  }

  /** The machine after the empty line. */
  predicate Ended(cfg: Config, s: Machine, r: Result) {
    if s.f.m.flags.chunked && s.f.m.flags.contentLength then r.end.Failed?
    else
      && (r.end.Exited? || r.end.Ran?) && (r.end.Exited? <==> EndsThere(cfg, s.f) && Switches(cfg, s.f))
      && r.m.f.state == NextState(cfg, s.f) && r.m.f.length == s.f.length && r.m.nread == 0
      && r.m.log == s.log + [Note(HeadersComplete(s.f.m.statusCode))]
        + if EndsThere(cfg, s.f) then [Note(MessageComplete(StaysOpen(s.f)))] else []
  }

  lemma EndOfHead(cfg: Config, s: Machine)
    requires s.f.state.HeaderFieldStart? && AtHeadEnd(s.f)
    ensures Ended(cfg, s, Fold(cfg, s, "\r\n", 0))
  {
    hide Transition, Step, EndsThere, StaysOpen, Switches, NextState;
    var n := s.(f := s.f.(state := HeadersAlmostDone), nread := s.nread + 1);
    H.HeadEndTransition(cfg, s.f);
    SameEnd(cfg, s.f, n.f);
    EndTransition(cfg, n.f);
    Quiet(cfg, s, '\r', n.f);
    FoldGo(cfg, s, "\r\n", 0, n);
    var o := Transition(cfg, n.f, '\n');
    if o.Fail? {
      StepFail(cfg, n, '\n', o.errno);
    } else if EndsThere(cfg, n.f) {
      StepNotifyTwice(cfg, n, '\n', HeadersComplete(s.f.m.statusCode), MessageComplete(StaysOpen(n.f)));
      assert s.log + [Note(HeadersComplete(s.f.m.statusCode)), Note(MessageComplete(StaysOpen(n.f)))]
        == s.log + [Note(HeadersComplete(s.f.m.statusCode))] + [Note(MessageComplete(StaysOpen(n.f)))];
    } else {
      StepNotify(cfg, n, '\n', HeadersComplete(s.f.m.statusCode));
    }
  }

  lemma SameEnd(cfg: Config, f: Fields, g: Fields)
    requires f.m == g.m && f.length == g.length && !H.InValue(f.state) && !H.InValue(g.state) && AtHeadEnd(f)
    ensures AtHeadEnd(g) && EndsThere(cfg, f) == EndsThere(cfg, g) && StaysOpen(f) == StaysOpen(g)
        && Switches(cfg, f) == Switches(cfg, g) && NextState(cfg, f) == NextState(cfg, g)
  {
  }

  // ----- requests, by the fields -----

  /** At the end of a request's head. */
  predicate AtRequestEnd(f: Fields) {
    f.m.kind.Request? && !f.m.flags.trailing && !f.m.flags.skipBody && H.Sized(f)
  }

  /** The rest of the input is in another protocol. */
  predicate RequestSwitches(cfg: Config, f: Fields) {
    cfg.answer.NoBodyNoMore? || (f.m.flags.upgrade && f.m.flags.connUpgrade) || f.m.verb == CONNECT
  }

  /** No body follows. */
  predicate RequestEnds(cfg: Config, f: Fields) {
    || !cfg.answer.Continue? || f.m.verb == CONNECT
    || (!f.m.flags.chunked && (f.m.flags.contentLength ==> f.length == 0))
  }

  function NextRequestState(cfg: Config, f: Fields): State {
    if RequestEnds(cfg, f) then (if StaysOpen(f) then StartReq else Dead)
    else if f.m.flags.chunked then ChunkSizeStart
    else BodyIdentity
  }

  /** The last byte of a request's head: a body follows if and only if chunks or a length but zero are announced;
      the call returns early if none does and the connection goes over to another protocol, or is a tunnel. */
  lemma RequestEndTransition(cfg: Config, f: Fields)
    requires f.state.HeadersAlmostDone? && AtRequestEnd(f)
    ensures var o := Transition(cfg, f, '\n');
            && (o.Out? <==> !(f.m.flags.chunked && f.m.flags.contentLength))
            && (o.Out? ==>
              && o.reset && o.f.state == NextRequestState(cfg, f) && o.f.length == f.length
              && o.f.m.upgrade == RequestSwitches(cfg, f)
              && (o.exit <==> RequestEnds(cfg, f) && RequestSwitches(cfg, f))
              && o.acts == [Notify(HeadersComplete(f.m.statusCode))]
                + if RequestEnds(cfg, f) then [Notify(MessageComplete(StaysOpen(f)))] else [])
  {
    hide H.Sized;
    var g := f.(state := HeadersDone, m := Answered(f.m, cfg.answer));
    assert Transition(cfg, f, '\n') == HeadersAlmostDoneStep(cfg, f, '\n');
    if !(f.m.flags.chunked && f.m.flags.contentLength) { RequestDone(cfg, f, g); }
    hide HeadersDoneStep, Transition, Answered, StaysOpen, RequestEnds, NextRequestState, RequestSwitches;
  }

  lemma RequestDone(cfg: Config, f: Fields, g: Fields)
    requires AtRequestEnd(f) && !(f.m.flags.chunked && f.m.flags.contentLength)
    requires g == f.(state := HeadersDone, m := Answered(f.m, cfg.answer))
    ensures var o := HeadersDoneStep(g, '\n');
            && o.Out? && o.reset && o.f.state == NextRequestState(cfg, f) && o.f.length == f.length
            && o.f.m.upgrade == RequestSwitches(cfg, f)
            && o.acts == (if RequestEnds(cfg, f) then [Notify(MessageComplete(StaysOpen(f)))] else [])
            && (o.exit <==> RequestEnds(cfg, f) && RequestSwitches(cfg, f))
  {
  }

  // ----- by the lines -----

  predicate Chunks(hs: seq<Header>) { exists h :: h in hs && H.AnnouncesChunks(h) }

  predicate GivesLength(hs: seq<Header>) { exists h :: h in hs && H.AnnouncesLength(h) }

  predicate HasUpgrade(hs: seq<Header>) { exists h :: h in hs && H.AnnouncesUpgrade(h) }

  predicate Listed(hs: seq<Header>, o: O.Choice) { exists h :: h in hs && H.Lists(h, o) }

  lemma {:induction false} RecordedExact(fl: Flags, hs: seq<Header>)
    ensures var g := H.Recorded(fl, hs);
            && (g.chunked <==> fl.chunked || Chunks(hs)) && (g.contentLength <==> fl.contentLength || GivesLength(hs))
            && (g.upgrade <==> fl.upgrade || HasUpgrade(hs))
            && (g.keepAlive <==> fl.keepAlive || Listed(hs, O.KeepAlive))
            && (g.close <==> fl.close || Listed(hs, O.Close))
            && (g.connUpgrade <==> fl.connUpgrade || Listed(hs, O.Choice.Upgrade))
    decreases |hs|
  {
    hide H.Lists, H.AnnouncesChunks, H.AnnouncesLength, H.AnnouncesUpgrade;
    if hs != [] {
      RecordedExact(H.Plus(fl, hs[0]), hs[1..]);
      assert forall h :: h in hs <==> h == hs[0] || h in hs[1..];
    }
  }

  /** At most one length is announced, and it is one, on one line. */
  predicate LengthGood(hs: seq<Header>) {
    && (forall h :: h in hs && H.AnnouncesLength(h) ==> GoodLength(h.value) && h.folds == [])
    && forall i, j :: 0 <= i < j < |hs| ==> !(H.AnnouncesLength(hs[i]) && H.AnnouncesLength(hs[j]))
  }

  lemma {:induction false} GoodExact(had: bool, hs: seq<Header>)
    ensures H.GoodLines(had, hs) <==> LengthGood(hs) && !(had && GivesLength(hs))
    decreases |hs|
  {
    hide H.AnnouncesLength, GoodLength;
    if hs != [] {
      var (h, rest) := (hs[0], hs[1..]);
      GoodExact(had || H.AnnouncesLength(h), rest);
      assert forall x :: x in hs <==> x == h || x in rest;
      if H.AnnouncesLength(h) && !GivesLength(rest) {
        forall j | 0 < j < |hs| ensures !H.AnnouncesLength(hs[j]) { assert hs[j] in rest; }
      }
      if GivesLength(rest) {
        var x :| x in rest && H.AnnouncesLength(x);
        var j :| 0 <= j < |rest| && rest[j] == x;
        assert hs[j + 1] == x;
      }
      forall i, j | 0 <= i < j < |hs| && LengthGood(rest) && !(H.AnnouncesLength(h) && GivesLength(rest))
        ensures !(H.AnnouncesLength(hs[i]) && H.AnnouncesLength(hs[j]))
      {
        assert hs[j] == rest[j - 1] && hs[j] in rest;
        if i > 0 { assert hs[i] == rest[i - 1]; }
      }
      if LengthGood(hs) {
        forall i, j | 0 <= i < j < |rest| ensures !(H.AnnouncesLength(rest[i]) && H.AnnouncesLength(rest[j])) {
          assert rest[i] == hs[i + 1] && rest[j] == hs[j + 1];
        }
      }
    }
  }

  /** The announced lengths are all zero. */
  predicate NoLength(hs: seq<Header>) { forall h :: h in hs && H.AnnouncesLength(h) ==> Decimal(h.value) == 0 }

  /** The message ends with its head: in answer to HEAD always, and else without chunks and with a length of
      zero or, without a length, a status that has no body. */
  predicate NothingFollows(cfg: Config, status: nat, hs: seq<Header>) {
    || !cfg.answer.Continue?
    || (!Chunks(hs) && if GivesLength(hs) then NoLength(hs) else Bodiless(status))
  }

  /** The fields after the lines of a head. */
  predicate LinesRead(major: char, minor: char, status: nat, hs: seq<Header>, f: Fields) {
    && AtHeadEnd(f) && f.m.statusCode == status
    && (f.m.major > 0 <==> major != '0') && (f.m.minor > 0 <==> minor != '0')
    && (f.m.flags.chunked <==> Chunks(hs)) && (f.m.flags.contentLength <==> GivesLength(hs))
    && (f.m.flags.upgrade <==> HasUpgrade(hs))
    && (H.Unfolded(hs) ==>
      && (f.m.flags.keepAlive <==> Listed(hs, O.KeepAlive)) && (f.m.flags.close <==> Listed(hs, O.Close))
      && (f.m.flags.connUpgrade <==> Listed(hs, O.Choice.Upgrade)))
    && (forall h :: h in hs && H.AnnouncesLength(h) ==> f.length == Decimal(h.value))
  }

  lemma StatusFields(m: Machine, major: char, minor: char, code: string, reason: string)
    requires m.f.m.kind.Response? && m.f.m.verb != CONNECT && IsNum(major) && IsNum(minor)
    ensures var s := H.StatusRead(m, major, minor, code, reason);
            && AtHeadEnd(s.f) && s.f.m.statusCode == Decimal(code) && s.f.state.HeaderFieldStart?
            && s.f.m.flags == NO_FLAGS && (s.f.m.major > 0 <==> major != '0') && (s.f.m.minor > 0 <==> minor != '0')
            && !LastIs(s.log, Field) && s.log == m.log + [Note(MessageBegin), Data(Status, reason)]
  {
    hide Decimal;
  }

  lemma LinesFraming(major: char, minor: char, f: Fields, hs: seq<Header>, g: Fields)
    requires H.Framing(f, hs, g) && AtHeadEnd(f) && f.m.flags == NO_FLAGS
    requires (f.m.major > 0 <==> major != '0') && (f.m.minor > 0 <==> minor != '0')
    ensures LinesRead(major, minor, f.m.statusCode, hs, g)
  {
    hide H.AnnouncesLength, H.Sized, H.Recorded, H.Unfolded, Chunks, GivesLength, HasUpgrade, Listed, Decimal;
    RecordedExact(NO_FLAGS, hs);
  }

  /** A head that the parser has read, up to and with its empty line. */
  lemma ReadWhole(cfg: Config, m: Machine, major: char, minor: char, code: string, reason: string, hs: seq<Header>)
      returns (n: Machine)
    requires m.f.state.StartRes? && m.f.m.kind.Response? && m.f.m.verb != CONNECT
    requires IsNum(major) && IsNum(minor) && H.IsCode(code) && H.IsReason(reason)
    requires forall h :: h in hs ==> H.IsAny(cfg, h)
    ensures var r := Fold(cfg, m, H.HeadText(major, minor, code, reason, hs), 0);
            (r.end.Failed? <==> !LengthGood(hs) || (Chunks(hs) && GivesLength(hs))) && (!r.end.Failed? ==>
              && LinesRead(major, minor, Decimal(code), hs, n.f) && Ended(cfg, n, r)
              && n.log + [Note(HeadersComplete(n.f.m.statusCode))] == m.log + H.HeadEvents(code, reason, hs))
  {
    hide Fold, Reads, IsNum, H.IsCode, H.IsReason, Decimal, H.StatusLine, H.IsAny, Lines, LineEvents, H.Framing,
      AtHeadEnd, Leads, H.StatusRead, LastIs, LinesRead, Ended, Chunks, GivesLength, LengthGood, H.GoodLines, H.Sized;
    var s := H.StatusRead(m, major, minor, code, reason);
    StatusFields(m, major, minor, code, reason);
    H.ReadStatusLine(cfg, m, major, minor, code, reason);
    assert StartsLine("\r\n");
    n := H.AnyLines(cfg, s, hs, "\r\n");
    FoldConcat(cfg, m, H.StatusLine(major, minor, code, reason), Lines(hs) + "\r\n");
    ReadsIs(cfg, m, H.StatusLine(major, minor, code, reason), s);
    GoodExact(false, hs);
    SizedAtEnd(s.f);
    if H.GoesOn(cfg, s, Lines(hs), n, "\r\n", s.log + LineEvents(hs), hs) {
      LinesFraming(major, minor, s.f, hs, n.f);
      DoneFacts(major, minor, Decimal(code), hs, n.f);
      EndOfHead(cfg, n);
      LeadsEnd(cfg, s, Lines(hs), n, "\r\n");
      EndedSame(cfg, n, Fold(cfg, n, "\r\n", 0), Fold(cfg, m, H.HeadText(major, minor, code, reason, hs), 0));
      assert m.log + H.HeadEvents(code, reason, hs) == n.log + [Note(HeadersComplete(Decimal(code)))];
    }
  }

  lemma SizedAtEnd(f: Fields)
    requires AtHeadEnd(f)
    ensures H.Sized(f)
  {
  }

  lemma EndedSame(cfg: Config, s: Machine, r: Result, q: Result)
    requires Ended(cfg, s, r) && r.end == q.end && r.m == q.m
    ensures Ended(cfg, s, q)
  {
  }

  lemma DoneFacts(major: char, minor: char, status: nat, hs: seq<Header>, f: Fields)
    requires LinesRead(major, minor, status, hs, f)
    ensures AtHeadEnd(f) && f.m.statusCode == status
    ensures (f.m.flags.chunked <==> Chunks(hs)) && (f.m.flags.contentLength <==> GivesLength(hs))
  {
  }

  lemma LeadsEnd(cfg: Config, m: Machine, text: string, n: Machine, rest: string)
    requires Leads(cfg, m, text, n, rest)
    ensures Fold(cfg, m, text + rest, 0).m == Fold(cfg, n, rest, 0).m
        && Fold(cfg, m, text + rest, 0).end == Fold(cfg, n, rest, 0).end
  {
    hide Fold;
  }

  /** A head is accepted unless it announces a length badly, or together with chunks; and then what follows it
      is chunks, a body of the announced length, a body up to the end of the connection, or nothing, each if and
      only if the lines, the status and the answer of the client say so.  In answer to HEAD nothing follows,
      whatever is announced.  The count of header bytes starts over.  Where nothing follows, the head's last byte
      completes the message, and the connection stays open unless the version and the listed options say
      otherwise. */
  lemma HeadExact(cfg: Config, m: Machine, major: char, minor: char, code: string, reason: string, hs: seq<Header>)
    requires m.f.state.StartRes? && m.f.m.kind.Response? && m.f.m.verb != CONNECT
    requires IsNum(major) && IsNum(minor) && H.IsCode(code) && H.IsReason(reason)
    requires forall h :: h in hs ==> H.IsAny(cfg, h)
    ensures Fold(cfg, m, H.HeadText(major, minor, code, reason, hs), 0).end.Failed?
        <==> !LengthGood(hs) || (Chunks(hs) && GivesLength(hs))
    ensures var r := Fold(cfg, m, H.HeadText(major, minor, code, reason, hs), 0);
            !r.end.Failed? ==>
              var (s, go) := (r.m.f.state, cfg.answer.Continue?);
              && r.m.nread == 0
              && (s.ChunkSizeStart? <==> go && Chunks(hs))
              && (s.BodyIdentity? <==> go && GivesLength(hs) && !NoLength(hs))
              && (forall h :: h in hs && H.AnnouncesLength(h) ==> r.m.f.length == Decimal(h.value))
              && (s.BodyIdentityEof? <==> go && !Chunks(hs) && !GivesLength(hs) && !Bodiless(Decimal(code)))
              && (s.StartRes? || s.Dead? <==> NothingFollows(cfg, Decimal(code), hs))
              && r.m.log == m.log + H.HeadEvents(code, reason, hs)
                + (if NothingFollows(cfg, Decimal(code), hs) then [Note(MessageComplete(s.StartRes?))] else [])
              && (H.Unfolded(hs) ==>
                && (NothingFollows(cfg, Decimal(code), hs) ==>
                  (s.StartRes? <==>
                    if major != '0' && minor != '0' then !Listed(hs, O.Close) else Listed(hs, O.KeepAlive)))
                && (r.end.Exited? <==>
                  && NothingFollows(cfg, Decimal(code), hs)
                  && (cfg.answer.NoBodyNoMore?
                    || (Decimal(code) == 101 && HasUpgrade(hs) && Listed(hs, O.Choice.Upgrade)))))
  {
    hide Fold, IsNum, H.IsCode, H.IsReason, Decimal, H.HeadText, H.HeadEvents, H.IsAny, LengthGood, Chunks, GivesLength,
      HasUpgrade, Listed, H.AnnouncesLength, H.Unfolded, Bodiless, AtHeadEnd;
    var n := ReadWhole(cfg, m, major, minor, code, reason, hs);
    if !Fold(cfg, m, H.HeadText(major, minor, code, reason, hs), 0).end.Failed? {
      EndsAs(cfg, major, minor, Decimal(code), hs, n.f);
    }
  }

  lemma EndsAs(cfg: Config, major: char, minor: char, status: nat, hs: seq<Header>, f: Fields)
    requires LinesRead(major, minor, status, hs, f)
    ensures EndsThere(cfg, f) <==> NothingFollows(cfg, status, hs)
    ensures GivesLength(hs) ==> (f.length > 0 <==> !NoLength(hs))
  {
    hide AtHeadEnd, Chunks, HasUpgrade, Listed, H.AnnouncesLength, H.Unfolded, Bodiless, Decimal;
    if GivesLength(hs) { var h :| h in hs && H.AnnouncesLength(h); }
  }
}
