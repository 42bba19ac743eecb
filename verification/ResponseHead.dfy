/** The head of a response as text, against the header list that the upper layer is given.
    The header lines may be any, framing headers and folded lines among them. */
module ResponseHead {
  import opened Chars
  import opened Numbers
  import opened ParserState
  import opened UrlChar
  import opened ByteTransition
  import opened StepMachine
  import opened ParserInvariant
  import opened LogInvariant
  import opened Runs
  import opened Calls
  import opened Stepping
  import opened Reading
  import opened HeaderName
  import opened Lengths
  import opened HeaderLine
  import opened HeaderWords
  import opened HttpParser
  import A = HeaderAssembly
  import O = ConnectionOptions

  /** A header line of any name. */
  predicate IsAny(cfg: Config, h: Header) {
    && IsName(h.name) && IsValue(cfg, h.value) && (h.value == "" ==> h.folds == [])
    && (forall l :: l in h.leads ==> IsLead(l)) && (forall f :: f in h.folds ==> IsFold(cfg, f))
  }

  /** What a header line never changes. */
  predicate Kin(f: Fields, g: Fields) {
    && g.m.(flags := f.m.flags) == f.m
    && g.m.flags.trailing == f.m.flags.trailing && g.m.flags.skipBody == f.m.flags.skipBody
  }

  // ----- what the lines record -----

  predicate AnnouncesChunks(h: Header) {
    LowerName(h.name) == TRANSFER_ENCODING && IsChunked(h.value) && h.folds == []
  }

  predicate AnnouncesLength(h: Header) { LowerName(h.name) == CONTENT_LENGTH && h.value != "" }

  predicate AnnouncesUpgrade(h: Header) { LowerName(h.name) == UPGRADE && h.value != "" }

  predicate IsList(h: Header) { LowerName(h.name) == CONNECTION || LowerName(h.name) == PROXY_CONNECTION }

  predicate Lists(h: Header, o: O.Choice) { IsList(h) && h.value != "" && o in O.ListOptions(h.value) }

  /** No list of connection options goes on in another line. */
  predicate Unfolded(hs: seq<Header>) { forall h :: h in hs && IsList(h) ==> h.folds == [] }

  /** The flags with those that a line sets. */
  function Plus(fl: Flags, h: Header): Flags {
    fl.(chunked := fl.chunked || AnnouncesChunks(h), contentLength := fl.contentLength || AnnouncesLength(h),
      upgrade := fl.upgrade || AnnouncesUpgrade(h), keepAlive := fl.keepAlive || Lists(h, O.KeepAlive),
      close := fl.close || Lists(h, O.Close), connUpgrade := fl.connUpgrade || Lists(h, O.Choice.Upgrade))
  }

  function Recorded(fl: Flags, hs: seq<Header>): Flags
    decreases |hs|
  {
    if hs == [] then fl else Recorded(Plus(fl, hs[0]), hs[1..])
  }

  /** The same but for the connection options. */
  predicate Alike(a: Flags, b: Flags) {
    b.(keepAlive := a.keepAlive, close := a.close, connUpgrade := a.connUpgrade) == a
  }

  predicate InValue(s: State) { s.HeaderValue? || s.HeaderAlmostDone? || s.HeaderValueLws? }

  /** The matcher may end in the state that sets the chunked flag. */
  predicate MayChunk(h: HeaderState) {
    h.TransferEncoding? || h.MatchingTransferEncodingChunked? || h.TransferEncodingChunked?
  }

  /** The matcher reads a list of connection options. */
  predicate MayList(h: HeaderState) {
    || h.Connection? || h.MatchingConnectionTokenStart? || h.MatchingConnectionKeepAlive? || h.MatchingConnectionClose?
    || h.MatchingConnectionUpgrade? || h.MatchingConnectionToken? || IsConnectionWord(h)
  }

  /** There is a length exactly when one was read. */
  predicate Sized(f: Fields) {
    && (f.m.flags.contentLength <==> f.length != ULLONG_MAX)
    && (InValue(f.state) ==>
      && (f.hstate.ContentLength? ==> f.m.flags.contentLength)
      && !f.hstate.TransferEncoding? && !f.hstate.Upgrade? && !f.hstate.Connection?)
  }

  /** Within a header line only its own name decides what is recorded. */
  predicate Tracks(f: Fields, g: Fields) {
    && g.m.flags.chunked == f.m.flags.chunked
    && (InValue(g.state) && (InValue(f.state) || f.state.HeaderValueDiscardWs?) ==> TracksValue(f, g))
  }

  predicate TracksValue(f: Fields, g: Fields) {
    && (g.m.flags.contentLength <==> f.m.flags.contentLength || f.hstate.ContentLength?)
    && (g.hstate.ContentLength? <==> f.hstate.ContentLength?) && (!f.hstate.ContentLength? ==> g.length == f.length)
    && (g.m.flags.upgrade <==> f.m.flags.upgrade || (f.state.HeaderValueDiscardWs? && f.hstate.Upgrade?))
    && (MayChunk(g.hstate) ==> MayChunk(f.hstate)) && (MayList(g.hstate) ==> MayList(f.hstate))
    && (!MayList(f.hstate) ==> SameOptions(f, g))
  }

  predicate SameOptions(f: Fields, g: Fields) {
    && g.m.flags.keepAlive == f.m.flags.keepAlive && g.m.flags.close == f.m.flags.close
    && g.m.flags.connUpgrade == f.m.flags.connUpgrade
  }

  predicate Follows(f: Fields, g: Fields) { Kin(f, g) && (Sized(f) ==> Sized(g) && Tracks(f, g)) }

  /** The header lines between two line starts: the flags and the length that they record. */
  predicate Framing(f: Fields, hs: seq<Header>, g: Fields) {
    && Kin(f, g)
    && (Sized(f) ==>
      && Sized(g) && Alike(g.m.flags, Recorded(f.m.flags, hs))
      && (Unfolded(hs) ==> g.m.flags == Recorded(f.m.flags, hs))
      && (forall h :: h in hs && AnnouncesLength(h) ==> !f.m.flags.contentLength && g.length == Decimal(h.value))
      && ((forall h :: h in hs ==> !AnnouncesLength(h)) ==> g.length == f.length))
  }

  /** A length is accepted once, on one line, and if it is one. */
  predicate GoodLine(had: bool, h: Header) { AnnouncesLength(h) ==> !had && GoodLength(h.value) && h.folds == [] }

  predicate GoodLines(had: bool, hs: seq<Header>)
    decreases |hs|
  {
    hs == [] || (GoodLine(had, hs[0]) && GoodLines(had || AnnouncesLength(hs[0]), hs[1..]))
  }

  /** Where no byte of a value is refused. */
  predicate Safe(f: Fields) {
    Sized(f) && (InValue(f.state) || f.state.HeaderValueDiscardWs?) && !f.hstate.ContentLength?
  }

  // ----- values -----

  lemma FollowsThen(f: Fields, g: Fields, k: Fields)
    requires Follows(f, g) && Follows(g, k)
    requires f.state.HeaderFieldStart? || InValue(g.state)
    ensures Follows(f, k)
  {
  }

  /** The machine fails on `text`, or it reads all of it into `n`, which has this state and log. */
  predicate FailsOr(cfg: Config, m: Machine, text: string, n: Machine, s: State, log: seq<Event>) {
    || (Fold(cfg, m, text, 0).end.Failed? && !Safe(m.f))
    || (Reads(cfg, m, text, n) && n.f.state == s && n.log == log && Follows(m.f, n.f))
  }

  lemma FailsOrThen(cfg: Config, m: Machine, a: string, n: Machine, s: State, log: seq<Event>, b: string, o: Machine,
      t: State, log': seq<Event>)
    requires FailsOr(cfg, m, a, n, s, log)
    requires Reads(cfg, m, a, n) ==> FailsOr(cfg, n, b, o, t, log')
    requires m.f.state.HeaderFieldStart? || InValue(s)
    ensures FailsOr(cfg, m, a + b, o, t, log')
    ensures Reads(cfg, m, a + b, o) ==> Reads(cfg, m, a, n) && Reads(cfg, n, b, o)
  {
    hide Follows, InValue, Safe;
    FoldConcat(cfg, m, a, b);
    if Reads(cfg, m, a, n) {
      SafeThen(m.f, n.f);
      if Reads(cfg, n, b, o) {
        ReadThen(cfg, m, a, n, b, o);
        FollowsThen(m.f, n.f, o.f);
      }
    }
    hide Fold;
  }

  lemma SafeThen(f: Fields, g: Fields)
    requires Follows(f, g) && (f.state.HeaderFieldStart? || InValue(g.state))
    ensures Safe(f) ==> Safe(g)
  {
  }

  /** A byte of a header value. */
  predicate ValueShape(f: Fields, o: Outcome, acts: seq<Act>) {
    (o.Fail? && !Safe(f)) || (o.Out? && o == Do(o.f, acts) && o.f.state.HeaderValue? && Follows(f, o.f))
  }

  lemma MatchTracks(h: HeaderState, i: nat, c: char)
    ensures var k := ValueMatch(h, i, c).1;
            && (k.ContentLength? ==> h.ContentLength?) && (MayChunk(k) ==> MayChunk(h)) && (MayList(k) ==> MayList(h))
            && (k.TransferEncoding? ==> h.TransferEncoding?) && (k.Upgrade? ==> h.Upgrade?)
            && (k.Connection? ==> h.Connection?)
  {
  }

  lemma AnyValueChar(f: Fields, c: char)
    requires f.state.HeaderValue?
    ensures ValueShape(f, ValueChar(f, c), [])
  {
    hide ValueMatch, LengthDigit, AfterConnectionWord;
    MatchTracks(f.hstate, f.index, c);
    LengthDigitExact(f, c);
    if IsConnectionWord(f.hstate) { AfterWordTracks(f, c); }
  }

  lemma AfterWordTracks(f: Fields, c: char)
    requires f.state.HeaderValue? && IsConnectionWord(f.hstate)
    ensures var g := AfterConnectionWord(f, c); g.state.HeaderValue? && Follows(f, g)
  {
  }

  lemma AnyTransition(cfg: Config, f: Fields, c: char)
    requires IsValueChar(cfg, c)
    ensures f.state.HeaderValue? ==> ValueShape(f, Transition(cfg, f, c), [])
  {
    if f.state.HeaderValue? { AnyValueChar(f, c); }
    hide ValueChar, ValueShape;
  }

  lemma WordShape(f: Fields, h: HeaderState)
    requires f.state.HeaderValueDiscardWs? || f.state.HeaderValueLws?
    requires !f.hstate.ContentLength? && !f.hstate.Upgrade?
    requires !h.ContentLength? && !h.TransferEncoding? && !h.Upgrade? && !h.Connection?
    requires (MayChunk(h) ==> MayChunk(f.hstate)) && (MayList(h) ==> MayList(f.hstate))
    ensures ValueShape(f, Do(ValueAt(f, h), [Mark(Value)]), [Mark(Value)])
  {
    hide MayChunk, MayList;
  }

  lemma UpgradeShape(f: Fields, c: char)
    requires (f.state.HeaderValueDiscardWs? || f.state.HeaderValueLws?) && f.hstate.Upgrade?
    ensures ValueShape(f, HeaderValueStartStep(f, c), [Mark(Value)])
  {
  }

  lemma LengthShape(f: Fields, c: char)
    requires (f.state.HeaderValueDiscardWs? || f.state.HeaderValueLws?) && f.hstate.ContentLength?
    ensures ValueShape(f, HeaderValueStartStep(f, c), [Mark(Value)])
  {
  }

  /** The first byte of a value, or of a fold of one. */
  lemma AnyStart(f: Fields, c: char)
    requires f.state.HeaderValueDiscardWs? || f.state.HeaderValueLws?
    ensures ValueShape(f, HeaderValueStartStep(f, c), [Mark(Value)])
  {
    hide ConnectionWord, Lower, ValueShape, ValueAt;
    if f.hstate.Upgrade? {
      UpgradeShape(f, c);
    } else if f.hstate.ContentLength? {
      LengthShape(f, c);
    } else {
      WordMayList(Lower(c));
      WordShape(f, General);
      if f.hstate.TransferEncoding? { WordShape(f, MatchingTransferEncodingChunked); }
      if f.hstate.Connection? { WordShape(f, ConnectionWord(Lower(c), MatchingConnectionToken)); }
      if f.hstate.MatchingConnectionTokenStart? { WordShape(f, MatchingConnectionTokenStart); }
    }
  }

  /** A fold never goes on with "chunked", or with a length. */
  lemma FoldStart(f: Fields, c: char)
    requires f.state.HeaderValueLws? || f.state.HeaderValueDiscardWs?
    ensures var o := HeaderValueStartStep(f, c);
            && (f.state.HeaderValueLws? && Sized(f) && o.Out? ==> !MayChunk(o.f.hstate))
            && (f.hstate.ContentLength? && (c == ' ' || c == '\t') ==> o.Fail?)
  {
    hide ConnectionWord, Lower;
    if f.hstate.Connection? { WordMayList(Lower(c)); }
  }

  lemma WordMayList(c: char)
    ensures var h := ConnectionWord(c, MatchingConnectionToken);
            MayList(h) && !MayChunk(h) && !h.ContentLength? && !h.Connection? && !h.Upgrade?
  {
  }

  lemma StartTransition(cfg: Config, f: Fields, c: char)
    ensures f.state.HeaderValueDiscardWs? && c != ' ' && c != '\t' && c != '\r' && c != '\n' ==>
              Transition(cfg, f, c) == HeaderValueStartStep(f, c)
    ensures f.state.HeaderValueLws? && (c == ' ' || c == '\t') ==>
              Transition(cfg, f, c) == HeaderValueStartStep(f, c)
  {
  }

  lemma {:induction false} AnyRest(cfg: Config, m: Machine, v: string) returns (n: Machine)
    requires m.f.state.HeaderValue? && LastIs(m.log, Value) && forall c :: c in v ==> IsValueChar(cfg, c)
    ensures FailsOr(cfg, m, v, n, HeaderValue, Emit(m.log, Data(Value, v)))
    decreases |v|
  {
    hide Transition, Step, Emit, IsValueChar, Fold, Sized, Tracks, Kin;
    if v == "" {
      n := m;
      ReadNothing(cfg, m);
      EmitNothing(m.log, Value);
      FollowsSelf(m.f);
    } else {
      var c, rest := v[0], v[1..];
      assert v == [c] + rest && c in v;
      AnyTransition(cfg, m.f, c);
      var o := Transition(cfg, m.f, c);
      if o.Fail? {
        n := m;
        StepFail(cfg, m, c, o.errno);
        ReadNothing(cfg, m);
        RefuseAfter(cfg, m, "", m, c, rest, o.errno);
        assert "" + [c] + rest == v;
      } else {
        var m' := Machine(o.f, Count(m.f, m.nread), Emit(m.log, Data(Value, [c])));
        Quiet(cfg, m, c, o.f);
        ReadByte(cfg, m, c, m');
        forall d | d in rest ensures IsValueChar(cfg, d) { assert d in v; }
        n := AnyRest(cfg, m', rest);
        EmitEmit(m.log, Value, [c], rest);
        FailsOrThen(cfg, m, [c], m', HeaderValue, m'.log, rest, n, HeaderValue, Emit(m'.log, Data(Value, rest)));
      }
    }
  }

  lemma FollowsSelf(f: Fields)
    requires InValue(f.state)
    ensures Follows(f, f)
  {
  }

  lemma LineEndFollows(f: Fields)
    requires f.state.HeaderValue?
    ensures Follows(f, f.(state := HeaderValueLws))
  {
  }

  /** A value, or a fold of one, from its first byte. */
  lemma AnyValue(cfg: Config, m: Machine, v: string) returns (n: Machine)
    requires v != "" && forall c :: c in v ==> IsValueChar(cfg, c)
    requires if m.f.state.HeaderValueLws? then v[0] == ' ' || v[0] == '\t'
             else m.f.state.HeaderValueDiscardWs? && v[0] != ' ' && v[0] != '\t'
    ensures FailsOr(cfg, m, v + "\r\n", n, HeaderValueLws, Emit(m.log, Data(Value, v)))
    ensures m.f.state.HeaderValueLws? && Sized(m.f) && Reads(cfg, m, v + "\r\n", n) ==> !MayChunk(n.f.hstate)
    ensures m.f.state.HeaderValueLws? && m.f.hstate.ContentLength? ==> !Reads(cfg, m, v + "\r\n", n)
  {
    hide Transition, Step, Emit, Fold, HeaderValueStartStep, Sized, Kin, MayChunk, TracksValue;
    var c, rest := v[0], v[1..];
    assert v == [c] + rest && c in v;
    AnyStart(m.f, c);
    FoldStart(m.f, c);
    StartTransition(cfg, m.f, c);
    var o := Transition(cfg, m.f, c);
    if o.Fail? {
      n := m;
      StepFail(cfg, m, c, o.errno);
      ReadNothing(cfg, m);
      RefuseAfter(cfg, m, "", m, c, rest + "\r\n", o.errno);
      assert "" + [c] + (rest + "\r\n") == v + "\r\n";
    } else {
      n := AnyValueRest(cfg, m, v, o);
    }
  }

  lemma AnyValueRest(cfg: Config, m: Machine, v: string, o: Outcome) returns (n: Machine)
    requires v != "" && (forall c :: c in v ==> IsValueChar(cfg, c))
    requires o == Transition(cfg, m.f, v[0]) && o.Out? && ValueShape(m.f, o, [Mark(Value)])
    requires m.f.state.HeaderValueLws? || m.f.state.HeaderValueDiscardWs?
    requires m.f.state.HeaderValueLws? && Sized(m.f) ==> !MayChunk(o.f.hstate)
    ensures FailsOr(cfg, m, v + "\r\n", n, HeaderValueLws, Emit(m.log, Data(Value, v)))
    ensures m.f.state.HeaderValueLws? && Sized(m.f) && Reads(cfg, m, v + "\r\n", n) ==> !MayChunk(n.f.hstate)
  {
    hide Transition, Step, Emit, Fold, Sized, Kin, MayChunk;
    var c, rest := v[0], v[1..];
    assert v == [c] + rest;
    var m' := Machine(o.f, Count(m.f, m.nread), Emit(m.log, Data(Value, [c])));
    Sets(cfg, m, c, o.f, Value);
    ReadByte(cfg, m, c, m');
    forall d | d in rest ensures IsValueChar(cfg, d) { assert d in v; }
    var e := AnyRest(cfg, m', rest);
    EmitEmit(m.log, Value, [c], rest);
    FailsOrThen(cfg, m, [c], m', HeaderValue, m'.log, rest, e, HeaderValue, Emit(m'.log, Data(Value, rest)));
    ReadLineEnd(cfg, e);
    n := e.(f := e.f.(state := HeaderValueLws), nread := e.nread + 2);
    if e.f.state.HeaderValue? { LineEndFollows(e.f); }
    FailsOrThen(cfg, m, v, e, HeaderValue, Emit(m.log, Data(Value, v)), "\r\n", n, HeaderValueLws,
      Emit(m.log, Data(Value, v)));
  }

  lemma {:induction false} AnyFolds(cfg: Config, m: Machine, folds: seq<string>) returns (n: Machine)
    requires m.f.state.HeaderValueLws? && LastIs(m.log, Value) && forall f :: f in folds ==> IsFold(cfg, f)
    ensures FailsOr(cfg, m, FoldsText(folds), n, HeaderValueLws, Emit(m.log, Data(Value, Flat(folds))))
    ensures folds != [] && Sized(m.f) && Reads(cfg, m, FoldsText(folds), n) ==> !MayChunk(n.f.hstate)
    ensures folds != [] && m.f.hstate.ContentLength? ==> !Reads(cfg, m, FoldsText(folds), n)
    ensures folds == [] ==> n == m
    decreases |folds|
  {
    hide Emit, Fold, IsValueChar, Sized, Kin, MayChunk, TracksValue;
    if folds == [] {
      n := m;
      ReadNothing(cfg, m);
      EmitNothing(m.log, Value);
      FollowsSelf(m.f);
    } else {
      var f, rest := folds[0], folds[1..];
      assert f in folds && forall x :: x in rest ==> x in folds;
      var m' := AnyValue(cfg, m, f);
      if !Reads(cfg, m, f + "\r\n", m') {
        n := m';
      } else {
        n := AnyFolds(cfg, m', rest);
        EmitEmit(m.log, Value, f, Flat(rest));
      }
      FailsOrThen(cfg, m, f + "\r\n", m', HeaderValueLws, Emit(m.log, Data(Value, f)), FoldsText(rest), n,
                  HeaderValueLws, Emit(m.log, Data(Value, Flat(folds))));
    }
  }

  // ----- lines -----

  /** The machine fails on `text` or what follows, or the latter finds it in `n` at a line start, with the
      framing of the header lines `hs` recorded.  No line is refused but for its length. */
  predicate FailsOrLeads(cfg: Config, m: Machine, text: string, n: Machine, rest: string, log: seq<Event>,
      hs: seq<Header>) {
    || (Fold(cfg, m, text + rest, 0).end.Failed? && !(Sized(m.f) && GoodLines(m.f.m.flags.contentLength, hs)))
    || (GoesOn(cfg, m, text, n, rest, log, hs) && (Sized(m.f) ==> GoodLines(m.f.m.flags.contentLength, hs)))
  }

  predicate GoesOn(cfg: Config, m: Machine, text: string, n: Machine, rest: string, log: seq<Event>, hs: seq<Header>) {
    Leads(cfg, m, text, n, rest) && n.f.state.HeaderFieldStart? && n.log == log && Framing(m.f, hs, n.f)
  }

  lemma SettledLog(o: Machine)
    requires o.f.state.HeaderValueLws? || o.f.state.HeaderValueDiscardLws?
    ensures var n := Settled(o);
            && n.f.state.HeaderFieldStart? && n.f == EndOfLine(o.f).(state := HeaderFieldStart)
            && n.log == if o.f.state.HeaderValueLws? then o.log else Emit(o.log, Data(Value, ""))
  {
    hide Emit, EndOfLine;
  }

  lemma FailsOrSettled(cfg: Config, m: Machine, text: string, o: Machine, rest: string, s: State, log: seq<Event>,
      hs: seq<Header>)
    requires FailsOr(cfg, m, text, o, s, log) && StartsLine(rest) && (s.HeaderValueLws? || s.HeaderValueDiscardLws?)
    requires Reads(cfg, m, text, o) ==>
        Framing(m.f, hs, Settled(o).f) && (Sized(m.f) ==> GoodLines(m.f.m.flags.contentLength, hs))
    requires Fold(cfg, m, text, 0).end.Failed? ==> !(Sized(m.f) && GoodLines(m.f.m.flags.contentLength, hs))
    ensures FailsOrLeads(cfg, m, text, Settled(o), rest,
        if s.HeaderValueLws? then log else Emit(log, Data(Value, "")), hs)
  {
    hide Emit, Fold, Settled, StartsLine, Framing, GoodLines;
    FoldConcat(cfg, m, text, rest);
    if Reads(cfg, m, text, o) {
      LeadsSettled(cfg, m, text, o, rest);
      SettledLog(o);
    }
  }

  /** The log after a header line. */
  function LineLog(log: seq<Event>, h: Header): seq<Event> {
    Emit(Emit(log, Data(Field, h.name)), Data(Value, Whole(h)))
  }

  lemma NoFolds()
    ensures Flat([]) == "" && FoldsText([]) == ""
  {
  }

  /** Past the name of a header, its colon and the white space behind it. */
  predicate AtValue(f: Fields, h: Header, g: Fields) {
    && f.state.HeaderFieldStart?
    && g == f.(state := HeaderValueDiscardWs, hstate := g.hstate, index := g.index) && IsNameState(g.hstate)
    && (g.hstate.ContentLength? <==> LowerName(h.name) == CONTENT_LENGTH)
    && (g.hstate.TransferEncoding? <==> LowerName(h.name) == TRANSFER_ENCODING)
    && (g.hstate.Upgrade? <==> LowerName(h.name) == UPGRADE) && (g.hstate.Connection? <==> IsList(h))
  }

  lemma EmptyFraming(f: Fields, h: Header, g: Fields, k: Fields)
    requires AtValue(f, h, g) && h.value == ""
        && k == EndOfLine(g.(state := HeaderValueDiscardLws)).(state := HeaderFieldStart)
    ensures Framing(f, [h], k)
  {
    hide LowerName, O.ListOptions, Recorded, EndOfLine, Unfolded;
    OneLine(f.m.flags, h);
    NameEnds(g.(state := HeaderValueDiscardLws));
  }

  lemma NameEnds(f: Fields)
    requires IsNameState(f.hstate)
    ensures EndOfLine(f) == f
  {
  }

  /** One line. */
  lemma OneLine(fl: Flags, h: Header)
    ensures Recorded(fl, [h]) == Plus(fl, h) && (Unfolded([h]) <==> IsList(h) ==> h.folds == [])
    ensures forall x :: x in [h] <==> x == h
  {
    assert h in [h] && forall x :: x in [h] ==> x == h;
    assert [h][1..] == [];
    hide Plus, IsList;
  }

  lemma GoodOne(had: bool, h: Header)
    ensures GoodLines(had, [h]) <==> GoodLine(had, h)
  {
    assert [h][1..] == [];
    hide GoodLine, AnnouncesLength;
  }

  lemma AnyEmptyLine(cfg: Config, s: Machine, h: Header, m: Machine, rest: string) returns (n: Machine)
    requires StartsLine(rest) && h.value == "" && h.folds == [] && AtValue(s.f, h, m.f)
        && m.log == Emit(s.log, Data(Field, h.name))
    requires FailsOr(cfg, s, h.name + ":" + Flat(h.leads), m, HeaderValueDiscardWs, m.log)
    requires Reads(cfg, s, h.name + ":" + Flat(h.leads), m)
    ensures FailsOrLeads(cfg, s, LineText(h), n, rest, LineLog(s.log, h), [h])
  {
    hide Fold, Emit, StartsLine, Flat, FoldsText, FailsOrLeads, FailsOr, Reads, Settled, Framing, LowerName, GoodLines;
    GoodOne(s.f.m.flags.contentLength, h);
    NoFolds();
    var head := h.name + ":" + Flat(h.leads);
    assert h.value + "\r\n" == "\r\n" && head + "\r\n" + "" == head + "\r\n";
    assert LineText(h) == head + "\r\n" && Whole(h) == "";
    ReadLineEnd(cfg, m);
    var o := m.(f := m.f.(state := HeaderValueDiscardLws), nread := m.nread + 2);
    EndIs(cfg, m, o);
    FailsOrThen(cfg, s, head, m, HeaderValueDiscardWs, m.log, "\r\n", o, HeaderValueDiscardLws, m.log);
    ReadThen(cfg, s, head, m, "\r\n", o);
    ReadsIs(cfg, s, LineText(h), o);
    n := Settled(o);
    SettledLog(o);
    EmptyFraming(s.f, h, m.f, n.f);
    FailsOrSettled(cfg, s, LineText(h), o, rest, HeaderValueDiscardLws, m.log, [h]);
  }

  lemma EndIs(cfg: Config, m: Machine, o: Machine)
    requires m.f.state.HeaderValueDiscardWs?
    requires Reads(cfg, m, "\r\n", o) && o.f == m.f.(state := HeaderValueDiscardLws) && o.log == m.log
    ensures FailsOr(cfg, m, "\r\n", o, HeaderValueDiscardLws, m.log)
  {
    hide Fold, Reads;
  }

  lemma EncodingLine(cfg: Config, m: Machine, v: string, o: Machine)
    requires m.f.state.HeaderValueDiscardWs? && m.f.hstate.TransferEncoding?
    requires v != "" && v[0] != ' ' && v[0] != '\t' && forall c :: c in v ==> IsValueChar(cfg, c)
    requires Reads(cfg, m, v + "\r\n", o)
    ensures EndOfLine(o.f).m.flags.chunked <==> m.f.m.flags.chunked || IsChunked(v)
  {
    hide Fold, IsChunked, EndOfLine, ValueRun, Emit;
    ReadEncoding(cfg, m, v);
    var r := ValueRead(m, v);
    ReadLineEnd(cfg, r);
    var q := r.(f := r.f.(state := HeaderValueLws), nread := r.nread + 2);
    ReadThen(cfg, m, v, r, "\r\n", q);
    assert o == q;
    EndSame(r.f, HeaderValueLws);
  }

  lemma EndSame(f: Fields, s: State)
    ensures EndOfLine(f.(state := s)).m == EndOfLine(f).m
  {
  }

  /** A list of connection options on one line. */
  lemma ListLine(cfg: Config, m: Machine, v: string, o: Machine)
    requires m.f.state.HeaderValueDiscardWs? && m.f.hstate.Connection?
    requires v != "" && v[0] != ' ' && v[0] != '\t' && forall c :: c in v ==> IsValueChar(cfg, c)
    requires Reads(cfg, m, v + "\r\n", o)
    ensures EndOfLine(o.f).m == m.f.m.(flags := O.Add(m.f.m.flags, O.ListOptions(v))) && o.f.length == m.f.length
  {
    hide Fold, EndOfLine, ValueRun, Emit, O.ListOptions, O.Add;
    O.ReadConnection(cfg, m, v);
    var r := ValueRead(m, v);
    ReadLineEnd(cfg, r);
    var q := r.(f := r.f.(state := HeaderValueLws), nread := r.nread + 2);
    ReadThen(cfg, m, v, r, "\r\n", q);
    assert o == q;
    EndSame(r.f, HeaderValueLws);
  }

  /** A length on one line. */
  lemma LengthLine(cfg: Config, m: Machine, v: string, o: Machine)
    requires m.f.state.HeaderValueDiscardWs? && m.f.hstate.ContentLength?
    requires v != "" && v[0] != ' ' && v[0] != '\t' && forall c :: c in v ==> IsValueChar(cfg, c)
    requires Reads(cfg, m, v + "\r\n", o)
    ensures !m.f.m.flags.contentLength && o.f.length == Decimal(v) && GoodLength(v)
  {
    hide Fold, Emit, Decimal, GoodLength, IsNum;
    assert v[0] in v;
    NoLineEndIn(cfg, v[0]);
    if m.f.m.flags.contentLength {
      LengthTwice(cfg, m, v);
    } else {
      ReadLength(cfg, m, v);
      if GoodLength(v) {
        var r := LengthRead(m, v);
        ReadLineEnd(cfg, r);
        ReadThen(cfg, m, v, r, "\r\n", r.(f := r.f.(state := HeaderValueLws), nread := r.nread + 2));
      } else {
        RefuseMore(cfg, m, v, "\r\n", InvalidContentLength);
      }
    }
  }

  lemma LengthReads(cfg: Config, m: Machine, v: string)
    requires m.f.state.HeaderValueDiscardWs? && m.f.hstate.ContentLength? && !m.f.m.flags.contentLength
    requires v != "" && v[0] != ' ' && v[0] != '\t' && (forall c :: c in v ==> IsValueChar(cfg, c)) && GoodLength(v)
    ensures !Fold(cfg, m, v + "\r\n", 0).end.Failed?
  {
    hide Fold, Emit, Decimal, GoodLength, IsNum;
    ReadLength(cfg, m, v);
    var r := LengthRead(m, v);
    ReadLineEnd(cfg, r);
    var q := r.(f := r.f.(state := HeaderValueLws), nread := r.nread + 2);
    ReadThen(cfg, m, v, r, "\r\n", q);
    ReadsIs(cfg, m, v + "\r\n", q);
  }

  lemma LengthTwice(cfg: Config, m: Machine, v: string)
    requires m.f.state.HeaderValueDiscardWs? && m.f.hstate.ContentLength? && m.f.m.flags.contentLength
    requires v != "" && v[0] != ' ' && v[0] != '\t' && v[0] != '\r' && v[0] != '\n'
    ensures Fold(cfg, m, v + "\r\n", 0).end.Failed?
  {
    assert Transition(cfg, m.f, v[0]).Fail?;
    hide Transition, Step;
    StepFail(cfg, m, v[0], Transition(cfg, m.f, v[0]).errno);
    FoldStuck(cfg, m, v + "\r\n", 0, Transition(cfg, m.f, v[0]).errno);
  }

  /** What is known of a whole line: `g` stands before its value, `k` behind it and its folds. */
  predicate LineRead(h: Header, g: Fields, k: Fields) {
    && h.value != "" && k.state.HeaderValueLws? && Follows(g, k)
    && (g.hstate.TransferEncoding? && h.folds == [] ==>
      (EndOfLine(k).m.flags.chunked <==> g.m.flags.chunked || IsChunked(h.value)))
    && (g.hstate.Connection? && h.folds == [] ==>
      EndOfLine(k).m == g.m.(flags := O.Add(g.m.flags, O.ListOptions(h.value))))
    && (Sized(g) && g.hstate.ContentLength? ==> !g.m.flags.contentLength && k.length == Decimal(h.value))
    && (Sized(g) && h.folds != [] ==> !MayChunk(k.hstate))
  }

  /** What a whole line records. */
  lemma FullFraming(f: Fields, h: Header, g: Fields, k: Fields)
    requires AtValue(f, h, g) && LineRead(h, g, k)
    ensures Framing(f, [h], EndOfLine(k).(state := HeaderFieldStart))
  {
    hide LowerName, IsChunked, EndOfLine, MayChunk, MayList, O.ListOptions, Recorded, Unfolded, IsList, Decimal;
    EndsLine(k);
    NameMayChunk(g.hstate);
    OneLine(f.m.flags, h);
    NoLists(h);
    if Sized(f) { FullFlags(f, h, g, k); }
  }

  lemma NoLists(h: Header)
    ensures !IsList(h) ==> forall o :: !Lists(h, o)
    ensures IsList(h) && h.value != "" ==> forall o :: Lists(h, o) <==> o in O.ListOptions(h.value)
    ensures AnnouncesChunks(h) || AnnouncesLength(h) || AnnouncesUpgrade(h) ==> !IsList(h)
  {
    hide LowerName, O.ListOptions;
  }

  lemma FullFlags(f: Fields, h: Header, g: Fields, k: Fields)
    requires AtValue(f, h, g) && LineRead(h, g, k) && Sized(f)
    ensures var fl := EndOfLine(k).m.flags;
            Alike(fl, Plus(f.m.flags, h)) && ((IsList(h) ==> h.folds == []) ==> fl == Plus(f.m.flags, h))
  {
    hide LowerName, IsChunked, EndOfLine, MayChunk, MayList, O.ListOptions, IsList, Decimal;
    EndsLine(k);
    NameMayChunk(g.hstate);
    NoLists(h);
    assert Sized(g) && TracksValue(g, k);
  }

  lemma NameMayChunk(h: HeaderState)
    requires IsNameState(h)
    ensures MayChunk(h) <==> h.TransferEncoding?
    ensures MayList(h) <==> h.Connection?
  {
  }

  lemma EndsLine(f: Fields)
    ensures var g := EndOfLine(f);
            && g == f.(m := g.m) && g.m.flags.contentLength == f.m.flags.contentLength
            && g.m.flags.upgrade == f.m.flags.upgrade && Kin(f, g)
            && (f.m.flags.chunked ==> g.m.flags.chunked)
            && (!MayChunk(f.hstate) ==> g.m.flags.chunked == f.m.flags.chunked)
            && (!MayList(f.hstate) ==> SameOptions(f, g))
  {
    hide MayList, MayChunk, EndConnectionWord;
    LineWords(f.hstate);
    WordFlags(f.m.flags, f.hstate);
  }

  lemma LineWords(h: HeaderState)
    ensures h.TransferEncodingChunked? ==> MayChunk(h) && !MayList(h)
    ensures IsConnectionWord(h) ==> MayList(h) && !MayChunk(h)
  {
  }

  lemma WordFlags(fl: Flags, h: HeaderState)
    ensures EndConnectionWord(fl, h)
        == fl.(keepAlive := fl.keepAlive || h.ConnectionKeepAlive?, close := fl.close || h.ConnectionClose?,
               connUpgrade := fl.connUpgrade || h.ConnectionUpgrade?)
  {
  }

  lemma AnyFullLine(cfg: Config, s: Machine, h: Header, m: Machine, rest: string) returns (n: Machine)
    requires IsAny(cfg, h) && StartsLine(rest) && h.value != "" && AtValue(s.f, h, m.f)
        && m.log == Emit(s.log, Data(Field, h.name))
    requires FailsOr(cfg, s, h.name + ":" + Flat(h.leads), m, HeaderValueDiscardWs, m.log)
    requires Reads(cfg, s, h.name + ":" + Flat(h.leads), m)
    ensures FailsOrLeads(cfg, s, LineText(h), n, rest, LineLog(s.log, h), [h])
  {
    hide Fold, Emit, StartsLine, Flat, FoldsText, FailsOrLeads, Settled, IsLead, IsFold, IsValueChar, IsName, Follows,
      Framing, EndOfLine, IsChunked, LowerName, MayChunk, Sized, LineRead, IsList, GoodLine,
      GoodLines, Safe;
    GoodOne(s.f.m.flags.contentLength, h);
    NamedSized(s.f, h, m.f);
    var head, v := h.name + ":" + Flat(h.leads), h.value;
    var o := AnyValue(cfg, m, v);
    var l := Emit(m.log, Data(Value, v));
    FailsOrThen(cfg, s, head, m, HeaderValueDiscardWs, m.log, v + "\r\n", o, HeaderValueLws, l);
    var first := head + (v + "\r\n");
    var p := o;
    if Reads(cfg, m, v + "\r\n", o) { p := AnyFolds(cfg, o, h.folds); }
    EmitEmit(m.log, Value, v, Flat(h.folds));
    var w := Emit(m.log, Data(Value, Whole(h)));
    FailsOrThen(cfg, s, first, o, HeaderValueLws, l, FoldsText(h.folds), p, HeaderValueLws, w);
    n := Settled(p);
    if Reads(cfg, s, first + FoldsText(h.folds), p) {
      assert Follows(m.f, o.f) && Follows(o.f, p.f);
      LineIsRead(cfg, h, m, o, p);
      FullFraming(s.f, h, m.f, p.f);
      SettledLog(p);
      LineIsGood(cfg, h, m, o, p);
    }
    if Sized(m.f) && GoodLine(m.f.m.flags.contentLength, h) {
      LineAccepted(cfg, h, m, o, l, p, Emit(o.log, Data(Value, Flat(h.folds))));
      ReadThen(cfg, s, head, m, v + "\r\n", o);
      ReadThen(cfg, s, first, o, FoldsText(h.folds), p);
      ReadsIs(cfg, s, first + FoldsText(h.folds), p);
    }
    assert LineText(h) == first + FoldsText(h.folds);
    FailsOrSettled(cfg, s, LineText(h), p, rest, HeaderValueLws, w, [h]);
  }

  lemma NamedSized(f: Fields, h: Header, g: Fields)
    requires AtValue(f, h, g)
    ensures Sized(f) <==> Sized(g)
  {
    hide LowerName, IsList;
  }

  /** A line that is read has no length, or a good one. */
  lemma LineIsGood(cfg: Config, h: Header, m: Machine, o: Machine, p: Machine)
    requires IsAny(cfg, h) && h.value != "" && m.f.state.HeaderValueDiscardWs?
    requires Reads(cfg, m, h.value + "\r\n", o) && (h.folds != [] && Sized(m.f) ==> !o.f.hstate.ContentLength?)
    requires Follows(m.f, o.f) && o.f.state.HeaderValueLws?
    requires m.f.hstate.ContentLength? <==> LowerName(h.name) == CONTENT_LENGTH
    ensures Sized(m.f) ==> GoodLine(m.f.m.flags.contentLength, h)
  {
    hide Fold, Reads, IsLead, IsFold, IsName, MayChunk, MayList, IsChunked, Decimal, Kin, GoodLength, LowerName;
    if m.f.hstate.ContentLength? && Sized(m.f) {
      LengthLine(cfg, m, h.value, o);
      assert TracksValue(m.f, o.f);
    }
  }

  /** A line without a length, or with a good one, is read. */
  lemma LineAccepted(cfg: Config, h: Header, m: Machine, o: Machine, l: seq<Event>, p: Machine, w: seq<Event>)
    requires IsAny(cfg, h) && h.value != "" && m.f.state.HeaderValueDiscardWs? && Sized(m.f)
    requires FailsOr(cfg, m, h.value + "\r\n", o, HeaderValueLws, l)
    requires Reads(cfg, m, h.value + "\r\n", o) ==> FailsOr(cfg, o, FoldsText(h.folds), p, HeaderValueLws, w)
    requires m.f.hstate.ContentLength? <==> LowerName(h.name) == CONTENT_LENGTH
    requires GoodLine(m.f.m.flags.contentLength, h) && (h.folds == [] ==> p == o)
    ensures Reads(cfg, m, h.value + "\r\n", o) && Reads(cfg, o, FoldsText(h.folds), p)
  {
    hide Fold, IsLead, IsFold, IsName, Decimal, GoodLength, LowerName, Follows;
    if m.f.hstate.ContentLength? {
      LengthReads(cfg, m, h.value);
      NoFolds();
      ReadNothing(cfg, o);
    } else {
      SafeThen(m.f, o.f);
    }
  }

  lemma LineIsRead(cfg: Config, h: Header, m: Machine, o: Machine, p: Machine)
    requires IsAny(cfg, h) && h.value != "" && m.f.state.HeaderValueDiscardWs?
    requires Reads(cfg, m, h.value + "\r\n", o) && Reads(cfg, o, FoldsText(h.folds), p) && (h.folds == [] ==> p == o)
    requires Follows(m.f, o.f) && Follows(o.f, p.f) && o.f.state.HeaderValueLws? && p.f.state.HeaderValueLws?
    requires h.folds != [] && Sized(o.f) ==> !MayChunk(p.f.hstate)
    requires h.folds != [] ==> !o.f.hstate.ContentLength?
    ensures LineRead(h, m.f, p.f)
  {
    hide Fold, Reads, IsLead, IsFold, IsName, MayChunk, MayList, EndOfLine, IsChunked, O.ListOptions, O.Add, Decimal,
      Kin, IsValueChar, FoldsText;
    FollowsThen(m.f, o.f, p.f);
    if h.folds == [] {
      if m.f.hstate.TransferEncoding? { EncodingLine(cfg, m, h.value, o); }
      if m.f.hstate.Connection? { ListLine(cfg, m, h.value, o); }
      if m.f.hstate.ContentLength? { LengthLine(cfg, m, h.value, o); }
    } else if Sized(m.f) {
      assert Sized(o.f) && TracksValue(m.f, o.f);
    }
  }

  lemma NamedFollows(f: Fields, h: Header, g: Fields)
    requires AtValue(f, h, g)
    ensures Follows(f, g)
  {
    hide LowerName;
  }

  lemma AnyLine(cfg: Config, s: Machine, h: Header, rest: string) returns (n: Machine)
    requires s.f.state.HeaderFieldStart? && IsAny(cfg, h) && StartsLine(rest)
    ensures FailsOrLeads(cfg, s, LineText(h), n, rest, LineLog(s.log, h), [h])
  {
    hide Fold, Emit, IsName, IsLead, IsFold, IsValueChar, StartsLine, FoldsText, Flat, Named, Settled, FailsOrLeads,
      Follows, LowerName;
    NameNonempty(h.name);
    ReadNameSpace(cfg, s, h);
    var m := Named(s, h);
    NamedIs(s, h);
    NamedFollows(s.f, h, m.f);
    assert FailsOr(cfg, s, h.name + ":" + Flat(h.leads), m, HeaderValueDiscardWs, m.log);
    if h.value == "" { n := AnyEmptyLine(cfg, s, h, m, rest); } else { n := AnyFullLine(cfg, s, h, m, rest); }
  }

  lemma {:induction false} RecordedThen(fl: Flags, a: seq<Header>, b: seq<Header>)
    ensures Recorded(fl, a + b) == Recorded(Recorded(fl, a), b)
    decreases |a|
  {
    hide Plus;
    if a == [] {
      assert a + b == b;
    } else {
      assert (a + b)[0] == a[0] && (a + b)[1..] == a[1..] + b;
      RecordedThen(Plus(fl, a[0]), a[1..], b);
    }
  }

  lemma {:induction false} RecordedAlike(a: Flags, b: Flags, hs: seq<Header>)
    requires Alike(a, b)
    ensures Alike(Recorded(a, hs), Recorded(b, hs))
    decreases |hs|
  {
    hide Lists, AnnouncesChunks, AnnouncesLength, AnnouncesUpgrade;
    if hs != [] { RecordedAlike(Plus(a, hs[0]), Plus(b, hs[0]), hs[1..]); }
  }

  /** Once there is a length, there is one. */
  lemma {:induction false} LengthStays(fl: Flags, hs: seq<Header>)
    ensures Recorded(fl, hs).contentLength <==> fl.contentLength || exists h :: h in hs && AnnouncesLength(h)
    decreases |hs|
  {
    hide Lists, AnnouncesChunks, AnnouncesLength, AnnouncesUpgrade;
    if hs != [] {
      LengthStays(Plus(fl, hs[0]), hs[1..]);
      assert forall h :: h in hs <==> h == hs[0] || h in hs[1..];
    }
  }

  lemma FramingThen(f: Fields, a: seq<Header>, g: Fields, b: seq<Header>, k: Fields)
    requires Framing(f, a, g) && Framing(g, b, k)
    ensures Framing(f, a + b, k)
  {
    hide AnnouncesLength, Sized, Recorded, IsList, Decimal;
    assert forall h :: h in a + b <==> h in a || h in b;
    RecordedThen(f.m.flags, a, b);
    if Sized(f) {
      RecordedAlike(g.m.flags, Recorded(f.m.flags, a), b);
      LengthStays(f.m.flags, a);
    }
  }

  lemma {:induction false} GoodThen(had: bool, a: seq<Header>, b: seq<Header>)
    ensures GoodLines(had, a + b)
        <==> GoodLines(had, a) && GoodLines(had || exists h :: h in a && AnnouncesLength(h), b)
    decreases |a|
  {
    hide GoodLine, AnnouncesLength;
    if a == [] {
      assert a + b == b;
    } else {
      assert (a + b)[0] == a[0] && (a + b)[1..] == a[1..] + b;
      assert forall h :: h in a <==> h == a[0] || h in a[1..];
      GoodThen(had || AnnouncesLength(a[0]), a[1..], b);
    }
  }

  /** The lines `a` and then `b` are good where each are, with the lengths that have been read. */
  lemma GoodBoth(f: Fields, a: seq<Header>, g: Fields, b: seq<Header>)
    requires Framing(f, a, g) && Sized(f)
    ensures Sized(g)
    ensures GoodLines(f.m.flags.contentLength, a + b)
        <==> GoodLines(f.m.flags.contentLength, a) && GoodLines(g.m.flags.contentLength, b)
  {
    hide GoodLines, AnnouncesLength, Recorded, IsList, Decimal;
    GoodThen(f.m.flags.contentLength, a, b);
    LengthStays(f.m.flags, a);
  }

  lemma FailsOrLeadsThen(cfg: Config, m: Machine, a: string, n: Machine, log: seq<Event>, b: string, o: Machine,
      rest: string, log': seq<Event>, hs: seq<Header>, tail: seq<Header>)
    requires FailsOrLeads(cfg, m, a, n, b + rest, log, hs)
    requires GoesOn(cfg, m, a, n, b + rest, log, hs) ==> FailsOrLeads(cfg, n, b, o, rest, log', tail)
    ensures FailsOrLeads(cfg, m, a + b, o, rest, log', hs + tail)
  {
    hide Framing, GoodLines, Sized;
    assert a + b + rest == a + (b + rest);
    hide Fold;
    GoodThen(m.f.m.flags.contentLength, hs, tail);
    if GoesOn(cfg, m, a, n, b + rest, log, hs) {
      if Sized(m.f) { GoodBoth(m.f, hs, n.f, tail); }
      if Leads(cfg, n, b, o, rest) {
        LeadsThen(cfg, m, a, n, b, o, rest);
        if Framing(n.f, tail, o.f) { FramingThen(m.f, hs, n.f, tail, o.f); }
      }
    }
  }

  lemma AnyIsName(cfg: Config, h: Header)
    requires IsAny(cfg, h)
    ensures IsName(h.name)
  {
  }

  lemma TwoEvents(log: seq<Event>, name: string, value: string)
    requires !LastIs(log, Field)
    ensures var l := log + [Data(Field, name), Data(Value, value)];
            Emit(Emit(log, Data(Field, name)), Data(Value, value)) == l && !LastIs(l, Field)
  {
    assert log + [Data(Field, name)] + [Data(Value, value)] == log + [Data(Field, name), Data(Value, value)];
  }

  lemma NoLinesLead(cfg: Config, s: Machine, hs: seq<Header>, rest: string)
    requires hs == [] && s.f.state.HeaderFieldStart? && Leads(cfg, s, Lines(hs), s, rest)
    ensures FailsOrLeads(cfg, s, Lines(hs), s, rest, s.log, hs)
  {
    hide Fold, Leads;
  }

  lemma LinesLog(log: seq<Event>, hs: seq<Header>)
    requires hs != []
    ensures log + [Data(Field, hs[0].name), Data(Value, Whole(hs[0]))] + LineEvents(hs[1..]) == log + LineEvents(hs)
    ensures hs == [hs[0]] + hs[1..] && Lines(hs) == LineText(hs[0]) + Lines(hs[1..])
  {
    hide LineText;
  }

  lemma {:induction false} AnyLines(cfg: Config, s: Machine, hs: seq<Header>, rest: string) returns (n: Machine)
    requires s.f.state.HeaderFieldStart? && !LastIs(s.log, Field) && StartsLine(rest)
    requires forall h :: h in hs ==> IsAny(cfg, h)
    ensures FailsOrLeads(cfg, s, Lines(hs), n, rest, s.log + LineEvents(hs), hs)
    decreases |hs|
  {
    hide Fold, IsAny, LineText, IsName, StartsLine, Emit, Leads, Framing, FailsOrLeads, LastIs, Lines, LineEvents;
    if hs == [] {
      n := s;
      NoLines(cfg, s, hs, rest);
      NoLinesLead(cfg, s, hs, rest);
    } else {
      var h, tail := hs[0], hs[1..];
      assert h in hs && forall x :: x in tail ==> x in hs;
      forall x | x in tail ensures IsName(x.name) { assert IsAny(cfg, x); AnyIsName(cfg, x); }
      LinesStart(tail, rest);
      var m := AnyLine(cfg, s, h, Lines(tail) + rest);
      var log := s.log + [Data(Field, h.name), Data(Value, Whole(h))];
      TwoEvents(s.log, h.name, Whole(h));
      n := m;
      if GoesOn(cfg, s, LineText(h), m, Lines(tail) + rest, log, [h]) { n := AnyLines(cfg, m, tail, rest); }
      LinesLog(s.log, hs);
      FailsOrLeadsThen(cfg, s, LineText(h), m, log, Lines(tail), n, rest, s.log + LineEvents(hs), [h], tail);
    }
  }

  // ----- before the status line -----

  lemma LineEndTransition(cfg: Config, f: Fields, c: char)
    requires f.state.StartRes? && (c == '\r' || c == '\n')
    ensures Transition(cfg, f, c) == Do(Fresh(f), [Notify(MessageBegin)])
    ensures Fresh(Fresh(f)) == Fresh(f) && Fresh(f).state.StartRes?
  {
  }

  function Begins(n: nat): seq<Event> { if n == 0 then [] else Begins(n - 1) + [Note(MessageBegin)] }

  /** Every line end before a response notifies the start of a message, and changes nothing else that
      the status line does not set anew. */
  lemma {:induction false} ReadLineEnds(cfg: Config, m: Machine, text: string)
    requires m.f.state.StartRes? && forall c :: c in text ==> c == '\r' || c == '\n'
    ensures Reads(cfg, m, text,
        Machine(if text == "" then m.f else Fresh(m.f), m.nread + |text|, m.log + Begins(|text|)))
  {
    hide Transition, Step, Fold, Fresh, Reads;
    if text == "" {
      ReadNothing(cfg, m);
      assert m.log + [] == m.log;
    } else {
      var init, c := text[..|text| - 1], text[|text| - 1];
      assert text == init + [c] && c in text && forall d :: d in init ==> d in text;
      ReadLineEnds(cfg, m, init);
      var n := Machine(if init == "" then m.f else Fresh(m.f), m.nread + |init|, m.log + Begins(|init|));
      LineEndTransition(cfg, m.f, c);
      LineEndTransition(cfg, n.f, c);
      StepNotify(cfg, n, c, MessageBegin);
      var o := Machine(Fresh(m.f), m.nread + |text|, m.log + Begins(|text|));
      assert o.log == n.log + [Note(MessageBegin)];
      ReadBytes(cfg, m, init, n, c, o);
    }
  }

  // ----- status line -----

  /** One more byte without a macro and without a live mark. */
  lemma ReadMore(cfg: Config, m: Machine, a: string, n: Machine, c: char, o: Machine)
    requires Reads(cfg, m, a, n) && Counts(n) && StartKind(n.f.state).None?
    requires Transition(cfg, n.f, c) == Do(o.f, []) && o.nread == Count(n.f, n.nread) && o.log == n.log
    ensures Reads(cfg, m, a + [c], o)
  {
    Quiet(cfg, n, c, o.f);
    ReadBytes(cfg, m, a, n, c, o);
    hide Transition, Step, Fold;
  }

  function ProtocolState(i: nat): State {
    match i case 0 => ResH case 1 => ResHT case 2 => ResHTT case 3 => ResHTTP case _ => ResHttpMajor
  }

  lemma ProtocolTransition(cfg: Config, f: Fields, i: nat)
    requires f.state == ProtocolState(i) && i < 4
    ensures Transition(cfg, f, "TTP/"[i]) == Do(f.(state := ProtocolState(i + 1)), [])
  {
  }

  lemma {:induction false} ReadProtocol(cfg: Config, m: Machine, i: nat)
    requires m.f.state.ResH? && i <= 4
    ensures Reads(cfg, m, "TTP/"[..i], m.(f := m.f.(state := ProtocolState(i)), nread := m.nread + i))
  {
    hide Transition, Fold, Reads;
    if i == 0 {
      ReadNothing(cfg, m);
    } else {
      ReadProtocol(cfg, m, i - 1);
      var n := m.(f := m.f.(state := ProtocolState(i - 1)), nread := m.nread + i - 1);
      ProtocolTransition(cfg, n.f, i - 1);
      ReadMore(cfg, m, "TTP/"[..i - 1], n, "TTP/"[i - 1],
        m.(f := m.f.(state := ProtocolState(i)), nread := m.nread + i));
      assert "TTP/"[..i - 1] + ["TTP/"[i - 1]] == "TTP/"[..i];
    }
  }

  lemma VersionTransition(cfg: Config, f: Fields, c: char)
    ensures f.state.StartRes? ==> Transition(cfg, f, 'H') == Do(Fresh(f).(state := ResH), [Notify(MessageBegin)])
    ensures f.state.ResHttpMajor? && IsNum(c) ==>
        Transition(cfg, f, c) == Do(f.(state := ResHttpDot, m := f.m.(major := Digit(c))), [])
    ensures f.state.ResHttpDot? ==> Transition(cfg, f, '.') == Do(f.(state := ResHttpMinor), [])
    ensures f.state.ResHttpMinor? && IsNum(c) ==>
        Transition(cfg, f, c) == Do(f.(state := ResHttpEnd, m := f.m.(minor := Digit(c))), [])
    ensures f.state.ResHttpEnd? ==> Transition(cfg, f, ' ') == Do(f.(state := ResFirstStatusCode), [])
  {
  }

  lemma CodeTransition(cfg: Config, f: Fields, c: char)
    ensures f.state.ResFirstStatusCode? && IsNum(c) ==>
              Transition(cfg, f, c) == Do(f.(state := ResStatusCode, m := f.m.(statusCode := Digit(c))), [])
    ensures f.state.ResStatusCode? && IsNum(c) && f.m.statusCode * 10 + Digit(c) <= 999 ==>
              Transition(cfg, f, c) == Do(f.(m := f.m.(statusCode := f.m.statusCode * 10 + Digit(c))), [])
    ensures f.state.ResStatusCode? ==> Transition(cfg, f, ' ') == Do(f.(state := ResStatusStart), [])
  {
  }

  lemma ReasonTransition(cfg: Config, f: Fields, c: char)
    ensures f.state.ResStatusStart? && c != '\r' && c != '\n' ==>
              Transition(cfg, f, c) == Do(f.(state := ResStatus, index := 0), [Mark(Status)])
    ensures f.state.ResStatusStart? ==>
              Transition(cfg, f, '\r')
                == Do(f.(state := ResLineAlmostDone, index := 0), [Mark(Status), Flush(Status, false)])
    ensures f.state.ResStatus? && c != '\r' && c != '\n' ==> Transition(cfg, f, c) == Do(f, [])
    ensures f.state.ResStatus? ==>
        Transition(cfg, f, '\r') == Do(f.(state := ResLineAlmostDone), [Flush(Status, false)])
    ensures f.state.ResLineAlmostDone? ==> Transition(cfg, f, '\n') == Do(f.(state := HeaderFieldStart), [])
  {
  }

  function StatusLine(major: char, minor: char, code: string, reason: string): string {
    "HTTP/" + [major] + "." + [minor] + " " + code + " " + reason + "\r\n"
  }

  /** A status code: digits of a number up to 999. */
  predicate IsCode(code: string) { code != "" && (forall c :: c in code ==> IsNum(c)) && Decimal(code) <= 999 }

  predicate IsReason(reason: string) { forall c :: c in reason ==> c != '\r' && c != '\n' }

  function Versioned(m: Machine, major: char, minor: char): Machine
    requires IsNum(major) && IsNum(minor)
  {
    var f := Fresh(m.f);
    Machine(f.(state := ResFirstStatusCode, m := f.m.(major := Digit(major), minor := Digit(minor))), m.nread + 9,
            m.log + [Note(MessageBegin)])
  }

  function Begun(m: Machine): Machine {
    Machine(Fresh(m.f).(state := ResHttpMajor), m.nread + 5, m.log + [Note(MessageBegin)])
  }

  lemma ReadBegin(cfg: Config, m: Machine)
    requires m.f.state.StartRes?
    ensures Reads(cfg, m, "HTTP/", Begun(m))
  {
    hide Transition, Fold, Reads, Step, Fresh;
    VersionTransition(cfg, m.f, 'H');
    var a := Machine(Fresh(m.f).(state := ResH), m.nread + 1, m.log + [Note(MessageBegin)]);
    StepNotify(cfg, m, 'H', MessageBegin);
    ReadByte(cfg, m, 'H', a);
    ReadProtocol(cfg, a, 4);
    assert "TTP/"[..4] == "TTP/" && ['H'] + "TTP/" == "HTTP/";
    ReadThen(cfg, m, ['H'], a, "TTP/", Begun(m));
  }

  lemma ReadVersion(cfg: Config, m: Machine, major: char, minor: char)
    requires m.f.state.StartRes? && IsNum(major) && IsNum(minor)
    ensures Reads(cfg, m, "HTTP/" + [major] + "." + [minor] + " ", Versioned(m, major, minor))
  {
    hide Transition, Fold, Reads, Step, IsNum, Digit, Fresh;
    ReadBegin(cfg, m);
    var b := Begun(m);
    VersionTransition(cfg, b.f, major);
    var c := b.(f := b.f.(state := ResHttpDot, m := b.f.m.(major := Digit(major))), nread := m.nread + 6);
    ReadMore(cfg, m, "HTTP/", b, major, c);
    VersionTransition(cfg, c.f, '.');
    var d := c.(f := c.f.(state := ResHttpMinor), nread := m.nread + 7);
    ReadMore(cfg, m, "HTTP/" + [major], c, '.', d);
    VersionTransition(cfg, d.f, minor);
    var e := d.(f := d.f.(state := ResHttpEnd, m := d.f.m.(minor := Digit(minor))), nread := m.nread + 8);
    ReadMore(cfg, m, "HTTP/" + [major] + ".", d, minor, e);
    VersionTransition(cfg, e.f, ' ');
    ReadMore(cfg, m, "HTTP/" + [major] + "." + [minor], e, ' ', Versioned(m, major, minor));
  }

  function Coded(m: Machine, code: string): Machine {
    m.(f := m.f.(state := ResStatusStart, m := m.f.m.(statusCode := Decimal(code))), nread := m.nread + |code| + 1)
  }

  /** The machine after `n` digits of a status code whose value so far is `value`. */
  function Digits(m: Machine, n: nat, value: nat): Machine {
    m.(f := m.f.(state := ResStatusCode, m := m.f.m.(statusCode := value)), nread := m.nread + n)
  }

  lemma ReadDigit(cfg: Config, m: Machine, a: string, value: nat, c: char)
    requires m.f.state.ResFirstStatusCode? && a != "" && Reads(cfg, m, a, Digits(m, |a|, value)) && IsNum(c)
    requires value * 10 + Digit(c) <= 999
    ensures Reads(cfg, m, a + [c], Digits(m, |a| + 1, value * 10 + Digit(c)))
  {
    hide Transition, Fold, Reads, Step, IsNum, Digit;
    var n := Digits(m, |a|, value);
    CodeTransition(cfg, n.f, c);
    ReadMore(cfg, m, a, n, c, Digits(m, |a| + 1, value * 10 + Digit(c)));
  }

  lemma {:induction false} ReadDigits(cfg: Config, m: Machine, code: string)
    requires m.f.state.ResFirstStatusCode? && IsCode(code)
    ensures Reads(cfg, m, code, Digits(m, |code|, Decimal(code)))
    decreases |code|
  {
    hide Transition, Fold, Reads, Step;
    var init, c := code[..|code| - 1], code[|code| - 1];
    assert code == init + [c] && c in code && forall d :: d in init ==> d in code;
    LengthParts(init, c);
    if init == "" {
      FirstDigit(cfg, m, c);
      assert code == [c] && Decimal("") == 0;
    } else {
      hide Decimal, IsNum, Digit;
      ReadDigits(cfg, m, init);
      ReadDigit(cfg, m, init, Decimal(init), c);
    }
  }

  lemma FirstDigit(cfg: Config, m: Machine, c: char)
    requires m.f.state.ResFirstStatusCode? && IsNum(c)
    ensures Reads(cfg, m, [c], Digits(m, 1, Digit(c)))
  {
    hide Transition, Fold, Reads, Step, IsNum, Digit;
    CodeTransition(cfg, m.f, c);
    var n := Digits(m, 1, Digit(c));
    Quiet(cfg, m, c, n.f);
    ReadByte(cfg, m, c, n);
  }

  lemma ReadCode(cfg: Config, m: Machine, code: string)
    requires m.f.state.ResFirstStatusCode? && IsCode(code)
    ensures Reads(cfg, m, code + " ", Coded(m, code))
  {
    hide Transition, Fold, Reads, Decimal, IsNum;
    ReadDigits(cfg, m, code);
    var d := Digits(m, |code|, Decimal(code));
    CodeTransition(cfg, d.f, ' ');
    ReadMore(cfg, m, code, d, ' ', Coded(m, code));
  }

  function Reasoned(m: Machine, reason: string): Machine {
    Machine(m.f.(state := HeaderFieldStart, index := 0), m.nread + |reason| + 2, Emit(m.log, Data(Status, reason)))
  }

  lemma StepEmptyReason(cfg: Config, m: Machine)
    requires m.f.state.ResStatusStart?
    ensures Step(cfg, m, '\r')
        == Went(Machine(m.f.(state := ResLineAlmostDone, index := 0), m.nread + 1, Emit(m.log, Data(Status, ""))),
          false)
  {
    ReasonTransition(cfg, m.f, '\r');
    hide Transition, Emit, Leftover, Perform;
    var one: Marks := map[Status := 0];
    PerformPair(Mark(Status), Flush(Status, false), map[], m.log, '\r');
    assert one - {Status} == map[];
    assert ['\r'][0..0] == "";
    LeftoverNone(Emit(m.log, Data(Status, "")), ['\r']);
  }

  /** The machine after the reason and its CR. */
  function ReasonCr(m: Machine, reason: string): Machine {
    Machine(m.f.(state := ResLineAlmostDone, index := 0), m.nread + |reason| + 1, Emit(m.log, Data(Status, reason)))
  }

  /** The machine after the reason. */
  function InReason(m: Machine, reason: string): Machine {
    Machine(m.f.(state := ResStatus, index := 0), m.nread + |reason|, Emit(m.log, Data(Status, reason)))
  }

  lemma ReasonChars(reason: string)
    requires IsReason(reason) && reason != ""
    ensures reason[0] != '\r' && reason[0] != '\n' && IsReason(reason[1..])
  {
    assert reason[0] in reason && forall c :: c in reason[1..] ==> c in reason;
  }

  lemma ReadReasonRest(cfg: Config, n: Machine, rest: string)
    requires n.f.state.ResStatus? && LastIs(n.log, Status) && IsReason(rest)
    ensures Reads(cfg, n, rest, n.(nread := n.nread + |rest|, log := Emit(n.log, Data(Status, rest))))
  {
    hide Transition, Fold, Reads, Step, Emit, ParsingHeader;
    ParsingStates();
    forall d | d in rest ensures Transition(cfg, n.f, d) == Do(n.f, []) { ReasonTransition(cfg, n.f, d); }
    ReadLoop(cfg, n, rest);
  }

  lemma ReadReasonText(cfg: Config, m: Machine, reason: string)
    requires m.f.state.ResStatusStart? && IsReason(reason) && reason != ""
    ensures Reads(cfg, m, reason, InReason(m, reason))
  {
    hide Transition, Fold, Reads, Step, Emit, ParsingHeader, IsReason;
    ParsingStates();
    ReasonChars(reason);
    var c, rest := reason[0], reason[1..];
    var n := InReason(m, [c]);
    ReasonTransition(cfg, m.f, c);
    Sets(cfg, m, c, n.f, Status);
    ReadByte(cfg, m, c, n);
    ReadReasonRest(cfg, n, rest);
    EmitEmit(m.log, Status, [c], rest);
    assert reason == [c] + rest;
    ReadThen(cfg, m, [c], n, rest, InReason(m, reason));
  }

  lemma ReadReasonCr(cfg: Config, m: Machine, reason: string)
    requires m.f.state.ResStatusStart? && IsReason(reason) && reason != ""
    ensures Reads(cfg, m, reason + ['\r'], ReasonCr(m, reason))
  {
    hide Transition, Fold, Reads, Step, Emit, IsReason;
    ReadReasonText(cfg, m, reason);
    var o := InReason(m, reason);
    ReasonTransition(cfg, o.f, '\r');
    Flushes(cfg, o, '\r', ReasonCr(m, reason).f, Status);
    ReadBytes(cfg, m, reason, o, '\r', ReasonCr(m, reason));
  }

  lemma ReadReason(cfg: Config, m: Machine, reason: string)
    requires m.f.state.ResStatusStart? && IsReason(reason)
    ensures Reads(cfg, m, reason + "\r\n", Reasoned(m, reason))
  {
    hide Transition, Fold, Reads, Step, Emit;
    var e := ReasonCr(m, reason);
    if reason == "" {
      StepEmptyReason(cfg, m);
      ReadByte(cfg, m, '\r', e);
      assert reason + ['\r'] == ['\r'];
    } else {
      ReadReasonCr(cfg, m, reason);
    }
    ReasonTransition(cfg, e.f, '\n');
    Quiet(cfg, e, '\n', Reasoned(m, reason).f);
    ReadBytes(cfg, m, reason + ['\r'], e, '\n', Reasoned(m, reason));
    assert reason + ['\r'] + ['\n'] == reason + "\r\n";
  }

  function StatusRead(m: Machine, major: char, minor: char, code: string, reason: string): Machine
    requires IsNum(major) && IsNum(minor)
  {
    Reasoned(Coded(Versioned(m, major, minor), code), reason)
  }

  lemma ReadStatusLine(cfg: Config, m: Machine, major: char, minor: char, code: string, reason: string)
    requires m.f.state.StartRes? && IsNum(major) && IsNum(minor) && IsCode(code) && IsReason(reason)
    ensures Reads(cfg, m, StatusLine(major, minor, code, reason), StatusRead(m, major, minor, code, reason))
  {
    hide Fold, Reads, IsNum, IsCode, IsReason, Emit, Decimal;
    var v := "HTTP/" + [major] + "." + [minor] + " ";
    var a := Versioned(m, major, minor);
    ReadVersion(cfg, m, major, minor);
    ReadCode(cfg, a, code);
    var b := Coded(a, code);
    ReadThen(cfg, m, v, a, code + " ", b);
    ReadReason(cfg, b, reason);
    ReadThen(cfg, m, v + (code + " "), b, reason + "\r\n", Reasoned(b, reason));
    assert v + (code + " ") + (reason + "\r\n") == StatusLine(major, minor, code, reason);
  }

  // ----- the whole head -----

  function HeadText(major: char, minor: char, code: string, reason: string, hs: seq<Header>): string {
    StatusLine(major, minor, code, reason) + (Lines(hs) + "\r\n")
  }

  /** The head's end notifies, and may end the message too. */
  predicate HeadEnd(o: Outcome, status: nat) {
    match o
    case Fail(_) => true
    case Out(_, acts, _, _) =>
      || acts == [Notify(HeadersComplete(status))]
      || (|acts| == 2 && acts == [Notify(HeadersComplete(status)), acts[1]] && acts[1].Notify?
        && acts[1].note.MessageComplete?)
  }

  lemma HeadEndTransition(cfg: Config, f: Fields)
    requires !f.m.flags.trailing
    ensures f.state.HeaderFieldStart? ==> Transition(cfg, f, '\r') == Do(f.(state := HeadersAlmostDone), [])
    ensures f.state.HeadersAlmostDone? ==> HeadEnd(Transition(cfg, f, '\n'), f.m.statusCode)
  {
  }

  /** `log` is `base`, possibly with the end of the message behind it. */
  predicate MaybeDone(log: seq<Event>, base: seq<Event>) {
    log == base
      || (|log| == |base| + 1 && log == base + [log[|base|]] && log[|base|].Note? && log[|base|].note.MessageComplete?)
  }

  lemma ReadHeadEnd(cfg: Config, s: Machine)
    requires s.f.state.HeaderFieldStart? && !s.f.m.flags.trailing
    ensures var r := Fold(cfg, s, "\r\n", 0);
            r.end.Failed? || MaybeDone(r.m.log, s.log + [Note(HeadersComplete(s.f.m.statusCode))])
  {
    hide Transition, Step;
    var n := s.(f := s.f.(state := HeadersAlmostDone), nread := s.nread + 1);
    HeadEndTransition(cfg, s.f);
    HeadEndTransition(cfg, n.f);
    Quiet(cfg, s, '\r', n.f);
    FoldGo(cfg, s, "\r\n", 0, n);
    var o := Transition(cfg, n.f, '\n');
    if o.Out? {
      if |o.acts| == 2 {
        StepNotifyTwice(cfg, n, '\n', HeadersComplete(s.f.m.statusCode), o.acts[1].note);
      } else {
        StepNotify(cfg, n, '\n', HeadersComplete(s.f.m.statusCode));
      }
    } else {
      StepFail(cfg, n, '\n', o.errno);
    }
  }

  function HeadEvents(code: string, reason: string, hs: seq<Header>): seq<Event> {
    [Note(MessageBegin), Data(Status, reason)] + LineEvents(hs) + [Note(HeadersComplete(Decimal(code)))]
  }

  /** The callbacks for a head, if the parser accepts it. */
  lemma ReadHead(cfg: Config, m: Machine, major: char, minor: char, code: string, reason: string, hs: seq<Header>)
    requires m.f.state.StartRes? && IsNum(major) && IsNum(minor) && IsCode(code) && IsReason(reason)
    requires forall h :: h in hs ==> IsAny(cfg, h)
    ensures var r := Fold(cfg, m, HeadText(major, minor, code, reason, hs), 0);
            r.end.Failed? || MaybeDone(r.m.log, m.log + HeadEvents(code, reason, hs))
  {
    hide Fold, Reads, IsNum, IsCode, IsReason, Decimal, StatusLine, IsAny, Lines, LineEvents, MaybeDone;
    var s := StatusRead(m, major, minor, code, reason);
    ReadStatusLine(cfg, m, major, minor, code, reason);
    assert s.log == m.log + [Note(MessageBegin), Data(Status, reason)];
    var n := AnyLines(cfg, s, hs, "\r\n");
    FoldConcat(cfg, m, StatusLine(major, minor, code, reason), Lines(hs) + "\r\n");
    ReadsIs(cfg, m, StatusLine(major, minor, code, reason), s);
    if !Fold(cfg, s, Lines(hs) + "\r\n", 0).end.Failed? {
      ReadHeadEnd(cfg, n);
      assert n.f.m.statusCode == Decimal(code);
      assert m.log + HeadEvents(code, reason, hs) == n.log + [Note(HeadersComplete(Decimal(code)))];
    }
  }
}
