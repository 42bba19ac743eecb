/** What the client prints, the parser in request mode and the header assembler read back. */
module RoundTrip {
  import opened Chars
  import opened Numbers
  import opened ParserState
  import opened UrlChar
  import opened ByteTransition
  import opened StepMachine
  import opened ParserInvariant
  import opened LogInvariant
  import opened Runs
  import opened Calls
  import opened Stepping
  import opened Reading
  import opened HeaderName
  import opened Lengths
  import opened HeaderLine
  import opened HttpParser
  import opened Headers
  import opened HeaderAssembly
  import opened RequestPrinter
  import opened Chunked
  import opened IdentityBody
  import H = ResponseHead

  // ----- the method -----

  lemma FirstLetter(cfg: Config, f: Fields, verb: nat)
    requires f.state.StartReq? && IsMethod(verb)
    ensures var g := Fresh(f);
            Transition(cfg, f, MethodString(verb)[0])
              == Do(g.(state := ReqMethod, index := 1, m := g.m.(verb := if verb == PUT then POST else verb)),
                [Notify(MessageBegin)])
  {
  }

  lemma NextLetter(cfg: Config, f: Fields, verb: nat)
    requires f.state.ReqMethod? && IsMethod(verb) && 1 <= f.index <= |MethodString(verb)|
    requires f.m.verb == verb || (verb == PUT && f.m.verb == POST && f.index == 1)
    ensures f.index < |MethodString(verb)| ==>
              Transition(cfg, f, MethodString(verb)[f.index])
                == Do(f.(index := f.index + 1, m := f.m.(verb := verb)), [])
    ensures f.index == |MethodString(verb)| ==>
              Transition(cfg, f, ' ') == Do(f.(state := ReqSpacesBeforeUrl, index := f.index + 1), [])
  {
  }

  /** The machine after `i` letters of the method. */
  function InMethod(m: Machine, verb: nat, i: nat): Machine {
    var g := Fresh(m.f);
    Machine(g.(state := ReqMethod, index := i, m := g.m.(verb := if verb == PUT && i == 1 then POST else verb)),
            m.nread + i, m.log + [Note(MessageBegin)])
  }

  lemma {:induction false} ReadLetters(cfg: Config, m: Machine, verb: nat, i: nat)
    requires m.f.state.StartReq? && IsMethod(verb) && 1 <= i <= |MethodString(verb)|
    ensures Reads(cfg, m, MethodString(verb)[..i], InMethod(m, verb, i))
  {
    hide Transition, Fold, Reads, Step, Fresh, MethodString, IsMethod;
    var w := MethodString(verb);
    if i == 1 {
      FirstLetter(cfg, m.f, verb);
      StepNotify(cfg, m, w[0], MessageBegin);
      ReadByte(cfg, m, w[0], InMethod(m, verb, 1));
      assert w[..1] == [w[0]];
    } else {
      ReadLetters(cfg, m, verb, i - 1);
      var n := InMethod(m, verb, i - 1);
      NextLetter(cfg, n.f, verb);
      H.ReadMore(cfg, m, w[..i - 1], n, w[i - 1], InMethod(m, verb, i));
      assert w[..i - 1] + [w[i - 1]] == w[..i];
    }
  }

  function Methoded(m: Machine, verb: nat): Machine {
    var n := InMethod(m, verb, |MethodString(verb)|);
    n.(f := n.f.(state := ReqSpacesBeforeUrl, index := n.f.index + 1), nread := n.nread + 1)
  }

  lemma ReadMethod(cfg: Config, m: Machine, verb: nat)
    requires m.f.state.StartReq? && IsMethod(verb)
    ensures Reads(cfg, m, MethodString(verb) + " ", Methoded(m, verb))
  {
    var w := MethodString(verb);
    assert |w| > 1 && w[..|w|] == w;
    hide Transition, Fold, Reads, Step, Fresh, MethodString, IsMethod;
    ReadLetters(cfg, m, verb, |w|);
    var n := InMethod(m, verb, |w|);
    NextLetter(cfg, n.f, verb);
    H.ReadMore(cfg, m, w, n, ' ', Methoded(m, verb));
  }

  // ----- the path -----

  /** A byte that the request line may hold in a target once it has started with a slash. */
  predicate IsTargetChar(c: char) { IsUrlChar(c) || c == '?' || c == '#' }

  /** A target that the parser reads whole: path, query and fragment alike. */
  predicate IsTarget(path: string) { path != "" && path[0] == '/' && forall c :: c in path ==> IsTargetChar(c) }

  predicate InTarget(s: State) {
    s.ReqPath? || s.ReqQueryStringStart? || s.ReqQueryString? || s.ReqFragmentStart? || s.ReqFragment?
  }

  /** The state after a target. */
  function TargetState(path: string): State {
    if |path| <= 1 then ReqPath else ParseUrlChar(TargetState(path[..|path| - 1]), path[|path| - 1])
  }

  lemma PathTransition(cfg: Config, f: Fields, c: char)
    ensures f.state.ReqSpacesBeforeUrl? && f.m.verb != CONNECT ==>
        Transition(cfg, f, '/') == Do(f.(state := ReqPath), [Mark(Url)])
    ensures InTarget(f.state) && IsTargetChar(c) ==>
              InTarget(ParseUrlChar(f.state, c))
                && Transition(cfg, f, c) == Do(f.(state := ParseUrlChar(f.state, c)), [])
    ensures InTarget(f.state) ==> Transition(cfg, f, ' ') == Do(f.(state := ReqHttpStart), [Flush(Url, false)])
  {
  }

  /** The machine in the middle of a target. */
  function Targeted(m: Machine, path: string): Machine {
    Machine(m.f.(state := TargetState(path)), m.nread + |path|, Emit(m.log, Data(Url, path)))
  }

  function Pathed(m: Machine, path: string): Machine {
    Machine(m.f.(state := ReqHttpStart), m.nread + |path| + 1, Emit(m.log, Data(Url, path)))
  }

  lemma {:induction false} ReadTarget(cfg: Config, m: Machine, path: string)
    requires m.f.state.ReqSpacesBeforeUrl? && m.f.m.verb != CONNECT && IsTarget(path)
    ensures Reads(cfg, m, path, Targeted(m, path)) && InTarget(TargetState(path))
    decreases |path|
  {
    hide Transition, Fold, Reads, Step, Emit, ParsingHeader, IsTargetChar, ParseUrlChar;
    if |path| == 1 {
      assert path == ['/'];
      PathTransition(cfg, m.f, '/');
      Sets(cfg, m, '/', m.f.(state := ReqPath), Url) by { TargetCounts(ReqSpacesBeforeUrl); }
      TargetCounts(ReqSpacesBeforeUrl);
      ReadByte(cfg, m, '/', Targeted(m, path));
    } else {
      var c, init := path[|path| - 1], path[..|path| - 1];
      assert path == init + [c] && c in path && forall d :: d in init ==> d in path;
      ReadTarget(cfg, m, init);
      var n := Targeted(m, init);
      PathTransition(cfg, n.f, c);
      TargetCounts(n.f.state);
      Quiet(cfg, n, c, n.f.(state := ParseUrlChar(n.f.state, c)));
      Grow(m.log, Url, init, c);
      ReadBytes(cfg, m, init, n, c, Targeted(m, path));
    }
  }

  lemma TargetCounts(s: State)
    requires InTarget(s) || s.ReqSpacesBeforeUrl?
    ensures ParsingHeader(s) && (InTarget(s) ==> StartKind(s) == Some(Url))
  {
  }

  lemma ReadPath(cfg: Config, m: Machine, path: string)
    requires m.f.state.ReqSpacesBeforeUrl? && m.f.m.verb != CONNECT && IsTarget(path)
    ensures Reads(cfg, m, path + " ", Pathed(m, path))
  {
    hide Transition, Fold, Reads, Step, Emit, ParsingHeader, IsTargetChar;
    ReadTarget(cfg, m, path);
    var o := Targeted(m, path);
    TargetCounts(o.f.state);
    PathTransition(cfg, o.f, ' ');
    Flushes(cfg, o, ' ', o.f.(state := ReqHttpStart), Url);
    ReadBytes(cfg, m, path, o, ' ', Pathed(m, path));
  }

  // ----- the version -----

  const VERSION := "HTTP/1.1\r\n"

  /** The fields after `i` bytes of the version. */
  function InVersion(f: Fields, i: nat): Fields {
    var g := f.(m := f.m.(major := if i > 5 then 1 else f.m.major, minor := if i > 7 then 1 else f.m.minor));
    g.(state := match i case 0 => ReqHttpStart case 1 => ReqHttpH case 2 => ReqHttpHT case 3 => ReqHttpHTT
                        case 4 => ReqHttpHTTP case 5 => ReqHttpMajor case 6 => ReqHttpDot case 7 => ReqHttpMinor
                        case 8 => ReqHttpEnd case 9 => ReqLineAlmostDone case _ => HeaderFieldStart)
  }

  lemma VersionTransition(cfg: Config, f: Fields, i: nat)
    requires f.state.ReqHttpStart? && i < 10
    ensures Transition(cfg, InVersion(f, i), VERSION[i]) == Do(InVersion(f, i + 1), [])
  {
    VersionState(f, i);
    hide InVersion, RequestVersionStep, Transition;
    ToVersion(cfg, InVersion(f, i), VERSION[i]);
    if i < 5 { ProtocolStep(f, i); } else { NumberStep(f, i); }
  }

  lemma VersionState(f: Fields, i: nat)
    requires i < 10
    ensures var s := InVersion(f, i).state; IsVersionState(s) && StartKind(s).None? && ParsingHeader(s)
    ensures f.state.ReqHttpStart? ==> InVersion(f, 0) == f
  {
  }

  lemma ToVersion(cfg: Config, f: Fields, ch: char)
    requires IsVersionState(f.state)
    ensures Transition(cfg, f, ch) == RequestVersionStep(f, ch)
  {
    hide RequestVersionStep, HeaderStep, BodyStep, StatusStep;
  }

  lemma ProtocolStep(f: Fields, i: nat)
    requires f.state.ReqHttpStart? && i < 5
    ensures RequestVersionStep(InVersion(f, i), VERSION[i]) == Do(InVersion(f, i + 1), [])
  {
  }

  lemma NumberStep(f: Fields, i: nat)
    requires f.state.ReqHttpStart? && 5 <= i < 10
    ensures RequestVersionStep(InVersion(f, i), VERSION[i]) == Do(InVersion(f, i + 1), [])
  {
  }

  lemma {:induction false} ReadVersion(cfg: Config, m: Machine, i: nat)
    requires m.f.state.ReqHttpStart? && i <= 10
    ensures Reads(cfg, m, VERSION[..i], m.(f := InVersion(m.f, i), nread := m.nread + i))
  {
    hide Transition, Fold, Reads, Step, InVersion, StartKind, ParsingHeader;
    if i == 0 {
      VersionState(m.f, 0);
      ReadNothing(cfg, m);
    } else {
      VersionState(m.f, i - 1);
      ReadVersion(cfg, m, i - 1);
      VersionTransition(cfg, m.f, i - 1);
      var n := m.(f := InVersion(m.f, i - 1), nread := m.nread + i - 1);
      H.ReadMore(cfg, m, VERSION[..i - 1], n, VERSION[i - 1], m.(f := InVersion(m.f, i), nread := m.nread + i));
      assert VERSION[..i - 1] + [VERSION[i - 1]] == VERSION[..i];
    }
  }

  /** The machine after the request line. */
  function RequestLineRead(m: Machine, verb: nat, path: string): Machine {
    var n := Pathed(Methoded(m, verb), path);
    n.(f := InVersion(n.f, 10), nread := n.nread + 10)
  }

  lemma ReadRequestLine(cfg: Config, m: Machine, verb: nat, path: string)
    requires m.f.state.StartReq? && IsMethod(verb) && IsTarget(path)
    ensures Reads(cfg, m, MethodString(verb) + " " + path + " HTTP/1.1\r\n", RequestLineRead(m, verb, path))
  {
    hide Fold, Reads, MethodString, IsTarget, Emit;
    var a := Methoded(m, verb);
    ReadMethod(cfg, m, verb);
    ReadPath(cfg, a, path);
    var b := Pathed(a, path);
    ReadThen(cfg, m, MethodString(verb) + " ", a, path + " ", b);
    ReadVersion(cfg, b, 10);
    assert VERSION[..10] == VERSION;
    ReadThen(cfg, m, MethodString(verb) + " " + (path + " "), b, VERSION, RequestLineRead(m, verb, path));
    assert MethodString(verb) + " " + (path + " ") + VERSION == MethodString(verb) + " " + path + " HTTP/1.1\r\n";
  }

  // ----- the end of the head -----

  /** A request of this method on a kept-alive HTTP/1.1 connection, no framing but by length. */
  predicate Requesting(f: Fields, verb: nat) {
    f.m.(flags := NO_FLAGS) == Message(Request, NO_FLAGS, 1, 1, 0, verb, false)
    && f.m.flags == NO_FLAGS.(contentLength := f.m.flags.contentLength) && verb != CONNECT
  }

  lemma RequestingSame(f: Fields, g: Fields, verb: nat)
    requires Requesting(f, verb) && g.m == f.m
    ensures Requesting(g, verb) && g.m.verb == verb
  {
  }

  lemma EndTransition(cfg: Config, f: Fields, verb: nat)
    requires Requesting(f, verb) && cfg.answer.Continue?
    ensures f.state.HeaderFieldStart? ==> Transition(cfg, f, '\r') == Do(f.(state := HeadersAlmostDone), [])
    ensures f.state.HeadersAlmostDone? && f.length == ULLONG_MAX ==>
              Transition(cfg, f, '\n')
                == Out(f.(state := StartReq), [Notify(HeadersComplete(0)), Notify(MessageComplete(true))], true, false)
    ensures f.state.HeadersAlmostDone? && f.length != ULLONG_MAX && f.length > 0 ==>
              Transition(cfg, f, '\n') == Out(f.(state := BodyIdentity), [Notify(HeadersComplete(0))], true, false)
  {
    assert [Notify(HeadersComplete(0))] + [Notify(MessageComplete(true))]
      == [Notify(HeadersComplete(0)), Notify(MessageComplete(true))];
  }

  /** The CR that opens the empty line. */
  function HeadCr(m: Machine): Machine { m.(f := m.f.(state := HeadersAlmostDone), nread := m.nread + 1) }

  lemma ReadHeadEnd(cfg: Config, m: Machine, verb: nat)
    requires m.f.state.HeaderFieldStart? && Requesting(m.f, verb) && cfg.answer.Continue?
    ensures Reads(cfg, m, "\r", HeadCr(m))
    ensures m.f.length == ULLONG_MAX ==>
              Step(cfg, HeadCr(m), '\n') == Went(Machine(m.f.(state := StartReq), 0,
                m.log + [Note(HeadersComplete(0)), Note(MessageComplete(true))]), false)
    ensures m.f.length != ULLONG_MAX && m.f.length > 0 ==>
              Step(cfg, HeadCr(m), '\n')
                == Went(Machine(m.f.(state := BodyIdentity), 0, m.log + [Note(HeadersComplete(0))]), false)
  {
    hide Transition, Step, Fold;
    var n := HeadCr(m);
    EndTransition(cfg, m.f, verb);
    EndTransition(cfg, n.f, verb);
    Quiet(cfg, m, '\r', n.f);
    ReadByte(cfg, m, '\r', n);
    if m.f.length == ULLONG_MAX { StepNotifyTwice(cfg, n, '\n', HeadersComplete(0), MessageComplete(true)); }
    else if m.f.length > 0 { StepNotify(cfg, n, '\n', HeadersComplete(0)); }
  }

  // ----- the whole request -----

  const NEW_SERVER := Machine(InitFields(Request), 0, [])

  /** What the client is given, and sends as it is. */
  predicate IsRequest(cfg: Config, verb: nat, path: string, user: seq<Pair>, host: string, body: string) {
    && cfg.answer.Continue? && IsMethod(verb) && IsTarget(path) && |body| <= MAX_CONTENT_LENGTH
    && (forall c :: c in host ==> IsHostChar(c)) && (forall h :: h in user ==> IsUserHeader(cfg, h))
  }

  function PlainHeaders(user: seq<Pair>, host: string): seq<Pair> { user + [Pair("Host", host)] }

  lemma {:induction false} LinesConcat(a: seq<Pair>, b: seq<Pair>)
    ensures PrintLines(a + b) == PrintLines(a) + PrintLines(b)
  {
    if a == [] {
      assert a + b == b;
      assert "" + PrintLines(b) == PrintLines(b);
    } else {
      var h, rest := a[0], a[1..];
      var line := h.name + ": " + h.value + "\r\n";
      assert (a + b)[0] == h && (a + b)[1..] == rest + b;
      LinesConcat(rest, b);
      assert PrintLines(a + b) == line + PrintLines(rest + b) && PrintLines(a) == line + PrintLines(rest);
      hide PrintLines;
      assert line + PrintLines(rest) + PrintLines(b) == line + (PrintLines(rest) + PrintLines(b));
    }
  }

  lemma {:induction false} EventsConcat(a: seq<Pair>, b: seq<Pair>)
    ensures FieldEvents(a + b) == FieldEvents(a) + FieldEvents(b)
  {
    if a == [] {
      assert a + b == b;
      assert [] + FieldEvents(b) == FieldEvents(b);
    } else {
      var h, rest := a[0], a[1..];
      var e := [Data(Field, h.name), Data(Value, h.value)];
      assert (a + b)[0] == h && (a + b)[1..] == rest + b;
      EventsConcat(rest, b);
      assert FieldEvents(a + b) == e + FieldEvents(rest + b) && FieldEvents(a) == e + FieldEvents(rest);
      hide FieldEvents;
      assert e + FieldEvents(rest) + FieldEvents(b) == e + (FieldEvents(rest) + FieldEvents(b));
    }
  }

  lemma {:induction false} PrintedPlain(cfg: Config, hs: seq<Pair>)
    requires forall h :: h in hs ==> IsUserHeader(cfg, h)
    ensures AllPlain(cfg, PrintedHeaders(hs))
  {
    hide IsPlain, TrimEnd;
    if hs != [] {
      assert hs[0] in hs && forall x :: x in hs[1..] ==> x in hs;
      PrintedPlain(cfg, hs[1..]);
    }
  }

  lemma ReadsLead(cfg: Config, m: Machine, a: string, n: Machine, rest: string)
    requires Reads(cfg, m, a, n)
    ensures Leads(cfg, m, a, n, rest)
  {
    FoldConcat(cfg, m, a, rest);
    hide Fold;
  }

  /** The machine after the request line and the headers but for the length. */
  function PlainHeadDone(verb: nat, path: string, user: seq<Pair>, host: string): Machine {
    LinesDone(RequestLineRead(NEW_SERVER, verb, path), PrintedHeaders(PlainHeaders(user, host)))
  }

  lemma RequestLineDone(verb: nat, path: string)
    requires IsMethod(verb)
    ensures var r := RequestLineRead(NEW_SERVER, verb, path);
            && r.f.state.HeaderFieldStart? && Requesting(r.f, verb) && r.f.m.flags == NO_FLAGS
              && r.f.length == ULLONG_MAX
            && r.log == [Note(MessageBegin), Data(Url, path)]
  {
    assert |MethodString(verb)| > 1;
    hide MethodString;
  }

  lemma ReadPlainHead(cfg: Config, verb: nat, path: string, user: seq<Pair>, host: string, rest: string)
    requires IsRequest(cfg, verb, path, user, host, "") && StartsLine(rest)
    ensures var s := PlainHeadDone(verb, path, user, host);
            && Leads(cfg, NEW_SERVER,
              MethodString(verb) + " " + path + " HTTP/1.1\r\n" + PrintLines(PlainHeaders(user, host)), s, rest)
            && s.f.state.HeaderFieldStart? && Requesting(s.f, verb) && s.f.m.flags == NO_FLAGS
              && s.f.length == ULLONG_MAX
            && s.log == [Note(MessageBegin), Data(Url, path)] + FieldEvents(PlainHeaders(user, host))
  {
    hide Fold, Reads, MethodString, IsTarget, IsUserHeader, IsHostChar, PrintLines, FieldEvents, AllPlain, StartsLine,
      Lines, LineEvents,
      RequestLineRead, Leads, Requesting, LinesDone, IsMethod;
    var hs := PlainHeaders(user, host);
    HostPlain(cfg, host);
    PrintedPlain(cfg, hs);
    PrintedLines(hs);
    var r := RequestLineRead(NEW_SERVER, verb, path);
    RequestLineDone(verb, path);
    ReadRequestLine(cfg, NEW_SERVER, verb, path);
    var s := ReadLines(cfg, r, PrintedHeaders(hs), rest);
    var line := MethodString(verb) + " " + path + " HTTP/1.1\r\n";
    ReadsLead(cfg, NEW_SERVER, line, r, PrintLines(hs) + rest);
    LeadsThen(cfg, NEW_SERVER, line, r, PrintLines(hs), s, rest);
    RequestingSame(r.f, s.f, verb);
  }

  lemma DigitsValue(cfg: Config, t: string)
    requires IsDigits(t)
    ensures t != "" && IsLength(t) && IsValue(cfg, t) && TrimEnd(t) == t
  {
    assert t[0] in t && t[|t| - 1] in t;
    forall c | c in t ensures IsValueChar(cfg, c) { assert IsNum(c); }
  }

  lemma LengthHeader(cfg: Config, body: string)
    requires |body| <= MAX_CONTENT_LENGTH
    ensures var t := DecimalText(|body|);
            IsLengthHeader(cfg, Printed("Content-Length", t)) && Decimal(t) == |body|
  {
    hide Decimal, DecimalText, LowerName, IsNum, IsValue, IsName, IsLength, IsDigits;
    ContentLengthName();
    DecimalTextValue(|body|);
    var t := DecimalText(|body|);
    DigitsValue(cfg, t);
  }

  lemma ContentLengthName()
    ensures IsName("Content-Length") && LowerName("Content-Length") == CONTENT_LENGTH
  {
    var n := "Content-Length";
    LowerNameAt(n);
    assert forall i :: 0 <= i < 14 ==> Token(n[i]) == CONTENT_LENGTH[i];
    assert LowerName(n) == CONTENT_LENGTH;
  }

  lemma {:induction false} LowerNameAt(name: string)
    ensures forall i :: 0 <= i < |name| ==> LowerName(name)[i] == Token(name[i])
  {
    hide Token;
    if name != "" { LowerNameAt(name[..|name| - 1]); }
  }

  lemma {:induction false} FieldEventsEnd(log: seq<Event>, hs: seq<Pair>)
    requires !LastIs(log, Field)
    ensures !LastIs(log + FieldEvents(hs), Field)
    decreases |hs|
  {
    if hs == [] {
      assert log + [] == log;
    } else {
      var e := [Data(Field, hs[0].name), Data(Value, hs[0].value)];
      assert log + FieldEvents(hs) == log + e + FieldEvents(hs[1..]);
      FieldEventsEnd(log + e, hs[1..]);
    }
  }

  lemma ReadLengthLine(cfg: Config, a: Machine, h: Header, verb: nat, body: string, rest: string)
    requires StartsLine(rest) && a.f.state.HeaderFieldStart? && Requesting(a.f, verb) && a.f.m.flags == NO_FLAGS
        && !LastIs(a.log, Field)
    requires IsLengthHeader(cfg, h) && Decimal(h.value) == |body|
    ensures Leads(cfg, a, LineText(h), LineDone(a, h), rest)
    ensures var s := LineDone(a, h);
            && s.f.state.HeaderFieldStart? && Requesting(s.f, verb) && s.f.length == |body|
            && s.log == a.log + [Data(Field, h.name), Data(Value, h.value)]
  {
    assert h.value != "" && h.name != "";
    hide Fold, Emit, Reads, Leads, LineText, LowerName, Decimal, IsName, NameRead;
    ReadLine(cfg, a, h, rest);
    ReadNameSpace(cfg, a, h);
    assert Whole(h) == h.value by { assert Flat([]) == ""; }
    H.TwoEvents(a.log, h.name, h.value);
  }

  lemma LengthStarts(h: Header, rest: string)
    requires h.name == "Content-Length"
    ensures StartsLine(LineText(h) + rest)
  {
    assert (LineText(h) + rest)[0] == "Content-Length"[0] == 'C';
  }

  /** The machine before the empty line. */
  function HeadDone(verb: nat, path: string, user: seq<Pair>, host: string, body: string): Machine {
    var a := PlainHeadDone(verb, path, user, host);
    if body == "" then a else LineDone(a, Printed("Content-Length", DecimalText(|body|)))
  }

  lemma ReadHead(cfg: Config, verb: nat, path: string, user: seq<Pair>, host: string, body: string, rest: string)
    requires IsRequest(cfg, verb, path, user, host, body) && StartsLine(rest)
    ensures var (hs, s) := (RequestHeaders(user, host, body), HeadDone(verb, path, user, host, body));
            && Leads(cfg, NEW_SERVER, MethodString(verb) + " " + path + " HTTP/1.1\r\n" + PrintLines(hs), s, rest)
            && s.f.state.HeaderFieldStart? && Requesting(s.f, verb)
              && s.f.length == (if body == "" then ULLONG_MAX else |body|)
            && s.log == [Note(MessageBegin), Data(Url, path)] + FieldEvents(hs)
  {
    hide Fold, MethodString, IsTarget, IsUserHeader, IsHostChar, PrintLines, FieldEvents, IsMethod, DecimalText, Leads,
      Decimal, LowerName,
      PlainHeadDone, LineDone, Requesting, LineText, IsName;
    var hs, plain := RequestHeaders(user, host, body), PlainHeaders(user, host);
    var line := MethodString(verb) + " " + path + " HTTP/1.1\r\n";
    var a := PlainHeadDone(verb, path, user, host);
    if body == "" {
      assert hs == plain;
      ReadPlainHead(cfg, verb, path, user, host, rest);
    } else {
      var p := Pair("Content-Length", DecimalText(|body|));
      var h := Printed(p.name, p.value);
      assert hs == plain + [p];
      LengthHeader(cfg, body);
      LinesConcat(plain, [p]);
      EventsConcat(plain, [p]);
      PrintedOne(p);
      LengthStarts(h, rest);
      ReadPlainHead(cfg, verb, path, user, host, LineText(h) + rest);
      FieldEventsEnd([Note(MessageBegin), Data(Url, path)], plain);
      ReadLengthLine(cfg, a, h, verb, body, rest);
      LeadsThen(cfg, NEW_SERVER, line + PrintLines(plain), a, LineText(h), LineDone(a, h), rest);
      assert line + PrintLines(plain) + LineText(h) == line + PrintLines(hs);
      assert [Note(MessageBegin), Data(Url, path)] + FieldEvents(plain) + FieldEvents([p])
        == [Note(MessageBegin), Data(Url, path)] + FieldEvents(hs);
    }
  }

  lemma PrintedOne(p: Pair)
    ensures PrintLines([p]) == LineText(Printed(p.name, p.value))
        && FieldEvents([p]) == [Data(Field, p.name), Data(Value, p.value)]
  {
    PrintedLines([p]);
    assert [Printed(p.name, p.value)][1..] == [] && [p][1..] == [];
    assert Lines([]) == "" && PrintLines([]) == "" && FieldEvents([]) == [];
    assert LineText(Printed(p.name, p.value)) + "" == LineText(Printed(p.name, p.value));
    hide LineText;
  }

  /** The callbacks for a whole request. */
  function RequestEvents(path: string, hs: seq<Pair>, body: string): seq<Event> {
    [Note(MessageBegin), Data(Url, path)] + FieldEvents(hs) + [Note(HeadersComplete(0))]
      + (if body == "" then [] else [Data(Body, body)]) + [Note(MessageComplete(true))]
  }

  /** What follows the headers, up to the last byte, and that byte. */
  lemma ReadNoBody(cfg: Config, s: Machine, verb: nat) returns (k: Machine, n: Machine)
    requires s.f.state.HeaderFieldStart? && Requesting(s.f, verb) && cfg.answer.Continue? && s.f.length == ULLONG_MAX
    ensures Reads(cfg, s, "\r", k) && !k.f.state.StartReq? && Step(cfg, k, '\n') == Went(n, false)
    ensures n.f.state.StartReq? && n.f.m.verb == verb
        && n.log == s.log + [Note(HeadersComplete(0)), Note(MessageComplete(true))]
  {
    hide Fold, Step;
    ReadHeadEnd(cfg, s, verb);
    k, n := HeadCr(s),
      Machine(s.f.(state := StartReq), 0, s.log + [Note(HeadersComplete(0)), Note(MessageComplete(true))]);
  }

  lemma RequestKept(f: Fields, verb: nat)
    requires Requesting(f, verb)
    ensures !f.m.upgrade && ShouldKeepAlive(BodyDone(f)) && NewMessage(BodyDone(f)) == StartReq
  {
  }

  lemma ReadWithBody(cfg: Config, s: Machine, verb: nat, body: string) returns (k: Machine, n: Machine)
    requires s.f.state.HeaderFieldStart? && Requesting(s.f, verb) && cfg.answer.Continue?
    requires body != "" && s.f.length == |body| < ULLONG_MAX
    ensures Reads(cfg, s, "\r\n" + body[..|body| - 1], k) && !k.f.state.StartReq?
        && Step(cfg, k, body[|body| - 1]) == Went(n, false)
    ensures n.f.state.StartReq? && n.f.m.verb == verb
    ensures n.log == s.log + [Note(HeadersComplete(0)), Data(Body, body), Note(MessageComplete(true))]
  {
    hide Fold, Step, Reads, Emit, Requesting;
    ReadHeadEnd(cfg, s, verb);
    var c := HeadCr(s);
    var b := Machine(s.f.(state := BodyIdentity), 0, s.log + [Note(HeadersComplete(0))]);
    assert "\r" + ['\n'] == "\r\n";
    ReadBytes(cfg, s, "\r", c, '\n', b);
    var init := body[..|body| - 1];
    RequestingSame(s.f, b.f, verb);
    ReadInBody(cfg, b, init);
    LastByte(cfg, b, body);
    RequestKept(b.f, verb);
    k := PartRead(b, init);
    n := WholeRead(b, body);
    ReadThen(cfg, s, "\r\n", b, init, k);
    RequestingSame(s.f, n.f, verb);
    assert n.log == s.log + [Note(HeadersComplete(0)), Data(Body, body), Note(MessageComplete(true))];
  }

  /** The request as the parser reads it: all bytes but the last lead to `k`, with the message not
      complete; the last byte completes it and leaves a parser for the next request. */
  lemma ReadRequest(cfg: Config, verb: nat, path: string, user: seq<Pair>, host: string, body: string)
    returns (k: Machine, n: Machine)
    requires IsRequest(cfg, verb, path, user, host, body)
    ensures var text := RequestText(verb, path, user, host, body);
            && text != ""
            && Reads(cfg, NEW_SERVER, text[..|text| - 1], k) && !k.f.state.StartReq?
            && Step(cfg, k, text[|text| - 1]) == Went(n, false) && Reads(cfg, NEW_SERVER, text, n)
    ensures n.f.state.StartReq? && n.f.m.verb == verb
    ensures n.log == RequestEvents(path, RequestHeaders(user, host, body), body)
  {
    hide Fold, Step, Reads, Leads, MethodString, PrintLines, FieldEvents, IsMethod, Requesting, HeadDone, IsTarget,
      IsUserHeader, IsHostChar,
      RequestHeaders;
    var hs, s := RequestHeaders(user, host, body), HeadDone(verb, path, user, host, body);
    var head := MethodString(verb) + " " + path + " HTTP/1.1\r\n" + PrintLines(hs);
    var text := RequestText(verb, path, user, host, body);
    var init := if body == "" then "\r" else "\r\n" + body[..|body| - 1];
    var last := if body == "" then '\n' else body[|body| - 1];
    TextParts(head, body, init, last);
    assert text == head + (init + [last]) && text[..|text| - 1] == head + init && text[|text| - 1] == last;
    ReadHead(cfg, verb, path, user, host, body, init);
    ReadHead(cfg, verb, path, user, host, body, init + [last]);
    if body == "" { k, n := ReadNoBody(cfg, s, verb); } else { k, n := ReadWithBody(cfg, s, verb, body); }
    LastOfLead(cfg, NEW_SERVER, head, s, init, k, last, n);
    assert n.log == RequestEvents(path, hs, body);
  }

  lemma TextParts(head: string, body: string, init: string, last: char)
    requires if body == "" then init == "\r" && last == '\n'
             else init == "\r\n" + body[..|body| - 1] && last == body[|body| - 1]
    ensures head + "\r\n" + body == head + (init + [last])
    ensures var text := head + "\r\n" + body; text[..|text| - 1] == head + init && text[|text| - 1] == last
  {
    if body == "" { assert init + [last] == "\r\n"; } else { assert init + [last] == "\r\n" + body; }
    assert head + "\r\n" + body == head + (init + [last]);
  }

  lemma LastOfLead(cfg: Config, m: Machine, head: string, s: Machine, init: string, k: Machine, last: char, n: Machine)
    requires Leads(cfg, m, head, s, init + [last]) && Leads(cfg, m, head, s, init)
    requires Reads(cfg, s, init, k) && Step(cfg, k, last) == Went(n, false)
    ensures Reads(cfg, m, head + (init + [last]), n) && Reads(cfg, m, head + init, k)
  {
    hide Step, Fold;
    ReadBytes(cfg, s, init, k, last, n);
    LeadsReads(cfg, m, head, s, init + [last], n);
    LeadsReads(cfg, m, head, s, init, k);
  }

  // ----- the round trip -----

  /** What an observer of the callbacks is told: the URL, the header list of the one head, the body,
      and how many messages were completed. */
  datatype Seen = Seen(url: string, given: seq<Given>, body: string, complete: nat)

  function UrlOf(log: seq<Event>): string {
    if log == [] then "" else UrlOf(log[..|log| - 1]) + (if LastIs(log, Url) then log[|log| - 1].bytes else "")
  }

  function Completions(log: seq<Event>): nat {
    if log == [] then 0
    else Completions(log[..|log| - 1]) + (if log[|log| - 1].Note? && log[|log| - 1].note.MessageComplete? then 1 else 0)
  }

  function Observe(log: seq<Event>): Seen {
    Seen(UrlOf(log), Assemble(NO_HEADERS, log).given, Delivered(log), Completions(log))
  }

  lemma ObserveOne(log: seq<Event>, e: Event)
    ensures var (a, b) := (Observe(log), Observe(log + [e]));
            && b.url == a.url + (if e.Data? && e.kind == Url then e.bytes else "")
            && b.body == a.body + (if e.Data? && e.kind == Body then e.bytes else "")
            && b.complete == a.complete + (if e.Note? && e.note.MessageComplete? then 1 else 0)
            && Assemble(NO_HEADERS, log + [e]) == OnEvent(Assemble(NO_HEADERS, log), e)
  {
    assert (log + [e])[..|log + [e]| - 1] == log;
    hide OnEvent;
  }

  /** Header callbacks say nothing of the URL, the body or the end of the message. */
  lemma {:induction false} ObserveFields(log: seq<Event>, hs: seq<Pair>)
    ensures var (a, b) := (Observe(log), Observe(log + FieldEvents(hs)));
            b.url == a.url && b.body == a.body && b.complete == a.complete
    decreases |hs|
  {
    hide Assemble, UrlOf, Delivered, Completions;
    if hs == [] {
      assert log + [] == log;
    } else {
      var e1, e2 := Data(Field, hs[0].name), Data(Value, hs[0].value);
      assert log + FieldEvents(hs) == log + [e1] + [e2] + FieldEvents(hs[1..]);
      ObserveOne(log, e1);
      ObserveOne(log + [e1], e2);
      ObserveFields(log + [e1] + [e2], hs[1..]);
    }
  }

  lemma ObserveStart(path: string)
    ensures Observe([Note(MessageBegin), Data(Url, path)]) == Seen(path, [], "", 0)
    ensures Assemble(NO_HEADERS, [Note(MessageBegin), Data(Url, path)]) == NO_HEADERS
  {
    var none: seq<Event> := [];
    assert Observe(none) == Seen("", [], "", 0) && Assemble(NO_HEADERS, none) == NO_HEADERS;
    ObserveOne(none, Note(MessageBegin));
    assert none + [Note(MessageBegin)] == [Note(MessageBegin)];
    ObserveOne([Note(MessageBegin)], Data(Url, path));
    assert [Note(MessageBegin)] + [Data(Url, path)] == [Note(MessageBegin), Data(Url, path)];
    assert "" + path == path;
    hide Assemble, UrlOf, Delivered, Completions;
  }

  lemma ObserveRequest(path: string, hs: seq<Pair>, body: string)
    requires forall h :: h in hs ==> h.name != "" && TrimEnd(h.value) == h.value
    ensures Observe(RequestEvents(path, hs, body)) == Seen(path, [Given(0, hs)], body, 1)
  {
    hide Assemble, UrlOf, Delivered, Completions, FieldEvents, TrimEnd, Trimmed;
    var b := [Note(MessageBegin), Data(Url, path)];
    var c := b + FieldEvents(hs);
    var d := c + [Note(HeadersComplete(0))];
    var e := if body == "" then d else d + [Data(Body, body)];
    assert e + [Note(MessageComplete(true))] == RequestEvents(path, hs, body);
    ObserveStart(path);
    ObserveFields(b, hs);
    ObserveOne(c, Note(HeadersComplete(0)));
    AssembleConcat(NO_HEADERS, b, FieldEvents(hs) + [Note(HeadersComplete(0))]);
    assert b + (FieldEvents(hs) + [Note(HeadersComplete(0))]) == d;
    HeadGiven(NO_HEADERS, hs, 0);
    TrimmedSame(hs);
    assert [] + hs == hs;
    assert Observe(d) == Seen(path, [Given(0, hs)], "", 0);
    if body != "" { ObserveOne(d, Data(Body, body)); assert "" + body == body; }
    ObserveOne(e, Note(MessageComplete(true)));
  }

  lemma LengthTrimmed(n: nat)
    ensures TrimEnd(DecimalText(n)) == DecimalText(n)
  {
    hide DecimalText, TrimEnd, Decimal, IsNum, IsDigits;
    DecimalTextValue(n);
    DigitsValue(Config(false, Continue), DecimalText(n));
  }

  lemma HeadersNamed(cfg: Config, user: seq<Pair>, host: string, body: string)
    requires (forall c :: c in host ==> IsHostChar(c)) && forall h :: h in user ==> IsUserHeader(cfg, h)
    ensures forall h :: h in RequestHeaders(user, host, body) ==> h.name != "" && TrimEnd(h.value) == h.value
  {
    hide IsUserHeader, TrimEnd, IsHostChar, DecimalText;
    HostPlain(cfg, host);
    PlainNamed(cfg, Pair("Host", host));
    forall h | h in user ensures h.name != "" && TrimEnd(h.value) == h.value { PlainNamed(cfg, h); }
    LengthTrimmed(|body|);
  }

  lemma PlainNamed(cfg: Config, h: Pair)
    requires IsUserHeader(cfg, h)
    ensures h.name != "" && TrimEnd(h.value) == h.value
  {
  }

  lemma RequestParts(cfg: Config, verb: nat, path: string, user: seq<Pair>, host: string, body: string)
    requires IsRequest(cfg, verb, path, user, host, body)
    ensures (forall c :: c in host ==> IsHostChar(c)) && forall h :: h in user ==> IsUserHeader(cfg, h)
  {
  }

  /** Round trip: the bytes of a request, cut into calls in any way, give back its method, its path,
      its header list and its body, with one message, completed by the last byte. */
  lemma RequestRoundTrip(cfg: Config, verb: nat, path: string, user: seq<Pair>, host: string, body: string,
                         pieces: seq<string>, b: Parser, exited: bool, raw: seq<Event>)
    requires IsRequest(cfg, verb, path, user, host, body)
    requires Flat(pieces) == RequestText(verb, path, user, host, body)
    requires Fed(cfg, Parser(NEW_SERVER, 0, Ok), pieces, b, exited) && RawOk(raw) && Joined(raw) == b.m.log
    ensures Fits(cfg, NEW_SERVER, Flat(pieces), 0, FedRoom(cfg, Parser(NEW_SERVER, 0, Ok), pieces)) ==> b.errno.Ok?
    ensures !b.errno.HeaderOverflow? ==>
              var framing := if body == "" then [] else [Pair("Content-Length", DecimalText(|body|))];
              var hs := user + [Pair("Host", host)] + framing;
              && b.errno.Ok? && !exited && b.m.f.m.verb == verb && b.m.f.state.StartReq?
              && Observe(b.m.log) == Seen(path, [Given(0, hs)], body, 1)
              && Assemble(NO_HEADERS, raw).given == [Given(0, hs)]
  {
    RequestHeadersAre(user, host, body);
    hide Fed, Fits, Fold, Reads, RequestText, Step, FedRoom, IsRequest, RawOk, Joined, RequestEvents, RequestHeaders,
      DecimalText;
    RequestParts(cfg, verb, path, user, host, body);
    var a := Parser(NEW_SERVER, 0, Ok);
    assert ParserInv(a) by { InitInv(Request); }
    var k, n := ReadRequest(cfg, verb, path, user, host, body);
    FedReads(cfg, a, pieces, b, exited, n);
    HeadersNamed(cfg, user, host, body);
    ObserveRequest(path, RequestHeaders(user, host, body), body);
    AssembleJoined(NO_HEADERS, raw);
  }
}
