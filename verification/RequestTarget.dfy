/** Which printed request lines the parser reads back: a path that it does not read whole is never
    given to `on_url` whole, whatever follows. */
module RequestTarget {
  import opened Chars
  import opened Numbers
  import opened ParserState
  import opened UrlChar
  import opened ByteTransition
  import opened StepMachine
  import opened ParserInvariant
  import opened LogInvariant
  import opened Runs
  import opened Calls
  import opened Stepping
  import opened Reading
  import opened Headers
  import opened HeaderAssembly
  import opened RequestPrinter
  import opened RoundTrip
  import U = Url

  // ----- states that are past the target -----

  /** States from which no byte adds to a URL before a new message has begun. */
  predicate Late(s: State) { !IsUrlState(s) && !s.ReqSpacesBeforeUrl? && !s.ReqMethod? && !s.ResOrRespH? }

  predicate NoUrl(acts: seq<Act>) { forall a :: a in acts && !a.Notify? ==> a.kind != Url }

  predicate LateOut(o: Outcome) { o.Out? ==> NoUrl(o.acts) && (Late(o.f.state) || (o.acts != [] && o.acts[0].Notify?)) }

  lemma LateAfter(acts: seq<Act>, o: Outcome)
    requires NoUrl(acts) && LateOut(o) && (o.Out? ==> Late(o.f.state))
    ensures LateOut(After(acts, o))
  {
    assert o.Out? ==> forall a :: a in acts + o.acts ==> a in acts || a in o.acts;
  }

  lemma LateCompleted(f: Fields, reset: bool, exit: bool)
    ensures var o := Completed(f, reset, exit); LateOut(o) && Late(o.f.state)
  {
  }

  lemma LateHeadEnd(cfg: Config, f: Fields, ch: char)
    ensures var o := HeadersAlmostDoneStep(cfg, f, ch); LateOut(o) && (o.Out? ==> Late(o.f.state))
  {
    var g := f.(state := HeadersDone, m := Answered(f.m, cfg.answer));
    LateCompleted(g, true, true);
    LateCompleted(g, true, false);
    LateCompleted(f.(state := MessageDone), false, f.m.upgrade);
    LateAfter([Notify(ChunkComplete)], MessageDoneStep(f.(state := MessageDone)));
    hide Completed, After, Late;
    LateDone(g, ch);
    LateAfter([Notify(HeadersComplete(f.m.statusCode))], HeadersDoneStep(g, ch));
  }

  lemma LateDone(f: Fields, ch: char)
    ensures var o := HeadersDoneStep(f, ch); LateOut(o) && (o.Out? ==> Late(o.f.state))
  {
    LateCompleted(f, true, true);
    LateCompleted(f, true, false);
    hide Completed;
  }

  lemma LateFieldStart(cfg: Config, f: Fields, ch: char)
    ensures var o := HeaderFieldStartStep(cfg, f, ch); LateOut(o) && (o.Out? ==> Late(o.f.state))
  {
    LateHeadEnd(cfg, f.(state := HeadersAlmostDone), ch);
    hide HeadersAlmostDoneStep, FieldStartState, Token;
  }

  lemma LateLine(cfg: Config, f: Fields, ch: char)
    ensures LateOut(HeaderFieldStep(f, ch)) || !f.state.HeaderField?
    ensures LateOut(HeaderValueStartStep(f, ch)) && (f.state.HeaderValue? ==> LateOut(HeaderValueStep(cfg, f, ch)))
  {
    hide FieldChar, ValueMatch, ConnectionWord, Token, IsHeaderChar, Lower;
  }

  lemma LateNext(cfg: Config, f: Fields, ch: char)
    requires f.state.HeaderValueLws? || f.state.HeaderValueDiscardLws?
    ensures LateOut(HeaderStep(cfg, f, ch))
  {
    hide HeaderFieldStartStep, EndOfLine, HeaderValueStartStep;
    var g := EndOfLine(f).(state := HeaderFieldStart);
    LateLine(cfg, f.(state := HeaderValueStart), ch);
    LateFieldStart(cfg, g, ch);
    LateAfter([Mark(Value), Flush(Value, false)], HeaderFieldStartStep(cfg, g, ch));
  }

  lemma LateHeader(cfg: Config, f: Fields, ch: char)
    requires IsHeaderState(f.state)
    ensures LateOut(HeaderStep(cfg, f, ch))
  {
    hide HeaderFieldStartStep, HeadersAlmostDoneStep, HeadersDoneStep, HeaderValueStep, HeaderFieldStep,
      HeaderValueStartStep, HeaderValueLwsStep, HeaderValueDiscardLwsStep;
    if f.state.HeaderValueLws? || f.state.HeaderValueDiscardLws? {
      LateNext(cfg, f, ch);
    } else {
      LateLine(cfg, f, ch);
      LateFieldStart(cfg, f, ch);
      LateHeadEnd(cfg, f, ch);
      LateDone(f, ch);
    }
  }

  lemma LateChunk(f: Fields, ch: char)
    requires IsBodyState(f.state)
    ensures LateOut(ChunkStep(f, ch))
  {
    hide Unhex;
  }

  lemma LateBody(f: Fields, ch: char)
    requires IsBodyState(f.state)
    ensures LateOut(BodyStep(f, ch))
  {
    var g := f.(state := MessageDone, length := 0);
    LateChunk(f, ch);
    LateCompleted(g, false, g.m.upgrade);
    LateCompleted(f, false, f.m.upgrade);
    LateAfter([Mark(Body), Flush(Body, true)], MessageDoneStep(g));
    hide Completed, ChunkStep;
  }

  lemma LateStatus(f: Fields, ch: char)
    requires IsStatusState(f.state)
    ensures LateOut(StatusStep(f, ch))
  {
  }

  lemma LateRequest(f: Fields, ch: char)
    requires Late(f.state) && !IsHeaderState(f.state) && !IsBodyState(f.state) && !IsStatusState(f.state)
    ensures LateOut(RequestStep(f, ch))
  {
    hide FirstMethod;
  }

  lemma LateTransition(cfg: Config, f: Fields, ch: char)
    requires Late(f.state)
    ensures LateOut(Transition(cfg, f, ch))
  {
    if IsHeaderState(f.state) { LateHeader(cfg, f, ch); }
    else if IsBodyState(f.state) { LateBody(f, ch); }
    else if IsStatusState(f.state) { LateStatus(f, ch); }
    else if !f.state.Dead? { LateRequest(f, ch); }
    hide HeaderStep, BodyStep, StatusStep, RequestStep;
  }

  // ----- the first URL of a log -----

  /** The second callback is this URL, and it will stay so. */
  predicate Frozen(m: Machine, u: string) { Second(m.log, u) && (|m.log| == 2 ==> Late(m.f.state)) }

  predicate Second(log: seq<Event>, u: string) { |log| >= 2 && log[1] == Data(Url, u) }

  lemma EmitSecond(log: seq<Event>, e: Event, u: string)
    requires Second(log, u) && (|log| == 2 ==> e.Note? || e.kind != Url)
    ensures Second(Emit(log, e), u) && |Emit(log, e)| >= |log| && (|log| == 2 ==> |Emit(log, e)| > 2)
        && (e.Note? ==> |Emit(log, e)| > 2)
  {
  }

  lemma FlushSecond(k: Kind, marks: Marks, log: seq<Event>, data: string, end: nat, u: string)
    requires InBuffer(marks, end) && end <= |data| && Second(log, u) && (|log| == 2 ==> Url !in marks)
    ensures var (m, l) := FlushMark(k, marks, log, data, end); Second(l, u) && |l| >= |log| && (|l| == 2 ==> Url !in m)
  {
    hide Emit;
    if k in marks { EmitSecond(log, Data(k, data[marks[k]..end]), u); }
  }

  lemma OneSecond(a: Act, marks: Marks, log: seq<Event>, data: string, p: nat, u: string)
    requires InBuffer(marks, p) && p < |data| && Second(log, u)
        && (|log| == 2 ==> (a.Notify? || a.kind != Url) && Url !in marks)
    ensures var (m, l) := PerformOne(a, marks, log, data, p);
            Second(l, u) && |l| >= |log| && (|l| == 2 ==> Url !in m) && (a.Notify? ==> |l| > 2)
  {
    hide Emit, Second, FlushMark;
    match a {
      case Mark(k) =>
      case Flush(k, whole) => FlushSecond(k, marks, log, data, if whole then p + 1 else p, u);
      case Notify(n) => EmitSecond(log, Note(n), u);
    }
  }

  lemma {:induction false} PerformSecond(acts: seq<Act>, marks: Marks, log: seq<Event>, data: string, p: nat, u: string)
    requires InBuffer(marks, p) && p < |data| && Second(log, u) && (|log| == 2 ==> NoUrl(acts) && Url !in marks)
    ensures var (m, l) := Perform(acts, marks, log, data, p);
            && Second(l, u) && |l| >= |log| && (|l| == 2 ==> Url !in m) && (acts != [] && acts[0].Notify? ==> |l| > 2)
  {
    assert |log| >= 2;
    hide Emit, Second, PerformOne;
    if acts != [] {
      assert acts[0] in acts && forall a :: a in acts[1..] ==> a in acts;
      OneSecond(acts[0], marks, log, data, p, u);
      var (m, l) := PerformOne(acts[0], marks, log, data, p);
      PerformSecond(acts[1..], m, l, data, p, u);
    }
  }

  lemma LeftoverSecond(marks: Marks, log: seq<Event>, data: string, u: string)
    requires InBuffer(marks, |data|) && Second(log, u) && (|log| == 2 ==> Url !in marks)
    ensures Second(Leftover(marks, log, data), u) && |Leftover(marks, log, data)| >= |log|
  {
    hide Second, FlushMark;
    var a := FlushMark(Field, marks, log, data, |data|);
    FlushSecond(Field, marks, log, data, |data|, u);
    var b := FlushMark(Value, a.0, a.1, data, |data|);
    FlushSecond(Value, a.0, a.1, data, |data|, u);
    var c := FlushMark(Url, b.0, b.1, data, |data|);
    FlushSecond(Url, b.0, b.1, data, |data|, u);
    var d := FlushMark(Body, c.0, c.1, data, |data|);
    FlushSecond(Body, c.0, c.1, data, |data|, u);
    FlushSecond(Status, d.0, d.1, data, |data|, u);
  }

  lemma LateMarks(s: State)
    requires Late(s)
    ensures Url !in StartMarks(s)
  {
  }

  lemma StepFrozen(cfg: Config, m: Machine, ch: char, u: string)
    requires Frozen(m, u)
    ensures Step(cfg, m, ch).Went? ==> Frozen(Step(cfg, m, ch).m, u)
  {
    if |m.log| == 2 {
      LateTransition(cfg, m.f, ch);
      LateMarks(m.f.state);
    }
    hide Transition, Perform, Leftover, Second, Late, NoUrl;
    var o := Transition(cfg, m.f, ch);
    if o.Out? {
      PerformSecond(o.acts, StartMarks(m.f.state), m.log, [ch], 0, u);
      var (marks, log) := Perform(o.acts, StartMarks(m.f.state), m.log, [ch], 0);
      LeftoverSecond(marks, log, [ch], u);
    }
  }

  lemma {:induction false} FoldFrozen(cfg: Config, m: Machine, data: string, p: nat, u: string)
    requires p <= |data| && Frozen(m, u)
    ensures Frozen(Fold(cfg, m, data, p).m, u)
    decreases |data| - p
  {
    hide Step, Frozen;
    if p < |data| {
      StepFrozen(cfg, m, data[p], u);
      match Step(cfg, m, data[p])
      case Went(n, false) => FoldFrozen(cfg, n, data, p + 1, u);
      case _ =>
    }
  }

  lemma SkipFrozen(m: Machine, data: string, p: nat, q: nat, u: string)
    requires p <= q <= |data| && Frozen(m, u)
    ensures Frozen(Skipped(m, data, p, q), u)
  {
    hide Emit;
    EmitSecond(m.log, Data(Value, data[p..q]), u);
  }

  /** The same for a call, with its jumps. */
  lemma {:induction false} CallFrozen(cfg: Config, m: Machine, data: string, p: nat, u: string)
    requires p <= |data| && Frozen(m, u)
    ensures Frozen(CallFold(cfg, m, data, p).m, u)
    decreases |data| - p
  {
    hide Step, Frozen, Skipped, Jumps, LineEnd;
    if p < |data| {
      if Jumps(cfg, m.f, data[p]) {
        JumpForward(cfg, m.f, data, p);
        SkipFrozen(m, data, p, LineEnd(data, p), u);
        CallFrozen(cfg, Skipped(m, data, p, LineEnd(data, p)), data, LineEnd(data, p), u);
      } else {
        StepFrozen(cfg, m, data[p], u);
        match Step(cfg, m, data[p])
        case Went(n, false) => CallFrozen(cfg, n, data, p + 1, u);
        case _ =>
      }
    }
  }

  // ----- which targets are read back -----

  /** The first byte that the parser does not read as part of a target. */
  function Good(path: string): (i: nat)
    ensures i <= |path| && (forall j :: 0 <= j < i ==> IsTargetChar(path[j])) && (i < |path| ==> !IsTargetChar(path[i]))
  {
    if path == "" || !IsTargetChar(path[0]) then 0 else 1 + Good(path[1..])
  }

  lemma BadTransition(cfg: Config, f: Fields, c: char)
    requires InTarget(f.state) && !IsTargetChar(c)
    ensures var o := Transition(cfg, f, c);
            o.Out? ==> o == Do(o.f, [Flush(Url, false)]) && Late(o.f.state) && !o.f.state.HeaderValue?
  {
  }

  /** Past its first bad byte a path is refused, or its URL is over and too short. */
  lemma BadByte(cfg: Config, m: Machine, c: char, u: string)
    requires InTarget(m.f.state) && !IsTargetChar(c) && m.log == [Note(MessageBegin), Data(Url, u)]
    ensures Step(cfg, m, c).Went? ==>
              !Step(cfg, m, c).exit && Frozen(Step(cfg, m, c).m, u) && !Step(cfg, m, c).m.f.state.HeaderValue?
  {
    BadTransition(cfg, m.f, c);
    TargetCounts(m.f.state);
    hide Transition, IsTargetChar;
    var o := Transition(cfg, m.f, c);
    if o.Out? { Flushes(cfg, m, c, o.f, Url); } else { StepFail(cfg, m, c, o.errno); }
    hide Step;
  }

  /** The start of a bad request line: refused, or read into a machine whose URL is over and too short. */
  lemma BadStart(cfg: Config, verb: nat, path: string) returns (x: string, h: Machine, u: string)
    requires IsMethod(verb) && path != "" && path[0] == '/' && !IsTarget(path)
    ensures x <= MethodString(verb) + " " + path && |u| < |path|
    ensures Refuses(cfg, NEW_SERVER, x, InvalidUrl)
        || (Reads(cfg, NEW_SERVER, x, h) && Frozen(h, u) && !h.f.state.HeaderValue?)
  {
    hide Transition, Step, Reads, Refuses, Fold, MethodString, Frozen, IsTargetChar;
    var i := Good(path);
    assert IsTargetChar('/') by { SlashTarget(); }
    assert 0 < i < |path|;
    u := path[..i];
    var (c, word) := (path[i], MethodString(verb) + " ");
    var a := Methoded(NEW_SERVER, verb);
    ReadMethod(cfg, NEW_SERVER, verb);
    MethodedIs(verb);
    ReadTarget(cfg, a, u);
    var g := Targeted(a, u);
    ReadThen(cfg, NEW_SERVER, word, a, u, g);
    BeginsUrl(u);
    BadByte(cfg, g, c, u);
    x, h := word + u + [c], g;
    assert word + path == x + path[i + 1..];
    BadRefused(cfg, g, c);
    if Step(cfg, g, c).Went? {
      h := Step(cfg, g, c).m;
      ReadBytes(cfg, NEW_SERVER, word + u, g, c, h);
    } else {
      RefuseAfter(cfg, NEW_SERVER, word + u, g, c, "", InvalidUrl);
      assert word + u + [c] + "" == x;
    }
  }

  lemma BadRefused(cfg: Config, m: Machine, c: char)
    requires InTarget(m.f.state) && !IsTargetChar(c)
    ensures Step(cfg, m, c).Stuck? ==> Step(cfg, m, c) == Stuck(InvalidUrl)
  {
    BadError(cfg, m.f, c);
    TargetCounts(m.f.state);
    hide Transition, IsTargetChar, Perform, Leftover;
  }

  lemma BadError(cfg: Config, f: Fields, c: char)
    requires InTarget(f.state) && !IsTargetChar(c)
    ensures Transition(cfg, f, c).Fail? ==> Transition(cfg, f, c) == Fail(InvalidUrl)
  {
  }

  lemma SlashTarget()
    ensures IsTargetChar('/')
  {
  }

  lemma MethodedIs(verb: nat)
    requires IsMethod(verb)
    ensures var a := Methoded(NEW_SERVER, verb);
            a.f.state.ReqSpacesBeforeUrl? && a.f.m.verb != CONNECT && a.log == [Note(MessageBegin)]
  {
    assert |MethodString(verb)| > 1;
    hide MethodString;
  }

  lemma BeginsUrl(u: string)
    ensures Emit([Note(MessageBegin)], Data(Url, u)) == [Note(MessageBegin), Data(Url, u)]
  {
  }

  lemma FrozenIs(m: Machine, u: string)
    requires Frozen(m, u)
    ensures |m.log| >= 2 && m.log[1] == Data(Url, u)
  {
  }

  lemma PrefixOf(x: string, z: string, rest: string)
    requires x <= z
    ensures z + rest == x + (z + rest)[|x|..]
  {
  }

  /** Whatever comes after it: if the machine reads it, the first URL is not this path. */
  lemma BadTarget(cfg: Config, verb: nat, path: string, rest: string, n: Machine)
    requires IsMethod(verb) && path != "" && path[0] == '/' && !IsTarget(path)
    requires Reads(cfg, NEW_SERVER, MethodString(verb) + " " + path + rest, n)
    ensures |n.log| >= 2 && n.log[1] != Data(Url, path)
  {
    hide Fold, Frozen, MethodString, IsTarget;
    var x, h, u := BadStart(cfg, verb, path);
    var text := MethodString(verb) + " " + path + rest;
    PrefixOf(x, MethodString(verb) + " " + path, rest);
    FoldConcat(cfg, NEW_SERVER, x, text[|x|..]);
    FoldFrozen(cfg, h, text[|x|..], 0, u);
    FrozenIs(n, u);
  }

  /** For every path that starts with a slash: the printed request line is read as this method and this
      path, if and only if all its bytes are target bytes. */
  lemma RequestLineExact(cfg: Config, verb: nat, path: string)
    requires IsMethod(verb) && path != "" && path[0] == '/'
    ensures (exists n ::
              && Reads(cfg, NEW_SERVER, MethodString(verb) + " " + path + " HTTP/1.1\r\n", n) && n.f.m.verb == verb
              && n.log == [Note(MessageBegin), Data(Url, path)])
            <==> forall c :: c in path ==> IsTargetChar(c)
  {
    hide Reads, MethodString, IsTargetChar, RequestLineRead, Requesting, IsMethod;
    if IsTarget(path) {
      ReadRequestLine(cfg, NEW_SERVER, verb, path);
      RequestLineDone(verb, path);
      RequestingVerb(RequestLineRead(NEW_SERVER, verb, path).f, verb);
    } else if n :| Reads(cfg, NEW_SERVER, MethodString(verb) + " " + path + " HTTP/1.1\r\n", n)
                   && n.log == [Note(MessageBegin), Data(Url, path)] {
      BadTarget(cfg, verb, path, " HTTP/1.1\r\n", n);
    }
  }

  lemma RequestingVerb(f: Fields, verb: nat)
    requires Requesting(f, verb)
    ensures f.m.verb == verb
  {
  }

  // ----- requests for URLs -----

  lemma UrlHost(s: string)
    requires U.Parse(s).Some?
    ensures var u := U.Parse(s).value;
            u.path != "" && u.path[0] == '/' && '?' !in u.path && forall c :: c in u.host ==> IsHostChar(c)
  {
    U.ParsedShape(s);
    hide U.Parse, U.Final, U.IsQuery;
    var u := U.Parse(s).value;
    forall c | c in u.host ensures IsHostChar(c) { assert U.IsHostLetter(c); }
  }

  /** However a request with a bad path is cut into calls, `on_url` is never given that path. */
  lemma BadAnySplit(cfg: Config, verb: nat, path: string, rest: string, pieces: seq<string>, b: Parser, exited: bool)
    requires IsMethod(verb) && path != "" && path[0] == '/' && !IsTarget(path)
    requires Flat(pieces) == MethodString(verb) + " " + path + rest
    requires Fed(cfg, Parser(NEW_SERVER, 0, Ok), pieces, b, exited) && !b.errno.HeaderOverflow?
    ensures b.errno.Ok? ==> |b.m.log| >= 2 && b.m.log[1] != Data(Url, path)
  {
    hide Fold, CallFold, Fed, Reads, Refuses, Frozen, MethodString, MachineInv, Clean, Fits, CallFits, IsTarget,
      IsMethod;
    var a := Parser(NEW_SERVER, 0, Ok);
    ServerOk();
    var x, h, u := BadStart(cfg, verb, path);
    var text := Flat(pieces);
    var y := text[|x|..];
    PrefixOf(x, MethodString(verb) + " " + path, rest);
    assert text == x + y;
    AnyCut(cfg, a, pieces, b, exited);
    CallConcat(cfg, NEW_SERVER, x, y);
    StartCall(cfg, x, h);
    if !Refuses(cfg, NEW_SERVER, x, InvalidUrl) {
      CallFrozen(cfg, h, y, 0, u);
      if b.errno.Ok? { FrozenIs(b.m, u); }
    }
  }

  lemma StartCall(cfg: Config, x: string, h: Machine)
    ensures Reads(cfg, NEW_SERVER, x, h) ==> CallFold(cfg, NEW_SERVER, x, 0) == Result(h, |x|, Ran)
    ensures Refuses(cfg, NEW_SERVER, x, InvalidUrl) ==> CallFold(cfg, NEW_SERVER, x, 0).end == Failed(InvalidUrl)
  {
    hide Fold, CallFold, Clean, Fits, CallFits;
    assert MachineInv(NEW_SERVER) by { InitInv(Request); }
    if Reads(cfg, NEW_SERVER, x, h) || Refuses(cfg, NEW_SERVER, x, InvalidUrl) {
      RanClean(cfg, NEW_SERVER, x, 0);
      CallIsFold(cfg, NEW_SERVER, x, 0, 0);
    }
  }

  /** The client's request for a URL, over any split: what comes out is the request that went in, if and only if
      the path holds no byte but target bytes. */
  lemma UrlRequestAnySplit(cfg: Config, verb: nat, s: string, user: seq<Pair>, body: string,
                           pieces: seq<string>, b: Parser, exited: bool)
    requires U.Parse(s).Some? && cfg.answer.Continue? && IsMethod(verb) && |body| <= MAX_CONTENT_LENGTH
    requires forall h :: h in user ==> IsUserHeader(cfg, h)
    requires Flat(pieces) == RequestText(verb, U.Parse(s).value.path, user, U.Parse(s).value.host, body)
    requires Fed(cfg, Parser(NEW_SERVER, 0, Ok), pieces, b, exited) && !b.errno.HeaderOverflow?
    ensures var u := U.Parse(s).value;
            (b.errno.Ok? && !exited && b.m.f.m.verb == verb
             && b.m.log == RequestEvents(u.path, user + [Pair("Host", u.host)]
               + (if body == "" then [] else [Pair("Content-Length", DecimalText(|body|))]), body))
            <==> forall c :: c in u.path ==> IsTargetChar(c)
  {
    hide Reads, IsTargetChar, RequestHeaders, U.Parse, IsMethod, IsUserHeader, IsHostChar, Fed, Fold, Step, ParserInv,
      RequestText, DecimalText;
    UrlHost(s);
    RequestHeadersAre(user, U.Parse(s).value.host, body);
    var u := U.Parse(s).value;
    var (path, hs) := (u.path, RequestHeaders(user, u.host, body));
    if IsTarget(path) {
      var k, n := ReadRequest(cfg, verb, path, user, u.host, body);
      ServerOk();
      FedReads(cfg, Parser(NEW_SERVER, 0, Ok), pieces, b, exited, n);
    } else {
      RequestParted(verb, path, user, u.host, body);
      BadAnySplit(cfg, verb, path, " HTTP/1.1\r\n" + PrintLines(hs) + "\r\n" + body, pieces, b, exited);
      SecondEvent(path, hs, body);
    }
  }

  lemma RequestParted(verb: nat, path: string, user: seq<Pair>, host: string, body: string)
    ensures RequestText(verb, path, user, host, body)
         == MethodString(verb) + " " + path
            + (" HTTP/1.1\r\n" + PrintLines(RequestHeaders(user, host, body)) + "\r\n" + body)
  {
    hide MethodString, PrintLines, RequestHeaders;
  }

  lemma SecondEvent(path: string, hs: seq<Pair>, body: string)
    ensures |RequestEvents(path, hs, body)| >= 2 && RequestEvents(path, hs, body)[1] == Data(Url, path)
  {
    hide FieldEvents;
  }

  lemma ServerOk()
    ensures ParserInv(Parser(NEW_SERVER, 0, Ok))
  {
    InitInv(Request);
  }

  /** Two paths outside the plain ones: a fragment is part of the path and is read back; a blank is not. */
  lemma TwoPaths()
    ensures U.Parse("h/a#b") == Some(U.Url("http", "h", 80, "/a#b", "")) && IsTarget("/a#b")
    ensures U.Parse("h/a b") == Some(U.Url("http", "h", 80, "/a b", "")) && !IsTarget("/a b")
  {
    hide U.Parse;
    assert "h" + "/a#b" == "h/a#b" && "h" + "/a b" == "h/a b";
    SlashPath("/a#b");
    SlashPath("/a b");
    assert ' ' in "/a b";
  }

  lemma SlashPath(path: string)
    requires path != "" && U.IsUrlPath(path) && ':' !in path
    ensures U.Parse("h" + path) == Some(U.Url("http", "h", 80, path, ""))
  {
    var (s, r) := ("h" + path, U.Rest("h", "", path, ""));
    assert s == "" + U.Text(r);
    assert U.IsSplit(s, "", r);
    U.OneSplit(s, "", r);
  }
}
