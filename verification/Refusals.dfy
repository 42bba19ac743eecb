/** What the parser refuses: status lines, field names and line ends that are not written as they must be. */
module Refusals {
  import opened Chars
  import opened Numbers
  import opened ParserState
  import opened UrlChar
  import opened ByteTransition
  import opened StepMachine
  import opened ParserInvariant
  import opened LogInvariant
  import opened Refinement
  import opened Calls
  import opened Stepping
  import opened Reading
  import opened HeaderName
  import opened Lengths
  import opened LineFeeds
  import H = ResponseHead

  /** Text after some that the parser has read is refused as it is after the machine that read it. */
  lemma RefusedBehind(cfg: Config, m: Machine, a: string, n: Machine, b: string)
    requires Reads(cfg, m, a, n)
    ensures Fold(cfg, m, a + b, 0).end.Failed? <==> Fold(cfg, n, b, 0).end.Failed?
  {
    FoldConcat(cfg, m, a, b);
    hide Fold;
  }

  lemma RefusedAt(cfg: Config, m: Machine, text: string, e: Errno)
    requires text != "" && Step(cfg, m, text[0]) == Stuck(e)
    ensures Fold(cfg, m, text, 0).end == Failed(e)
  {
    hide Step;
  }

  // ----- field names -----

  /** The tokens at the start of `x`. */
  lemma {:induction false} TokenRun(x: string) returns (n: nat)
    ensures n <= |x| && (forall c :: c in x[..n] ==> IsToken(c)) && (n < |x| ==> !IsToken(x[n]))
  {
    hide IsToken;
    if x == "" || !IsToken(x[0]) {
      n := 0;
    } else {
      var i := TokenRun(x[1..]);
      n := i + 1;
      assert x[..n] == [x[0]] + x[1..][..i];
    }
  }

  lemma NotNamed(cfg: Config, f: Fields, c: char)
    requires !IsToken(c)
    ensures f.state.HeaderFieldStart? && c != '\r' && c != '\n' ==> Transition(cfg, f, c) == Fail(InvalidHeaderToken)
    ensures f.state.HeaderField? && c != ':' ==> Transition(cfg, f, c) == Fail(InvalidHeaderToken)
  {
  }

  lemma ColonNoToken()
    ensures !IsToken(':')
  {
  }

  lemma NamedState(cfg: Config, m: Machine, name: string)
    requires m.f.state.HeaderFieldStart? && IsName(name)
    ensures name != "" && Reads(cfg, m, name, NameRead(m, name)) && NameRead(m, name).f.state.HeaderField?
  {
    hide Reads, AfterName, IsName;
    NameNonempty(name);
    ReadName(cfg, m, name);
    ReadNameColon(cfg, m, name);
  }

  /** What stands before the colon is a name of tokens, or it is refused. */
  lemma NameExact(cfg: Config, m: Machine, x: string, rest: string)
    requires m.f.state.HeaderFieldStart? && ':' !in x && (x != "" ==> x[0] != '\r' && x[0] != '\n')
    ensures if IsName(x) then exists n :: Reads(cfg, m, x + ":", n) && n.f.state.HeaderValueDiscardWs?
            else Fold(cfg, m, x + ":" + rest, 0).end == Failed(InvalidHeaderToken)
  {
    hide Fold, Reads, Step, Transition, IsToken, AfterName, NameRead;
    if IsName(x) {
      NameNonempty(x);
      ReadNameColon(cfg, m, x);
    } else {
      ColonNoToken();
      var n := TokenRun(x);
      var t := x + ":" + rest;
      assert t[..n] == x[..n] && !IsToken(t[n]);
      if n == 0 {
        NotNamed(cfg, m.f, t[0]);
        StepFail(cfg, m, t[0], InvalidHeaderToken);
        RefusedAt(cfg, m, t, InvalidHeaderToken);
      } else {
        assert n < |x| && x[n] in x;
        NamedState(cfg, m, x[..n]);
        var k := NameRead(m, x[..n]);
        NotNamed(cfg, k.f, t[n]);
        StepFail(cfg, k, t[n], InvalidHeaderToken);
        RefuseAfter(cfg, m, x[..n], k, t[n], t[n + 1..], InvalidHeaderToken);
        assert x[..n] + [t[n]] + t[n + 1..] == t;
      }
    }
  }

  // ----- line ends -----

  /** A CR in a head must have its LF. */
  lemma BareCr(cfg: Config, m: Machine, c: char, rest: string)
    requires MachineInv(m) && AtLine(m.f.state) && c != '\n'
    ensures Fold(cfg, m, ['\r', c] + rest, 0).end.Failed?
  {
    CrStates(cfg, m.f, c);
    hide Transition, Step;
    var text := ['\r', c] + rest;
    assert text[0] == '\r' && text[1] == c;
    StepKept(cfg, m, '\r');
    var w := Step(cfg, m, '\r');
    if w.Went? {
      CrWent(cfg, m);
      StepFail(cfg, w.m, c, Transition(cfg, w.m.f, c).errno);
      FoldGo(cfg, m, text, 0, w.m);
      FoldStuck(cfg, w.m, text, 1, Transition(cfg, w.m.f, c).errno);
    }
  }

  /** The state behind a CR accepts nothing but LF. */
  lemma CrStates(cfg: Config, f: Fields, c: char)
    requires AtLine(f.state) && c != '\n'
    ensures var o := Transition(cfg, f, '\r');
            o.Out? && !o.exit && !o.f.state.ChunkSizeStart? && Transition(cfg, o.f, c).Fail?
  {
    var s := f.state;
    if s.HeaderFieldStart? || s.HeaderValueLws? || s.HeaderValueDiscardLws? {
      LineCr(cfg, f, c);
    } else if IsHeaderState(s) {
      ValueCr(cfg, f, c);
    } else {
      StatusCr(cfg, f, c);
    }
    hide Transition;
  }

  lemma LineCr(cfg: Config, f: Fields, c: char)
    requires (f.state.HeaderFieldStart? || f.state.HeaderValueLws? || f.state.HeaderValueDiscardLws?) && c != '\n'
    ensures var o := Transition(cfg, f, '\r');
            o.Out? && !o.exit && !o.f.state.ChunkSizeStart? && Transition(cfg, o.f, c).Fail?
  {
    hide EndOfLine;
  }

  lemma ValueCr(cfg: Config, f: Fields, c: char)
    requires (f.state.HeaderValueDiscardWs? || f.state.HeaderValue?) && c != '\n'
    ensures var o := Transition(cfg, f, '\r');
            o.Out? && !o.exit && !o.f.state.ChunkSizeStart? && Transition(cfg, o.f, c).Fail?
  {
  }

  lemma StatusCr(cfg: Config, f: Fields, c: char)
    requires f.state.ResStatusCode? || f.state.ResStatusStart? || f.state.ResStatus? || f.state.ReqHttpEnd?
    requires c != '\n'
    ensures var o := Transition(cfg, f, '\r');
            o.Out? && !o.exit && !o.f.state.ChunkSizeStart? && Transition(cfg, o.f, c).Fail?
  {
  }

  lemma CrWent(cfg: Config, m: Machine)
    requires MachineInv(m) && Transition(cfg, m.f, '\r').Out? && !Transition(cfg, m.f, '\r').exit
    ensures Step(cfg, m, '\r').Went? ==>
        Step(cfg, m, '\r').m.f == Transition(cfg, m.f, '\r').f && !Step(cfg, m, '\r').exit
  {
    hide Transition, Perform, Leftover;
  }

  /** Behind a chunk there must be CR LF, and behind the CR of its head an LF. */
  lemma ChunkCr(cfg: Config, m: Machine, c: char, d: char, rest: string)
    requires MachineInv(m)
    ensures m.f.state.ChunkDataAlmostDone? && !(c == '\r' && d == '\n') ==> Fold(cfg, m, [c, d] + rest, 0).end.Failed?
    ensures m.f.state.ChunkSizeAlmostDone? && c != '\n' ==> Fold(cfg, m, [c, d] + rest, 0).end.Failed?
  {
    ChunkCrStates(cfg, m.f, c, d);
    hide Transition, Step;
    var text := [c, d] + rest;
    assert text[0] == c && text[1] == d;
    StepKept(cfg, m, c);
    var w := Step(cfg, m, c);
    if w.Went? && m.f.state.ChunkDataAlmostDone? && d != '\n' {
      ChunkWent(cfg, m, c);
      StepFail(cfg, w.m, d, Transition(cfg, w.m.f, d).errno);
      FoldGo(cfg, m, text, 0, w.m);
      FoldStuck(cfg, w.m, text, 1, Transition(cfg, w.m.f, d).errno);
    } else if m.f.state.ChunkSizeAlmostDone? && c != '\n' {
      StepFail(cfg, m, c, Transition(cfg, m.f, c).errno);
    } else if m.f.state.ChunkDataAlmostDone? && c != '\r' {
      StepFail(cfg, m, c, Transition(cfg, m.f, c).errno);
    }
  }

  lemma ChunkCrStates(cfg: Config, f: Fields, c: char, d: char)
    requires Inv(f)
    ensures f.state.ChunkSizeAlmostDone? && c != '\n' ==> Transition(cfg, f, c).Fail?
    ensures f.state.ChunkDataAlmostDone? ==>
        if c != '\r' then Transition(cfg, f, c).Fail?
        else
          var o := Transition(cfg, f, c);
          o.Out? && !o.exit && o.f.state.ChunkDataDone? && (d != '\n' ==> Transition(cfg, o.f, d).Fail?)
  {
  }

  lemma ChunkWent(cfg: Config, m: Machine, c: char)
    requires Transition(cfg, m.f, c).Out? ==> !Transition(cfg, m.f, c).exit
    ensures Step(cfg, m, c).Went? ==>
        Transition(cfg, m.f, c).Out? && Step(cfg, m, c).m.f == Transition(cfg, m.f, c).f && !Step(cfg, m, c).exit
  {
    hide Transition, Perform, Leftover;
  }

  // ----- closed connections -----

  lemma ClosedTransition(cfg: Config, f: Fields, c: char)
    requires f.state.Dead?
    ensures Transition(cfg, f, c) == if c == '\r' || c == '\n' then Do(f, []) else Fail(ClosedConnection)
    ensures StartKind(f.state).None? && ParsingHeader(f.state)
  {
  }

  predicate LineEnds(x: string) { forall c :: c in x ==> c == '\r' || c == '\n' }

  /** Behind the last message of a connection line ends are passed over, and anything else is an error. */
  lemma {:induction false} ClosedExact(cfg: Config, m: Machine, x: string)
    requires m.f.state.Dead?
    ensures if LineEnds(x) then Reads(cfg, m, x, m.(nread := m.nread + |x|))
            else Fold(cfg, m, x, 0).end == Failed(ClosedConnection)
    decreases |x|
  {
    hide Transition, Step, Fold, Reads, StartKind, ParsingHeader;
    if x == "" {
      ReadNothing(cfg, m);
    } else {
      var (init, c) := (x[..|x| - 1], x[|x| - 1]);
      assert x == init + [c] && forall d :: d in x <==> d in init || d == c;
      ClosedExact(cfg, m, init);
      if LineEnds(init) {
        var n := m.(nread := m.nread + |init|);
        ClosedTransition(cfg, n.f, c);
        if LineEnds(x) {
          assert c in x;
          Quiet(cfg, n, c, n.f);
          ReadBytes(cfg, m, init, n, c, m.(nread := m.nread + |x|));
        } else {
          StepFail(cfg, n, c, ClosedConnection);
          RefuseAfter(cfg, m, init, n, c, "", ClosedConnection);
          assert init + [c] + "" == x;
        }
      } else {
        RefuseMore(cfg, m, init, [c], ClosedConnection);
      }
    }
  }

  // ----- status lines -----

  /** The bytes of a version, and where they lead. */
  predicate VersionChar(i: nat, c: char) {
    if i < 5 then c == "HTTP/"[i]
    else if i == 5 || i == 7 then IsNum(c)
    else if i == 6 then c == '.'
    else c == ' '
  }

  function VersionState(i: nat): State {
    match i
    case 0 => StartRes
    case 1 => ResH
    case 2 => ResHT
    case 3 => ResHTT
    case 4 => ResHTTP
    case 5 => ResHttpMajor
    case 6 => ResHttpDot
    case 7 => ResHttpMinor
    case 8 => ResHttpEnd
    case _ => ResFirstStatusCode
  }

  /** The byte leads on, or is refused. */
  predicate Leads(o: Outcome, i: nat, c: char) {
    if VersionChar(i, c) then
      o.Out? && o == Do(o.f, if i == 0 then [Notify(MessageBegin)] else []) && o.f.state == VersionState(i + 1)
    else o.Fail?
  }

  lemma VersionStep(cfg: Config, f: Fields, i: nat, c: char)
    requires i < 9 && f.state == VersionState(i) && (i == 0 ==> c != '\r' && c != '\n')
    ensures Leads(Transition(cfg, f, c), i, c)
  {
    assert Transition(cfg, f, c) == StatusStep(f, c);
    hide Transition, Leads, StatusStep;
    if i < 5 { ProtocolLeads(f, i, c); } else { NumberLeads(f, i, c); }
  }

  lemma ProtocolLeads(f: Fields, i: nat, c: char)
    requires i < 5 && f.state == VersionState(i) && (i == 0 ==> c != '\r' && c != '\n')
    ensures Leads(StatusStep(f, c), i, c)
  {
    hide Fresh;
    FreshState(f);
    assert "HTTP/"[i] == if i == 0 then 'H' else if i <= 2 then 'T' else if i == 3 then 'P' else '/';
  }

  lemma NumberLeads(f: Fields, i: nat, c: char)
    requires 5 <= i < 9 && f.state == VersionState(i)
    ensures Leads(StatusStep(f, c), i, c)
  {
  }

  lemma FreshState(f: Fields)
    ensures Fresh(f).state == f.state
  {
  }

  /** A version: the machine reads it, or fails at the first byte that does not belong. */
  lemma {:induction false} VersionRead(cfg: Config, m: Machine, x: string, i: nat) returns (n: Machine)
    requires m.f.state.StartRes? && i <= 9 && i <= |x| && (x != "" ==> x[0] != '\r' && x[0] != '\n')
    ensures if forall j :: 0 <= j < i ==> VersionChar(j, x[j])
            then Reads(cfg, m, x[..i], n) && n.f.state == VersionState(i)
            else Fold(cfg, m, x[..i], 0).end.Failed?
    decreases i
  {
    hide Transition, Step, Fold, VersionChar, Reads;
    n := m;
    if i == 0 {
      ReadNothing(cfg, m);
    } else {
      n := VersionRead(cfg, m, x, i - 1);
      var c := x[i - 1];
      assert x[..i] == x[..i - 1] + [c];
      if forall j :: 0 <= j < i - 1 ==> VersionChar(j, x[j]) {
        n := VersionNext(cfg, m, x[..i - 1], n, i - 1, c);
      } else {
        MoreRefused(cfg, m, x[..i - 1], [c]);
      }
    }
  }

  lemma MoreRefused(cfg: Config, m: Machine, a: string, b: string)
    requires Fold(cfg, m, a, 0).end.Failed?
    ensures Fold(cfg, m, a + b, 0).end.Failed?
  {
    FoldConcat(cfg, m, a, b);
    hide Fold;
  }

  lemma VersionNext(cfg: Config, m: Machine, a: string, k: Machine, i: nat, c: char) returns (n: Machine)
    requires Reads(cfg, m, a, k) && i < 9 && k.f.state == VersionState(i) && (i == 0 ==> c != '\r' && c != '\n')
    ensures if VersionChar(i, c) then Reads(cfg, m, a + [c], n) && n.f.state == VersionState(i + 1)
            else Fold(cfg, m, a + [c], 0).end.Failed?
  {
    VersionStep(cfg, k.f, i, c);
    VersionQuiet(i);
    hide Transition, Step, Fold, VersionChar, Reads;
    n := k;
    var o := Transition(cfg, k.f, c);
    if o.Fail? {
      StepFail(cfg, k, c, o.errno);
      RefuseAfter(cfg, m, a, k, c, "", o.errno);
      assert a + [c] + "" == a + [c];
    } else {
      if i == 0 { StepNotify(cfg, k, c, MessageBegin); } else { StepQuiet(cfg, k, c); }
      n := Step(cfg, k, c).m;
      ReadBytes(cfg, m, a, k, c, n);
    }
  }

  lemma VersionQuiet(i: nat)
    ensures StartKind(VersionState(i)).None? && !VersionState(i).ChunkSizeStart?
  {
  }

  /** What follows the version: blanks, a code, and nothing or a blank and a reason. */
  predicate CodePart(y: string)
    decreases |y|
  {
    y != "" && if y[0] == ' ' then CodePart(y[1..]) else IsNum(y[0]) && DigitPart(Digit(y[0]), y[1..])
  }

  predicate DigitPart(value: nat, z: string)
    decreases |z|
  {
    || z == "" || z[0] == ' '
    || (IsNum(z[0]) && value * 10 + Digit(z[0]) <= 999 && DigitPart(value * 10 + Digit(z[0]), z[1..]))
  }

  lemma CodeStep(cfg: Config, f: Fields, c: char)
    requires c != '\r' && c != '\n'
    ensures f.state.ResFirstStatusCode? ==>
        Transition(cfg, f, c) == if IsNum(c) then Do(f.(state := ResStatusCode, m := f.m.(statusCode := Digit(c))), [])
          else if c == ' ' then Do(f, []) else Fail(InvalidStatus)
    ensures f.state.ResStatusCode? ==>
        Transition(cfg, f, c) ==
          if IsNum(c) then
            (if f.m.statusCode * 10 + Digit(c) > 999 then Fail(InvalidStatus)
             else Do(f.(m := f.m.(statusCode := f.m.statusCode * 10 + Digit(c))), []))
          else if c == ' ' then Do(f.(state := ResStatusStart), []) else Fail(InvalidStatus)
  {
  }

  lemma GoOn(cfg: Config, m: Machine, t: string, g: Fields)
    requires t != "" && StartKind(m.f.state).None? && !m.f.state.ChunkSizeStart?
    requires Transition(cfg, m.f, t[0]) == Do(g, [])
    ensures Fold(cfg, m, t, 0).end.Failed?
        <==> Fold(cfg, Machine(g, Count(m.f, m.nread), m.log), t[1..], 0).end.Failed?
  {
    hide Transition, Step;
    var n := Machine(g, Count(m.f, m.nread), m.log);
    Quiet(cfg, m, t[0], g);
    ReadByte(cfg, m, t[0], n);
    RefusedBehind(cfg, m, [t[0]], n, t[1..]);
    assert [t[0]] + t[1..] == t;
  }

  lemma {:induction false} DigitsExact(cfg: Config, m: Machine, z: string)
    requires m.f.state.ResStatusCode? && H.IsReason(z)
    ensures !Fold(cfg, m, z + "\r\n", 0).end.Failed? <==> DigitPart(m.f.m.statusCode, z)
    decreases |z|
  {
    hide Transition, Step, Fold, IsNum, Digit;
    if z == "" {
      EmptyReason(cfg, m);
      assert z + "\r\n" == "\r\n";
    } else {
      var (c, rest) := (z[0], z[1..]);
      H.ReasonChars(z);
      CodeStep(cfg, m.f, c);
      var t := z + "\r\n";
      assert t[0] == c && t[1..] == rest + "\r\n";
      var o := Transition(cfg, m.f, c);
      if o.Fail? {
        StepFail(cfg, m, c, o.errno);
        RefusedAt(cfg, m, t, o.errno);
        BlankNoDigit(c);
      } else if IsNum(c) {
        GoOn(cfg, m, t, o.f);
        BlankNoDigit(c);
        DigitsExact(cfg, Machine(o.f, Count(m.f, m.nread), m.log), rest);
      } else {
        GoOn(cfg, m, t, o.f);
        var n := Machine(o.f, Count(m.f, m.nread), m.log);
        H.ReadReason(cfg, n, rest);
        ReadsIs(cfg, n, rest + "\r\n", H.Reasoned(n, rest));
      }
    }
  }

  lemma BlankNoDigit(c: char)
    ensures IsNum(c) ==> c != ' '
  {
  }

  lemma EmptyReason(cfg: Config, m: Machine)
    requires m.f.state.ResStatusCode?
    ensures !Fold(cfg, m, "\r\n", 0).end.Failed?
  {
    hide Transition, Step, Fold, StepsAlike, H.Reasoned, StartMarks, ParsingHeader;
    CodeEnds(cfg, m.f);
    CodeStates();
    var n := Machine(m.f.(state := ResStatusStart), m.nread, m.log);
    H.ReadReason(cfg, n, "");
    assert "" + "\r\n" == "\r\n";
    ReadsIs(cfg, n, "\r\n", H.Reasoned(n, ""));
    SameStep(cfg, n, m, '\r');
    SameRun(cfg, n, m);
  }

  lemma CodeStates()
    ensures StartKind(ResStatusCode).None? && StartKind(ResStatusStart).None?
    ensures StartMarks(ResStatusCode) == StartMarks(ResStatusStart)
    ensures ParsingHeader(ResStatusCode) && ParsingHeader(ResStatusStart)
  {
  }

  /** The same first step, which runs on to the end. */
  lemma SameRun(cfg: Config, n: Machine, m: Machine)
    requires StepsAlike(Step(cfg, n, '\r'), Step(cfg, m, '\r')) && n.nread == m.nread
    requires ParsingHeader(n.f.state) == ParsingHeader(m.f.state)
    requires Transition(cfg, n.f, '\r') == Transition(cfg, m.f, '\r') && StartMarks(n.f.state) == StartMarks(m.f.state)
    requires n.log == m.log && !n.f.state.ChunkSizeStart? && !m.f.state.ChunkSizeStart?
    ensures Fold(cfg, m, "\r\n", 0).end == Fold(cfg, n, "\r\n", 0).end
  {
    assert Step(cfg, n, '\r') == Step(cfg, m, '\r') by { hide Transition, Perform, Leftover; }
    hide Step;
  }

  lemma {:induction false} CodeExact(cfg: Config, m: Machine, y: string)
    requires m.f.state.ResFirstStatusCode? && H.IsReason(y)
    ensures !Fold(cfg, m, y + "\r\n", 0).end.Failed? <==> CodePart(y)
    decreases |y|
  {
    hide Transition, Step, Fold, IsNum, Digit, DigitPart;
    var t := y + "\r\n";
    if y == "" {
      assert t[0] == '\r';
      NoCode(cfg, m.f);
      StepFail(cfg, m, '\r', InvalidStatus);
      RefusedAt(cfg, m, t, InvalidStatus);
    } else {
      var (c, rest) := (y[0], y[1..]);
      H.ReasonChars(y);
      CodeStep(cfg, m.f, c);
      BlankNoDigit(c);
      assert t[0] == c && t[1..] == rest + "\r\n";
      var o := Transition(cfg, m.f, c);
      if o.Fail? {
        StepFail(cfg, m, c, o.errno);
        RefusedAt(cfg, m, t, o.errno);
      } else {
        GoOn(cfg, m, t, o.f);
        var n := Machine(o.f, Count(m.f, m.nread), m.log);
        if IsNum(c) { DigitsExact(cfg, n, rest); } else { CodeExact(cfg, n, rest); }
      }
    }
  }

  lemma NoCode(cfg: Config, f: Fields)
    requires f.state.ResFirstStatusCode?
    ensures Transition(cfg, f, '\r') == Fail(InvalidStatus)
  {
  }

  /** A status line as it may be written. */
  ghost predicate StatusForm(x: string) {
    |x| >= 9 && (forall i :: 0 <= i < 9 ==> VersionChar(i, x[i])) && IsCodePart(x[9..])
  }

  /** A status line is accepted if and only if it is a version of two digits, a blank or more, a code up to 999,
      and nothing or a blank and any reason. */
  lemma StatusLineExact(cfg: Config, m: Machine, x: string)
    requires m.f.state.StartRes? && x != "" && H.IsReason(x)
    ensures !Fold(cfg, m, x + "\r\n", 0).end.Failed? <==> StatusForm(x)
  {
    hide Fold, VersionChar, CodePart, IsCodePart, Reads;
    assert x[0] in x;
    var t := x + "\r\n";
    if |x| >= 9 {
      var n := VersionRead(cfg, m, x, 9);
      assert t == x[..9] + (x[9..] + "\r\n");
      if forall i :: 0 <= i < 9 ==> VersionChar(i, x[i]) {
        assert forall c :: c in x[9..] ==> c in x;
        RefusedBehind(cfg, m, x[..9], n, x[9..] + "\r\n");
        CodeExact(cfg, n, x[9..]);
        CodePartExact(x[9..]);
      } else {
        MoreRefused(cfg, m, x[..9], x[9..] + "\r\n");
      }
    } else {
      var i := |x|;
      var n := VersionRead(cfg, m, t, i + 1);
      NoLineEnd(i);
      assert t[i] == '\r' && t == t[..i + 1] + t[i + 1..];
      MoreRefused(cfg, m, t[..i + 1], t[i + 1..]);
    }
  }

  lemma NoLineEnd(i: nat)
    ensures !VersionChar(i, '\r')
  {
    assert forall j :: 0 <= j < 5 ==> "HTTP/"[j] != '\r';
  }

  /** That is: blanks or none, a code, and nothing or a blank and more. */
  ghost predicate IsCodePart(y: string) { exists b, code, r :: Parts(y, b, code, r) }

  predicate Parts(y: string, b: string, code: string, r: string) {
    (forall c :: c in b ==> c == ' ') && H.IsCode(code) && (r == "" || r[0] == ' ') && y == b + code + r
  }

  lemma {:induction false} DecimalGrows(a: string, b: string)
    ensures Decimal(a) <= Decimal(a + b)
    decreases |b|
  {
    hide Decimal, Digit;
    if b == "" {
      assert a + b == a;
    } else {
      var init := b[..|b| - 1];
      assert a + b == (a + init) + [b[|b| - 1]];
      DecimalGrows(a, init);
      LengthParts(a + init, b[|b| - 1]);
    }
  }

  /** The digits so far, more of them, and nothing or a blank and more. */
  ghost predicate GoesOnAs(init: string, z: string) { exists more, r :: Tail(init, z, more, r) }

  predicate Tail(init: string, z: string, more: string, r: string) {
    H.IsCode(init + more) && (r == "" || r[0] == ' ') && z == more + r
  }

  lemma TailMore(init: string, z: string)
    requires H.IsCode(init) && z != "" && z[0] != ' '
    ensures GoesOnAs(init, z) <==> H.IsCode(init + [z[0]]) && GoesOnAs(init + [z[0]], z[1..])
  {
    hide IsNum, Decimal;
    var next := init + [z[0]];
    if more, r :| Tail(init, z, more, r) {
      assert more != "" && more[0] == z[0] && init + more == next + more[1..] && z[1..] == more[1..] + r;
      DecimalGrows(next, more[1..]);
      assert forall c :: c in next ==> c in init + more;
      assert Tail(next, z[1..], more[1..], r);
    }
    if more, r :| Tail(next, z[1..], more, r) {
      assert init + ([z[0]] + more) == next + more;
      assert Tail(init, z, [z[0]] + more, r);
    }
  }

  lemma NextCode(init: string, c: char)
    requires H.IsCode(init)
    ensures H.IsCode(init + [c]) <==> IsNum(c) && Decimal(init) * 10 + Digit(c) <= 999
    ensures IsNum(c) ==> Decimal(init + [c]) == Decimal(init) * 10 + Digit(c)
  {
    LengthParts(init, c);
    assert forall d :: d in init + [c] <==> d in init || d == c;
    hide IsNum, Digit, Decimal;
  }

  lemma {:induction false} DigitPartExact(init: string, z: string)
    requires H.IsCode(init)
    ensures DigitPart(Decimal(init), z) <==> GoesOnAs(init, z)
    decreases |z|
  {
    hide IsNum, Digit, Decimal, GoesOnAs, H.IsCode;
    if z == "" || z[0] == ' ' {
      NoMore(init, z);
    } else {
      NextCode(init, z[0]);
      TailMore(init, z);
      if H.IsCode(init + [z[0]]) { DigitPartExact(init + [z[0]], z[1..]); }
    }
  }

  lemma NoMore(init: string, z: string)
    requires H.IsCode(init) && (z == "" || z[0] == ' ')
    ensures GoesOnAs(init, z)
  {
    assert init + "" == init && z == "" + z;
    assert Tail(init, z, "", z);
    hide Decimal;
  }

  lemma {:induction false} CodePartExact(y: string)
    ensures CodePart(y) <==> IsCodePart(y)
    decreases |y|
  {
    hide IsNum, Digit, Decimal, DigitPart;
    if y != "" {
      BlankNoDigit(y[0]);
      if y[0] == ' ' { CodePartExact(y[1..]); BlankFirst(y); } else { CodeFirst(y); }
    }
  }

  lemma BlankFirst(y: string)
    requires y != "" && y[0] == ' '
    ensures IsCodePart(y) <==> IsCodePart(y[1..])
  {
    hide IsNum, Decimal;
    if b, code, r :| Parts(y[1..], b, code, r) { assert Parts(y, [' '] + b, code, r); }
    if b, code, r :| Parts(y, b, code, r) {
      assert code[0] in code;
      BlankNoDigit(code[0]);
      assert b != "" && y[1..] == b[1..] + code + r && forall c :: c in b[1..] ==> c in b;
      assert Parts(y[1..], b[1..], code, r);
    }
  }

  lemma NoBlanks(y: string, b: string, code: string, r: string)
    requires Parts(y, b, code, r)
    ensures b != "" ==> y[0] == ' '
  {
    if b != "" { assert b[0] in b; }
    hide H.IsCode;
  }

  lemma CodeFirst(y: string)
    requires y != "" && y[0] != ' '
    ensures IsNum(y[0]) && DigitPart(Digit(y[0]), y[1..]) <==> IsCodePart(y)
  {
    hide Decimal, DigitPart;
    var (c, z) := (y[0], y[1..]);
    if IsNum(c) {
      LengthParts("", c);
      assert Decimal("") == 0 by { EmptyDecimal(); }
      assert "" + [c] == [c] && H.IsCode([c]);
      DigitPartExact([c], z);
      if more, r :| Tail([c], z, more, r) { assert Parts(y, "", [c] + more, r); }
    }
    if b, code, r :| Parts(y, b, code, r) {
      NoBlanks(y, b, code, r);
      assert y == code + r && code[0] == c && c in code;
      assert code == [c] + code[1..] && Tail([c], z, code[1..], r);
    }
  }

  lemma EmptyDecimal()
    ensures Decimal("") == 0
  {
  }
}
