/** Request lines: which texts the parser takes as one, and what it reads from them. */
module RequestLines {
  import opened Chars
  import opened Numbers
  import opened ParserState
  import opened UrlChar
  import opened ByteTransition
  import opened StepMachine
  import opened ParserInvariant
  import opened LogInvariant
  import opened Refinement
  import opened Calls
  import opened Stepping
  import opened Reading
  import opened UrlForms
  import opened Refusals
  import H = ResponseHead

  const METHODS: nat := 33

  // ----- the method -----

  /** The method that the parser holds these letters for. */
  function Guess(x: string): Option<nat>
    decreases |x|
  {
    if x == "" then None
    else if |x| == 1 then FirstMethod(x[0])
    else
      var (init, c) := (x[..|x| - 1], x[|x| - 1]);
      match Guess(init)
      case None => None
      case Some(v) => Corrected(v, |init|, c)
  }

  /** The same for one more letter. */
  function Corrected(v: nat, pos: nat, c: char): Option<nat> {
    if pos < |MethodString(v)| && c == MethodString(v)[pos] then Some(v) else OtherMethod(v, pos, c)
  }

  /** Where a method takes over, and from which. */
  function From(v: nat): Option<(nat, nat)> {
    match v
    case 4 => Some((3, 1)) case 28 => Some((3, 1)) case 12 => Some((3, 1)) case 29 => Some((4, 2))
    case 22 => Some((5, 1)) case 8 => Some((5, 2)) case 11 => Some((10, 1)) case 23 => Some((10, 1))
    case 24 => Some((10, 1)) case 21 => Some((10, 2)) case 30 => Some((10, 3)) case 14 => Some((26, 1))
    case 17 => Some((20, 2)) case 13 => Some((12, 4)) case 31 => Some((9, 1)) case 27 => Some((15, 2))
    case 18 => Some((15, 2)) case 32 => Some((15, 3))
    case _ => None
  }

  function Depth(v: nat): nat {
    match From(v) case None => 0 case Some(_) => if v == 13 || v == 29 then 2 else 1
  }

  /** The two words are alike up to `pos`, where the second has `c` and the first has not. */
  predicate Branches(a: string, b: string, pos: nat, c: char) {
    pos < |a| && pos < |b| && b[pos] == c && a[pos] != c && forall j :: 0 <= j < pos ==> a[j] == b[j]
  }

  lemma OtherIs(v: nat, pos: nat, c: char)
    requires OtherMethod(v, pos, c).Some?
    ensures var u := OtherMethod(v, pos, c).value;
            u < METHODS && pos >= 1 && From(u) == Some((v, pos)) && Branches(MethodString(v), MethodString(u), pos, c)
  {
    hide Branches;
    var u := OtherMethod(v, pos, c).value;
    Branching(u);
    assert c == MethodString(u)[pos];
  }

  lemma Branching(u: nat)
    requires From(u).Some?
    ensures var (v, pos) := From(u).value;
            && pos < |MethodString(u)| && Branches(MethodString(v), MethodString(u), pos, MethodString(u)[pos])
            && OtherMethod(v, pos, MethodString(u)[pos]) == Some(u) && 1 <= pos && v < METHODS && u < METHODS
            && Depth(v) < Depth(u) && (From(v).Some? ==> From(v).value.1 < pos)
  {
  }

  lemma FirstIs(c: char)
    requires FirstMethod(c).Some?
    ensures var v := FirstMethod(c).value;
            v < METHODS && From(v).None? && MethodString(v) != "" && MethodString(v)[0] == c && IsAlpha(c)
  {
  }

  lemma FirstOf(v: nat)
    requires v < METHODS && From(v).None?
    ensures MethodString(v) != "" && FirstMethod(MethodString(v)[0]) == Some(v)
  {
  }

  /** Only letters of a method are taken. */
  lemma {:induction false} GuessSound(x: string)
    requires Guess(x).Some?
    ensures var v := Guess(x).value; v < METHODS && |x| <= |MethodString(v)| && MethodString(v)[..|x|] == x
    decreases |x|
  {
    hide MethodString, OtherMethod, FirstMethod;
    if |x| == 1 {
      FirstIs(x[0]);
      var w := MethodString(Guess(x).value);
      assert w[..1] == [w[0]] && x == [x[0]];
    } else {
      var (init, c) := (x[..|x| - 1], x[|x| - 1]);
      GuessSound(init);
      var v := Guess(init).value;
      assert MethodString(v)[..|init|] == init;
      assert x == init + [c];
      if !(|init| < |MethodString(v)| && c == MethodString(v)[|init|]) {
        OtherIs(v, |init|, c);
        assert MethodString(Guess(x).value)[..|init|] == init;
      }
    }
  }

  /** The method held after `i` letters of `v`. */
  function Held(v: nat, i: nat): nat
    decreases Depth(v)
  {
    match From(v)
    case None => v
    case Some((u, pos)) => if i > pos || Depth(u) >= Depth(v) then v else Held(u, i)
  }

  lemma {:induction false} HeldFirst(v: nat)
    requires v < METHODS
    ensures MethodString(v) != "" && FirstMethod(MethodString(v)[0]) == Some(Held(v, 1))
    decreases Depth(v)
  {
    hide MethodString, OtherMethod, FirstMethod, Depth, From;
    if From(v).Some? {
      Branching(v);
      HeldFirst(From(v).value.0);
    } else {
      FirstOf(v);
    }
  }

  lemma {:induction false} HeldNext(v: nat, i: nat)
    requires v < METHODS && 1 <= i < |MethodString(v)|
    ensures Corrected(Held(v, i), i, MethodString(v)[i]) == Some(Held(v, i + 1))
    decreases Depth(v)
  {
    hide MethodString, OtherMethod, FirstMethod, Depth, From;
    if From(v).Some? && i <= From(v).value.1 {
      Branching(v);
      var (u, pos) := From(v).value;
      if i == pos {
        assert Held(u, i) == u && Held(v, i + 1) == v;
      } else {
        HeldNext(u, i);
      }
    }
  }

  /** Every method is held for its letters. */
  lemma {:induction false} GuessComplete(v: nat, i: nat)
    requires v < METHODS && 1 <= i <= |MethodString(v)|
    ensures Guess(MethodString(v)[..i]) == Some(Held(v, i))
    decreases i
  {
    hide MethodString, OtherMethod, FirstMethod, Depth, From, Held;
    HeldFirst(v);
    var x := MethodString(v)[..i];
    if i > 1 {
      GuessComplete(v, i - 1);
      HeldNext(v, i - 1);
      assert x[..|x| - 1] == MethodString(v)[..i - 1];
    }
  }

  lemma HeldAtEnd(v: nat)
    requires v < METHODS
    ensures MethodString(v) != "" && Held(v, |MethodString(v)|) == v
  {
    HeldFirst(v);
    if From(v).Some? { Branching(v); }
    hide MethodString, Depth, From, FirstMethod, OtherMethod;
  }

  /** A word is the method held for it, as long as that is, if and only if it is a method. */
  lemma WordExact(x: string, v: nat)
    ensures Guess(x) == Some(v) && |x| == |MethodString(v)| <==> v < METHODS && x == MethodString(v)
  {
    hide Guess, MethodString, Held;
    if Guess(x).Some? { GuessSound(x); }
    if v < METHODS && x == MethodString(v) {
      HeldAtEnd(v);
      GuessComplete(v, |x|);
      assert MethodString(v)[..|x|] == x;
    }
  }

  predicate Letter(c: char) { 'A' <= c <= 'Z' || c == '-' }

  lemma WordLetters(v: nat, i: nat)
    requires i < |MethodString(v)|
    ensures Letter(MethodString(v)[i])
  {
    hide Letter;
    LettersOf(MethodString(v));
    Spelled(v);
  }

  predicate Spells(x: string) { forall i :: 0 <= i < |x| ==> Letter(x[i]) }

  lemma LettersOf(x: string)
    ensures Spells(x) ==> forall i :: 0 <= i < |x| ==> Letter(x[i])
  {
  }

  lemma Spelled(v: nat)
    ensures Spells(MethodString(v))
  {
    hide MethodString;
    if v < 16 { SpelledFirst(v); } else { SpelledRest(v); }
  }

  lemma SpelledFirst(v: nat)
    requires v < 16
    ensures Spells(MethodString(v))
  {
  }

  lemma SpelledRest(v: nat)
    requires v >= 16
    ensures Spells(MethodString(v))
  {
  }

  lemma MethodTransition(cfg: Config, f: Fields, c: char)
    requires f.state.ReqMethod?
    ensures Transition(cfg, f, c) ==
        if c == ' ' then
          (if f.index == |MethodString(f.m.verb)| then Do(f.(state := ReqSpacesBeforeUrl, index := f.index + 1), [])
           else Fail(InvalidMethod))
        else
          match Corrected(f.m.verb, f.index, c)
          case None => Fail(InvalidMethod)
          case Some(v) => Do(f.(index := f.index + 1, m := f.m.(verb := v)), [])
  {
    if f.index < |MethodString(f.m.verb)| { WordLetters(f.m.verb, f.index); }
    OtherLetter(f.m.verb, f.index, c);
    assert Transition(cfg, f, c) == ReqMethodStep(f, c);
    hide MethodString, OtherMethod, Transition;
  }

  lemma OtherLetter(v: nat, pos: nat, c: char)
    ensures OtherMethod(v, pos, c).Some? ==> Letter(c)
  {
  }

  lemma StartTransition(cfg: Config, f: Fields, c: char)
    requires f.state.StartReq? && c != '\r' && c != '\n'
    ensures Transition(cfg, f, c) ==
        match FirstMethod(c)
        case None => Fail(InvalidMethod)
        case Some(v) =>
          Do(Fresh(f).(state := ReqMethod, index := 1, m := Fresh(f).m.(verb := v)), [Notify(MessageBegin)])
  {
    if FirstMethod(c).Some? { FirstIs(c); }
    assert Transition(cfg, f, c) == StartReqStep(f, c);
    hide Fresh, IsAlpha, FirstMethod, Transition;
  }

  /** The machine that holds a method for `i` letters. */
  function Holding(m: Machine, v: nat, i: nat): Machine {
    Machine(Fresh(m.f).(state := ReqMethod, index := i, m := Fresh(m.f).m.(verb := v)), m.nread + i,
      m.log + [Note(MessageBegin)])
  }

  lemma ReadFirst(cfg: Config, m: Machine, c: char)
    requires m.f.state.StartReq? && c != '\r' && c != '\n'
    ensures match FirstMethod(c)
            case None => Fold(cfg, m, [c], 0).end.Failed?
            case Some(v) => Reads(cfg, m, [c], Holding(m, v, 1))
  {
    hide Transition, Fold, Reads, Step, Fresh, MethodString;
    StartTransition(cfg, m.f, c);
    match FirstMethod(c) {
      case None =>
        StepFail(cfg, m, c, InvalidMethod);
        RefusedAt(cfg, m, [c], InvalidMethod);
      case Some(v) =>
        StepNotify(cfg, m, c, MessageBegin);
        ReadByte(cfg, m, c, Holding(m, v, 1));
    }
    hide FirstMethod;
  }

  lemma {:induction false} ReadWord(cfg: Config, m: Machine, x: string)
    requires m.f.state.StartReq? && x != "" && ' ' !in x && x[0] != '\r' && x[0] != '\n'
    ensures match Guess(x)
            case None => Fold(cfg, m, x, 0).end.Failed?
            case Some(v) => Reads(cfg, m, x, Holding(m, v, |x|))
    decreases |x|
  {
    hide Transition, Fold, Reads, Step, Fresh, MethodString, FirstMethod, Corrected;
    if |x| == 1 {
      ReadFirst(cfg, m, x[0]);
      assert x == [x[0]];
    } else {
      var (init, c) := (x[..|x| - 1], x[|x| - 1]);
      assert x == init + [c] && c in x && init[0] == x[0];
      ReadWord(cfg, m, init);
      match Guess(init) {
        case None => MoreRefused(cfg, m, init, [c]);
        case Some(v) =>
          var n := Holding(m, v, |init|);
          MethodTransition(cfg, n.f, c);
          NextHeld(cfg, m, n, init, c);
      }
    }
  }

  /** One more letter, by what the byte does. */
  lemma NextHeld(cfg: Config, m: Machine, n: Machine, init: string, c: char)
    requires Reads(cfg, m, init, n) && n.f.state.ReqMethod? && (Transition(cfg, n.f, c).Out? ==>
      Transition(cfg, n.f, c) == Do(Transition(cfg, n.f, c).f, []))
    ensures var o := Transition(cfg, n.f, c);
            if o.Fail? then Fold(cfg, m, init + [c], 0).end.Failed?
            else Reads(cfg, m, init + [c], Machine(o.f, n.nread + 1, n.log))
  {
    hide Transition, Fold, Reads, Step;
    var o := Transition(cfg, n.f, c);
    if o.Fail? {
      StepFail(cfg, n, c, o.errno);
      RefuseAfter(cfg, m, init, n, c, "", o.errno);
      assert init + [c] + "" == init + [c];
    } else {
      H.ReadMore(cfg, m, init, n, c, Machine(o.f, n.nread + 1, n.log));
    }
  }

  predicate IsMethodWord(x: string) { exists v: nat :: v < METHODS && x == MethodString(v) }

  /** The machine behind a method and its blank. */
  function Behind(m: Machine, v: nat): Machine {
    var i := |MethodString(v)|;
    Machine(Fresh(m.f).(state := ReqSpacesBeforeUrl, index := i + 1, m := Fresh(m.f).m.(verb := v)), m.nread + i + 1,
      m.log + [Note(MessageBegin)])
  }

  /** A word and a blank are read if and only if the word is one of the methods, which is then recorded. */
  lemma MethodExact(cfg: Config, m: Machine, x: string)
    requires m.f.state.StartReq? && x != "" && ' ' !in x && x[0] != '\r' && x[0] != '\n'
    ensures forall v: nat :: v < METHODS && x == MethodString(v) ==> Reads(cfg, m, x + " ", Behind(m, v))
    ensures !IsMethodWord(x) ==> Fold(cfg, m, x + " ", 0).end.Failed?
    ensures Fold(cfg, m, x + "\r", 0).end.Failed?
  {
    hide Transition, Fold, Reads, Step, Fresh, MethodString, Guess;
    ReadWord(cfg, m, x);
    match Guess(x) {
      case None =>
        MoreRefused(cfg, m, x, " ");
        MoreRefused(cfg, m, x, "\r");
        forall v: nat | v < METHODS && x == MethodString(v) ensures false { WordExact(x, v); }
      case Some(v) =>
        var n := Holding(m, v, |x|);
        MethodTransition(cfg, n.f, ' ');
        MethodTransition(cfg, n.f, '\r');
        NoCr(v, |x|);
        NextHeld(cfg, m, n, x, ' ');
        NextHeld(cfg, m, n, x, '\r');
        forall u: nat | u < METHODS && x == MethodString(u) ensures u == v { WordExact(x, u); }
        WordExact(x, v);
    }
  }

  lemma NoCr(v: nat, i: nat)
    ensures Corrected(v, i, '\r').None?
  {
    hide MethodString, OtherMethod;
    OtherLetter(v, i, '\r');
    if i < |MethodString(v)| { WordLetters(v, i); }
  }

  // ----- blanks -----

  predicate Blanks(b: string) { forall c :: c in b ==> c == ' ' }

  /** Where the blanks at the start end. */
  lemma {:induction false} BlankRun(x: string) returns (n: nat)
    ensures n <= |x| && Blanks(x[..n]) && (n < |x| ==> x[n] != ' ')
  {
    if x == "" || x[0] != ' ' {
      n := 0;
    } else {
      var i := BlankRun(x[1..]);
      n := i + 1;
      assert x[..n] == [x[0]] + x[1..][..i];
    }
  }

  lemma BlanksEnd(b: string, x: string, n: nat)
    requires Blanks(b) && (x != "" ==> x[0] != ' ')
    requires n <= |b + x| && Blanks((b + x)[..n]) && (n < |b + x| ==> (b + x)[n] != ' ')
    ensures n == |b|
  {
    var y := b + x;
    forall i | 0 <= i < |b| ensures b[i] == ' ' { assert b[i] in b; }
    assert forall i :: 0 <= i < n ==> y[..n][i] in y[..n];
    assert forall i :: 0 <= i < n ==> y[i] == y[..n][i] == ' ';
    assert x != "" ==> y[|b|] == x[0];
  }

  /** Where the first word ends. */
  lemma {:induction false} WordRun(x: string) returns (n: nat)
    ensures n <= |x| && ' ' !in x[..n] && (n < |x| ==> x[n] == ' ')
  {
    if x == "" || x[0] == ' ' {
      n := 0;
    } else {
      var i := WordRun(x[1..]);
      n := i + 1;
      assert x[..n] == [x[0]] + x[1..][..i];
    }
  }

  lemma WordEnd(w: string, x: string, n: nat)
    requires ' ' !in w && (x != "" ==> x[0] == ' ')
    requires n <= |w + x| && ' ' !in (w + x)[..n] && (n < |w + x| ==> (w + x)[n] == ' ')
    ensures n == |w|
  {
    var y := w + x;
    assert forall i :: 0 <= i < |w| ==> w[i] != ' ';
    assert forall i :: 0 <= i < n ==> y[..n][i] in y[..n];
    assert forall i :: 0 <= i < n ==> y[i] == y[..n][i] != ' ';
    assert x != "" ==> y[|w|] == x[0];
  }

  lemma BlankTransition(cfg: Config, f: Fields)
    requires f.state.ReqSpacesBeforeUrl? || f.state.ReqHttpStart?
    ensures Transition(cfg, f, ' ') == Do(f, []) && StartKind(f.state).None? && ParsingHeader(f.state)
  {
  }

  lemma ReadBlanks(cfg: Config, m: Machine, b: string)
    requires (m.f.state.ReqSpacesBeforeUrl? || m.f.state.ReqHttpStart?) && Blanks(b)
    ensures Reads(cfg, m, b, m.(nread := m.nread + |b|))
  {
    BlankTransition(cfg, m.f);
    hide Transition, Fold, Reads, ParsingHeader, StartKind;
    ReadLoop(cfg, m, b);
  }

  // ----- the target -----

  function UrlAfter(s: State, t: string): State
    decreases |t|
  {
    if t == "" then s else UrlAfter(ParseUrlChar(s, t[0]), t[1..])
  }

  lemma {:induction false} UrlAfterMore(s: State, t: string, u: string)
    ensures UrlAfter(s, t + u) == UrlAfter(UrlAfter(s, t), u)
    decreases |t|
  {
    hide ParseUrlChar;
    if t == "" {
      assert t + u == u;
    } else {
      assert (t + u)[0] == t[0] && (t + u)[1..] == t[1..] + u;
      UrlAfterMore(ParseUrlChar(s, t[0]), t[1..], u);
    }
  }

  lemma UrlAfterByte(s: State, t: string, c: char)
    ensures UrlAfter(s, t + [c]) == ParseUrlChar(UrlAfter(s, t), c)
  {
    UrlAfterMore(s, t, [c]);
    assert [c][1..] == "";
    hide ParseUrlChar;
  }

  lemma {:induction false} GoesIs(s: State, t: string)
    ensures !s.Dead? ==> (Goes(s, t) <==> !UrlAfter(s, t).Dead?)
    ensures s.Dead? ==> UrlAfter(s, t).Dead?
    decreases |t|
  {
    if t != "" { GoesIs(ParseUrlChar(s, t[0]), t[1..]); }
    hide ParseUrlChar, Goes, UrlAfter;
  }

  /** States in which a target may end. */
  predicate MayEnd(s: State) { InRest(s) || s.ReqServer? || s.ReqServerWithAt? }

  function FirstState(f: Fields): State { if f.m.verb == CONNECT then ReqServerStart else ReqSpacesBeforeUrl }

  predicate UrlByte(c: char) { c != ' ' && c != '\r' && c != '\n' }

  lemma FirstOfTarget(cfg: Config, f: Fields, c: char)
    requires f.state.ReqSpacesBeforeUrl? && c != ' '
    ensures var t := ParseUrlChar(FirstState(f), c);
            Transition(cfg, f, c) == if t.Dead? then Fail(InvalidUrl) else Do(f.(state := t), [Mark(Url)])
    ensures StartKind(f.state).None? && ParsingHeader(f.state)
  {
    hide ParseUrlChar;
  }

  lemma NextOfTarget(cfg: Config, f: Fields, c: char)
    requires IsUrlState(f.state)
    ensures var t := ParseUrlChar(f.state, c);
            && (UrlByte(c) ==> Transition(cfg, f, c) == if t.Dead? then Fail(InvalidUrl) else Do(f.(state := t), []))
    ensures !UrlByte(c) && !MayEnd(f.state) ==> Transition(cfg, f, c) == Fail(InvalidUrl)
    ensures MayEnd(f.state) ==> Transition(cfg, f, ' ') == Do(f.(state := ReqHttpStart), [Flush(Url, false)])
    ensures MayEnd(f.state) ==>
        Transition(cfg, f, '\r')
          == Do(f.(m := f.m.(major := 0, minor := 9), state := ReqLineAlmostDone), [Flush(Url, false)])
    ensures StartKind(f.state) == Some(Url) && ParsingHeader(f.state)
  {
    hide ParseUrlChar, HeaderStep, BodyStep, StatusStep, RequestVersionStep;
  }

  lemma UrlStates(s: State, c: char)
    ensures var t := ParseUrlChar(s, c); t.Dead? || IsUrlState(t)
  {
  }

  /** The machine in a target. */
  function InUrl(m: Machine, t: string): Machine {
    Machine(m.f.(state := UrlAfter(FirstState(m.f), t)), m.nread + |t|, Emit(m.log, Data(Url, t)))
  }

  lemma {:induction false} ReadUrl(cfg: Config, m: Machine, t: string)
    requires m.f.state.ReqSpacesBeforeUrl? && t != "" && forall c :: c in t ==> UrlByte(c)
    ensures if UrlAfter(FirstState(m.f), t).Dead? then Fold(cfg, m, t, 0).end.Failed?
            else Reads(cfg, m, t, InUrl(m, t)) && IsUrlState(InUrl(m, t).f.state)
    decreases |t|
  {
    hide Transition, Fold, Reads, Step, Emit, ParsingHeader, ParseUrlChar, StartKind, IsUrlState, UrlAfter;
    var s := FirstState(m.f);
    var (init, c) := (t[..|t| - 1], t[|t| - 1]);
    assert t == init + [c] && c in t && forall d :: d in init ==> d in t;
    UrlAfterByte(s, init, c);
    UrlStates(UrlAfter(s, init), c);
    if init == "" {
      assert UrlAfter(s, "") == s by { UrlAfterNothing(s); }
      assert t == [c];
      FirstOfTarget(cfg, m.f, c);
      if UrlAfter(s, t).Dead? {
        StepFail(cfg, m, c, InvalidUrl);
        RefusedAt(cfg, m, t, InvalidUrl);
      } else {
        Sets(cfg, m, c, m.f.(state := UrlAfter(s, t)), Url);
        ReadByte(cfg, m, c, InUrl(m, t));
      }
    } else {
      ReadUrl(cfg, m, init);
      if UrlAfter(s, init).Dead? {
        DeadStays(c);
        MoreRefused(cfg, m, init, [c]);
      } else {
        NextUrl(cfg, m, init, c);
      }
    }
  }

  lemma UrlAfterNothing(s: State)
    ensures UrlAfter(s, "") == s
  {
  }

  lemma DeadStays(c: char)
    ensures ParseUrlChar(Dead, c).Dead?
  {
  }

  lemma NextUrl(cfg: Config, m: Machine, init: string, c: char)
    requires m.f.state.ReqSpacesBeforeUrl? && UrlByte(c)
    requires Reads(cfg, m, init, InUrl(m, init)) && IsUrlState(InUrl(m, init).f.state)
    requires UrlAfter(FirstState(m.f), init + [c]) == ParseUrlChar(UrlAfter(FirstState(m.f), init), c)
    ensures if UrlAfter(FirstState(m.f), init + [c]).Dead? then Fold(cfg, m, init + [c], 0).end.Failed?
            else Reads(cfg, m, init + [c], InUrl(m, init + [c]))
  {
    hide Transition, Fold, Reads, Step, Emit, ParsingHeader, ParseUrlChar, StartKind, IsUrlState, UrlAfter;
    var n := InUrl(m, init);
    NextOfTarget(cfg, n.f, c);
    UrlCounts(n.f);
    var s := UrlAfter(FirstState(m.f), init + [c]);
    if s.Dead? {
      StepFail(cfg, n, c, InvalidUrl);
      RefuseAfter(cfg, m, init, n, c, "", InvalidUrl);
      assert init + [c] + "" == init + [c];
    } else {
      Quiet(cfg, n, c, n.f.(state := s));
      Grow(m.log, Url, init, c);
      ReadBytes(cfg, m, init, n, c, InUrl(m, init + [c]));
    }
  }

  lemma UrlCounts(f: Fields)
    requires IsUrlState(f.state)
    ensures !f.state.ChunkSizeStart?
  {
  }

  // ----- whole targets -----

  /** The texts that may be a target: a path or an asterisk with what may follow, or a protocol with its mark and
      a server; for CONNECT a server at once. */
  ghost predicate Target(t: string, connect: bool) {
    t != "" &&
    if connect then Served(t, false)
    else ((t[0] == '/' || t[0] == '*') && RestPart(t[1..])) || exists p, y :: Addressed(t, p, y)
  }

  ghost predicate Addressed(t: string, p: string, y: string) {
    p != "" && Letters(p) && y != "" && Served(y, false) && t == p + "://" + y
  }

  lemma {:induction false} RestStays(s: State, t: string)
    requires InRest(s)
    ensures InRest(UrlAfter(s, t)) || UrlAfter(s, t).Dead?
    decreases |t|
  {
    if t != "" {
      RestStep(s, t[0]);
      GoesIs(ParseUrlChar(s, t[0]), t[1..]);
      if !ParseUrlChar(s, t[0]).Dead? { RestStays(ParseUrlChar(s, t[0]), t[1..]); }
    }
    hide ParseUrlChar, IsRestChar;
  }

  lemma {:induction false} ServerStays(s: State, t: string)
    requires InServer(s) || InRest(s)
    ensures MayEnd(UrlAfter(s, t)) || UrlAfter(s, t).Dead? || (t == "" && s.ReqServerStart?)
    decreases |t|
  {
    hide Goes, RestPart, IsRestChar, IsServerChar;
    if t != "" {
      var u := ParseUrlChar(s, t[0]);
      ServerNext(s, t[0]);
      GoesIs(u, t[1..]);
      if !u.Dead? { ServerStays(u, t[1..]); }
    }
    hide ParseUrlChar;
  }

  lemma ServerNext(s: State, c: char)
    requires InServer(s) || InRest(s)
    ensures var u := ParseUrlChar(s, c); u.Dead? || ((InServer(u) || InRest(u)) && !u.ReqServerStart?)
  {
  }

  lemma {:induction false} LettersAfter(s: State, p: string)
    requires (s.ReqSpacesBeforeUrl? && p != "") || s.ReqSchema?
    requires Letters(p)
    ensures UrlAfter(s, p).ReqSchema?
    decreases |p|
  {
    if p != "" {
      assert p[0] in p && forall c :: c in p[1..] ==> c in p;
      SchemaNext(s, p[0]);
      LettersAfter(ReqSchema, p[1..]);
    }
    hide ParseUrlChar, IsAlpha;
  }

  lemma SchemaNext(s: State, c: char)
    requires (s.ReqSpacesBeforeUrl? || s.ReqSchema?) && IsAlpha(c)
    ensures ParseUrlChar(s, c).ReqSchema?
  {
    ColonNoLetter(c);
  }

  lemma MarkAfter(s: State)
    requires s.ReqSchema?
    ensures UrlAfter(s, ":").ReqSchemaSlash? && UrlAfter(s, ":/").ReqSchemaSlashSlash?
        && UrlAfter(s, "://").ReqServerStart?
  {
    var t := "://";
    assert t[1..] == "//" && "//"[1..] == "/" && "/"[1..] == "" && ":/"[1..] == "/" && ":"[1..] == "";
  }

  lemma MarkedAfter(p: string, y: string)
    requires p != "" && Letters(p) && Marked(y)
    ensures MayEnd(UrlAfter(ReqSpacesBeforeUrl, p + y)) ==>
              |y| > 3 && y[..3] == "://" && Served(y[3..], false)
  {
    hide ParseUrlChar, Served, Letters, UrlAfter, Goes;
    LettersAfter(ReqSpacesBeforeUrl, p);
    UrlAfterMore(ReqSpacesBeforeUrl, p, y);
    MarkAfter(ReqSchema);
    UrlAfterNothing(ReqSchema);
    if |y| == 3 { assert y == y[..3]; }
  }

  lemma AddressedAfter(t: string, p: string, y: string)
    requires Addressed(t, p, y)
    ensures MayEnd(UrlAfter(ReqSpacesBeforeUrl, t))
  {
    hide ParseUrlChar, Served, Letters, UrlAfter, Goes, Marked;
    LettersAfter(ReqSpacesBeforeUrl, p);
    UrlAfterMore(ReqSpacesBeforeUrl, p, "://" + y);
    UrlAfterMore(ReqSchema, "://", y);
    MarkAfter(ReqSchema);
    assert t == p + ("://" + y);
    GoesServer(ReqServerStart, y);
    GoesIs(ReqServerStart, y);
    ServerStays(ReqServerStart, y);
  }

  lemma RootAfter(t: string)
    requires t != "" && (t[0] == '/' || t[0] == '*') && RestPart(t[1..])
    ensures MayEnd(UrlAfter(ReqSpacesBeforeUrl, t))
  {
    hide RestPart, Goes;
    assert ParseUrlChar(ReqSpacesBeforeUrl, t[0]) == ReqPath;
    hide ParseUrlChar;
    GoesRest(ReqPath, t[1..]);
    GoesIs(ReqPath, t[1..]);
    RestStays(ReqPath, t[1..]);
  }

  /** A text leads to a state in which a target may end if and only if it may be one. */
  lemma TargetExact(t: string, connect: bool)
    requires t != ""
    ensures Target(t, connect) <==> MayEnd(UrlAfter(if connect then ReqServerStart else ReqSpacesBeforeUrl, t))
  {
    hide ParseUrlChar, Served, Letters, UrlAfter, Goes, Marked, RestPart;
    if connect {
      GoesServer(ReqServerStart, t);
      GoesIs(ReqServerStart, t);
      ServerStays(ReqServerStart, t);
    } else {
      TextGoes(t);
      GoesIs(ReqSpacesBeforeUrl, t);
      if (t[0] == '/' || t[0] == '*') && RestPart(t[1..]) {
        RootAfter(t);
      } else if MayEnd(UrlAfter(ReqSpacesBeforeUrl, t)) {
        var p, y :| p != "" && Letters(p) && Marked(y) && t == p + y;
        MarkedAfter(p, y);
        assert y == "://" + y[3..] && p + y == p + "://" + y[3..];
        assert Addressed(t, p, y[3..]);
      } else if p, y :| Addressed(t, p, y) {
        AddressedAfter(t, p, y);
      }
    }
  }

  // ----- the version -----

  function HttpState(i: nat): State {
    match i
    case 0 => ReqHttpStart
    case 1 => ReqHttpH
    case 2 => ReqHttpHT
    case 3 => ReqHttpHTT
    case 4 => ReqHttpHTTP
    case 5 => ReqHttpMajor
    case 6 => ReqHttpDot
    case 7 => ReqHttpMinor
    case _ => ReqHttpEnd
  }

  predicate IsVersion(v: string) { |v| == 8 && forall i :: 0 <= i < 8 ==> VersionChar(i, v[i]) }

  function NumberAt(v: string, i: nat): nat { if i < |v| && IsNum(v[i]) then Digit(v[i]) else 0 }

  /** The fields after the first `i` bytes of a version. */
  function HttpRead(f: Fields, v: string, i: nat): Fields {
    f.(state := HttpState(i), m := f.m.(major := if i > 5 then NumberAt(v, 5) else f.m.major,
      minor := if i > 7 then NumberAt(v, 7) else f.m.minor))
  }

  lemma HttpTransition(cfg: Config, f: Fields, v: string, i: nat)
    requires f.state.ReqHttpStart? && i < 8 && i < |v| && (i == 0 ==> v[0] != ' ')
    ensures var (g, o) := (HttpRead(f, v, i), Transition(cfg, HttpRead(f, v, i), v[i]));
            if VersionChar(i, v[i]) then o == Do(HttpRead(f, v, i + 1), []) else o.Fail?
  {
    HttpKind(i);
    assert Transition(cfg, HttpRead(f, v, i), v[i]) == RequestVersionStep(HttpRead(f, v, i), v[i]);
    hide Transition;
    if i < 5 { HttpLetter(f, v, i); } else { HttpNumber(f, v, i); }
  }

  lemma HttpKind(i: nat)
    ensures var s := HttpState(i);
            && !s.Dead? && !IsHeaderState(s) && !IsBodyState(s) && !IsStatusState(s) && StartKind(s).None?
            && ParsingHeader(s) && !s.ChunkSizeStart?
  {
  }

  lemma HttpLetter(f: Fields, v: string, i: nat)
    requires f.state.ReqHttpStart? && i < 5 && i < |v| && (i == 0 ==> v[0] != ' ')
    ensures var o := RequestVersionStep(HttpRead(f, v, i), v[i]);
            if VersionChar(i, v[i]) then o == Do(HttpRead(f, v, i + 1), []) else o.Fail?
  {
    assert "HTTP/"[i] == if i == 0 then 'H' else if i <= 2 then 'T' else if i == 3 then 'P' else '/';
  }

  lemma HttpNumber(f: Fields, v: string, i: nat)
    requires f.state.ReqHttpStart? && 5 <= i < 8 && i < |v|
    ensures var o := RequestVersionStep(HttpRead(f, v, i), v[i]);
            if VersionChar(i, v[i]) then o == Do(HttpRead(f, v, i + 1), []) else o.Fail?
  {
  }

  /** The machine reads the start of a version, or fails at the first byte that does not belong. */
  lemma {:induction false} ReadHttp(cfg: Config, m: Machine, v: string, i: nat)
    requires m.f.state.ReqHttpStart? && i <= 8 && i <= |v| && (v != "" ==> v[0] != ' ')
    ensures if forall j :: 0 <= j < i ==> VersionChar(j, v[j])
            then Reads(cfg, m, v[..i], Machine(HttpRead(m.f, v, i), m.nread + i, m.log))
            else Fold(cfg, m, v[..i], 0).end.Failed?
    decreases i
  {
    hide Transition, Step, Fold, VersionChar, Reads, ParsingHeader, StartKind;
    if i == 0 {
      ReadNothing(cfg, m);
      assert HttpRead(m.f, v, 0) == m.f;
    } else {
      ReadHttp(cfg, m, v, i - 1);
      var c := v[i - 1];
      assert v[..i] == v[..i - 1] + [c];
      if forall j :: 0 <= j < i - 1 ==> VersionChar(j, v[j]) {
        HttpKind(i - 1);
        HttpTransition(cfg, m.f, v, i - 1);
        NextByte(cfg, m, Machine(HttpRead(m.f, v, i - 1), m.nread + (i - 1), m.log), v[..i - 1], c);
      } else {
        MoreRefused(cfg, m, v[..i - 1], [c]);
      }
    }
  }

  /** One more byte, in a state without a mark. */
  lemma NextByte(cfg: Config, m: Machine, n: Machine, init: string, c: char)
    requires Reads(cfg, m, init, n) && StartKind(n.f.state).None? && ParsingHeader(n.f.state)
    requires !n.f.state.ChunkSizeStart?
    requires Transition(cfg, n.f, c).Out? ==> Transition(cfg, n.f, c) == Do(Transition(cfg, n.f, c).f, [])
    ensures var o := Transition(cfg, n.f, c);
            if o.Fail? then Fold(cfg, m, init + [c], 0).end.Failed?
            else Reads(cfg, m, init + [c], Machine(o.f, n.nread + 1, n.log))
  {
    hide Transition, Fold, Reads, Step;
    var o := Transition(cfg, n.f, c);
    if o.Fail? {
      StepFail(cfg, n, c, o.errno);
      RefuseAfter(cfg, m, init, n, c, "", o.errno);
      assert init + [c] + "" == init + [c];
    } else {
      Quiet(cfg, n, c, o.f);
      ReadBytes(cfg, m, init, n, c, Machine(o.f, n.nread + 1, n.log));
    }
  }

  lemma EndTransitions(cfg: Config, f: Fields, c: char)
    ensures f.state.ReqHttpEnd? ==>
        Transition(cfg, f, c) == if c == '\r' then Do(f.(state := ReqLineAlmostDone), [])
          else if c == '\n' then Do(f.(state := HeaderFieldStart), []) else Fail(InvalidVersion)
    ensures f.state.ReqLineAlmostDone? ==> Transition(cfg, f, '\n') == Do(f.(state := HeaderFieldStart), [])
    ensures StartKind(ReqLineAlmostDone).None? && ParsingHeader(ReqLineAlmostDone)
  {
    hide HeaderStep, BodyStep, StatusStep;
  }

  lemma ReadLf(cfg: Config, m: Machine, text: string, n: Machine)
    requires Reads(cfg, m, text, n) && n.f.state.ReqLineAlmostDone?
    ensures Reads(cfg, m, text + "\n", n.(f := n.f.(state := HeaderFieldStart), nread := n.nread + 1))
  {
    EndTransitions(cfg, n.f, '\n');
    hide Transition, Fold, Reads, Step, ParsingHeader, StartKind;
    NextByte(cfg, m, n, text, '\n');
  }

  /** The rest of a line is a version, or it is refused. */
  lemma VersionExact(cfg: Config, m: Machine, v: string)
    requires m.f.state.ReqHttpStart? && H.IsReason(v) && (v != "" ==> v[0] != ' ')
    ensures if IsVersion(v)
            then Reads(cfg, m, v + "\r\n",
                   Machine(HttpRead(m.f, v, 8).(state := HeaderFieldStart), m.nread + 10, m.log))
            else Fold(cfg, m, v + "\r\n", 0).end.Failed?
  {
    hide Transition, Step, Fold, VersionChar, Reads, ParsingHeader, StartKind;
    var t := v + "\r\n";
    if |v| >= 8 {
      assert t == v[..8] + (v[8..] + "\r\n");
      ReadHttp(cfg, m, v, 8);
      if forall j :: 0 <= j < 8 ==> VersionChar(j, v[j]) {
        var n := Machine(HttpRead(m.f, v, 8), m.nread + 8, m.log);
        var c := if |v| == 8 then '\r' else v[8];
        EndTransitions(cfg, n.f, c);
        HttpKind(8);
        NextByte(cfg, m, n, v[..8], c);
        if |v| == 8 {
          assert v[..8] == v && v + ['\r'] == v + "\r" && v + "\r" + "\n" == t;
          ReadLf(cfg, m, v + "\r", Machine(n.f.(state := ReqLineAlmostDone), n.nread + 1, n.log));
        } else {
          assert v[8] in v;
          MoreRefused(cfg, m, v[..8] + [c], v[9..] + "\r\n");
          assert v[..8] + [c] + (v[9..] + "\r\n") == t;
        }
      } else {
        MoreRefused(cfg, m, v[..8], v[8..] + "\r\n");
      }
    } else {
      var i := |v|;
      ReadHttp(cfg, m, t, i + 1);
      NoLineEnd(i);
      assert t[i] == '\r' && t == t[..i + 1] + t[i + 1..];
      MoreRefused(cfg, m, t[..i + 1], t[i + 1..]);
    }
  }

  // ----- whole lines -----

  /** What may follow the target: nothing, for version 0.9, or a blank or more and a version. */
  ghost predicate Ending(tail: string, major: nat, minor: nat) {
    || (tail == "" && major == 0 && minor == 9)
    || exists b, v :: Versioned(tail, b, v) && major == NumberAt(v, 5) && minor == NumberAt(v, 7)
  }

  predicate Versioned(tail: string, b: string, v: string) { Blanks(b) && IsVersion(v) && tail == " " + b + v }

  /** A request line as it may be written, and what is read from it. */
  ghost predicate Line(x: string, verb: nat, b: string, t: string, tail: string, major: nat, minor: nat) {
    && verb < METHODS && Blanks(b) && Target(t, verb == CONNECT) && Ending(tail, major, minor)
    && x == MethodString(verb) + " " + b + t + tail
  }

  ghost predicate IsLine(x: string) {
    exists verb, b, t, tail, major, minor :: Line(x, verb, b, t, tail, major, minor)
  }

  /** A line was read: its method, its version and its target. */
  predicate LineRead(m: Machine, verb: nat, t: string, major: nat, minor: nat, n: Machine) {
    && n.f == Fresh(m.f).(state := HeaderFieldStart, index := n.f.index,
         m := Fresh(m.f).m.(verb := verb, major := major, minor := minor))
    && n.log == m.log + [Note(MessageBegin), Data(Url, t)]
  }

  /** The machine behind a target and its ending. */
  function Ended(n: Machine, major: nat, minor: nat, used: nat): Machine {
    Machine(n.f.(state := HeaderFieldStart, m := n.f.m.(major := major, minor := minor)), n.nread + used, n.log)
  }

  lemma HttpEnded(f: Fields, v: string)
    ensures HttpRead(f, v, 8).(state := HeaderFieldStart)
        == f.(state := HeaderFieldStart, m := f.m.(major := NumberAt(v, 5), minor := NumberAt(v, 7)))
    ensures IsVersion(v) ==> |v| == 8
  {
  }

  predicate AtUrlEnd(n: Machine) { IsUrlState(n.f.state) && LastIs(n.log, Url) }

  /** Behind a target the line ends as it may, or it is refused. */
  lemma EndingVersion(cfg: Config, n: Machine, b: string, v: string)
    requires AtUrlEnd(n) && MayEnd(n.f.state) && Blanks(b) && H.IsReason(v) && (v != "" ==> v[0] != ' ')
    ensures var t := " " + b + v + "\r\n";
            if IsVersion(v) then Reads(cfg, n, t, Ended(n, NumberAt(v, 5), NumberAt(v, 7), |t|))
            else Fold(cfg, n, t, 0).end.Failed?
  {
    hide Transition, Step, Fold, Reads, ParsingHeader, StartKind, IsUrlState, MayEnd, IsVersion, HttpRead;
    NextOfTarget(cfg, n.f, ' ');
    UrlCounts(n.f);
    var o := n.(f := n.f.(state := ReqHttpStart), nread := n.nread + 1);
    Flushes(cfg, n, ' ', o.f, Url);
    ReadByte(cfg, n, ' ', o);
    var p := o.(nread := o.nread + |b|);
    ReadBlanks(cfg, o, b);
    ReadThen(cfg, n, [' '], o, b, p);
    VersionExact(cfg, p, v);
    HttpEnded(o.f, v);
    var t := " " + b + v + "\r\n";
    assert t == [' '] + b + (v + "\r\n");
    RefusedBehind(cfg, n, [' '] + b, p, v + "\r\n");
    if IsVersion(v) { ReadThen(cfg, n, [' '] + b, p, v + "\r\n", Ended(n, NumberAt(v, 5), NumberAt(v, 7), |t|)); }
  }

  lemma EndingNone(cfg: Config, n: Machine)
    requires AtUrlEnd(n)
    ensures if MayEnd(n.f.state) then Reads(cfg, n, "\r\n", Ended(n, 0, 9, 2))
            else Fold(cfg, n, "\r\n", 0).end.Failed?
  {
    hide Transition, Step, Fold, Reads, ParsingHeader, StartKind, IsUrlState, MayEnd;
    NextOfTarget(cfg, n.f, '\r');
    UrlCounts(n.f);
    var t := "\r\n";
    if MayEnd(n.f.state) {
      var g := n.f.(m := n.f.m.(major := 0, minor := 9), state := ReqLineAlmostDone);
      Flushes(cfg, n, '\r', g, Url);
      ReadByte(cfg, n, '\r', n.(f := g, nread := n.nread + 1));
      assert ['\r'] == "\r" && "\r" + "\n" == t;
      ReadLf(cfg, n, "\r", n.(f := g, nread := n.nread + 1));
    } else {
      assert t[0] == '\r';
      StepFail(cfg, n, '\r', InvalidUrl);
      RefusedAt(cfg, n, t, InvalidUrl);
    }
  }

  lemma EndingRefused(cfg: Config, n: Machine, rest: string)
    requires AtUrlEnd(n) && !MayEnd(n.f.state) && rest != "" && rest[0] == ' '
    ensures Fold(cfg, n, rest, 0).end.Failed?
  {
    hide Transition, Step, Fold, ParsingHeader, StartKind, MayEnd;
    NextOfTarget(cfg, n.f, ' ');
    UrlCounts(n.f);
    StepFail(cfg, n, ' ', InvalidUrl);
    RefusedAt(cfg, n, rest, InvalidUrl);
    hide IsUrlState;
  }

  ghost predicate Ends(tail: string) { exists major: nat, minor: nat :: Ending(tail, major, minor) }

  /** The rest of a line behind the target. */
  lemma EndingExact(cfg: Config, n: Machine, tail: string)
    requires AtUrlEnd(n) && H.IsReason(tail) && (tail != "" ==> tail[0] == ' ')
    ensures forall major: nat, minor: nat :: MayEnd(n.f.state) && Ending(tail, major, minor) ==>
        Reads(cfg, n, tail + "\r\n", Ended(n, major, minor, |tail| + 2))
    ensures !MayEnd(n.f.state) || !Ends(tail) ==> Fold(cfg, n, tail + "\r\n", 0).end.Failed?
  {
    hide Fold, Reads, IsUrlState, MayEnd, IsVersion, Ended, Blanks, AtUrlEnd;
    if tail == "" {
      assert Ending(tail, 0, 9) && tail + "\r\n" == "\r\n";
      EndingNone(cfg, n);
    } else {
      var rest := tail[1..];
      var i := BlankRun(rest);
      var (b, v) := (rest[..i], rest[i..]);
      assert tail == " " + b + v && tail + "\r\n" == " " + b + v + "\r\n";
      assert forall c :: c in v ==> c in tail;
      if MayEnd(n.f.state) { EndingVersion(cfg, n, b, v); } else { EndingRefused(cfg, n, tail + "\r\n"); }
      EndingOnly(tail, b, v);
      hide Ending, Ends;
    }
  }

  /** The only ending that a tail may be. */
  lemma EndingOnly(tail: string, b: string, v: string)
    requires Blanks(b) && tail == " " + b + v && (v != "" ==> v[0] != ' ')
    ensures forall major: nat, minor: nat ::
        Ending(tail, major, minor) <==> IsVersion(v) && major == NumberAt(v, 5) && minor == NumberAt(v, 7)
    ensures Ends(tail) <==> IsVersion(v)
  {
    hide IsVersion, Blanks, NumberAt;
    var rest := b + v;
    assert rest[|b|..] == v && rest[..|b|] == b && " " + rest == tail;
    if IsVersion(v) { assert Versioned(tail, b, v) && Ending(tail, NumberAt(v, 5), NumberAt(v, 7)); }
    forall b2, v2 | Versioned(tail, b2, v2) ensures v2 == v { VersionedOnce(rest, |b|, b2, v2); }
  }

  lemma VersionedOnce(rest: string, i: nat, b: string, v: string)
    requires i <= |rest| && Blanks(rest[..i]) && (i < |rest| ==> rest[i] != ' ')
    requires Blanks(b) && IsVersion(v) && " " + rest == " " + b + v
    ensures rest[i..] == v
  {
    assert (" " + rest)[1..] == rest && (" " + b + v)[1..] == b + v;
    assert VersionChar(0, v[0]);
    BlanksEnd(b, v, i);
    hide VersionChar, Blanks;
  }

  // ----- the whole line -----

  /** The machine behind a line: its method, its version and its target are read. */
  function BehindLine(m: Machine, verb: nat, t: string, major: nat, minor: nat, used: nat): Machine {
    Machine(Fresh(m.f).(state := HeaderFieldStart, index := |MethodString(verb)| + 1,
        m := Fresh(m.f).m.(verb := verb, major := major, minor := minor)),
      m.nread + used, m.log + [Note(MessageBegin), Data(Url, t)])
  }

  lemma ReasonParts(x: string, a: string, b: string)
    requires H.IsReason(x) && x == a + b
    ensures H.IsReason(a) && H.IsReason(b)
  {
    assert forall c :: c in a ==> c in x;
    assert forall c :: c in b ==> c in x;
  }

  lemma UrlBytes(t: string)
    requires H.IsReason(t) && ' ' !in t
    ensures forall c :: c in t ==> UrlByte(c)
  {
  }

  /** Words as they follow each other in a line. */
  predicate Words(w: string, b: string, t: string, tail: string) {
    && w != "" && ' ' !in w && Blanks(b) && t != "" && ' ' !in t && (tail != "" ==> tail[0] == ' ')
    && H.IsReason(w) && H.IsReason(t) && H.IsReason(tail)
  }

  function Targeted(m: Machine, t: string): Machine { Machine(m.f, m.nread, Emit(m.log, Data(Url, t))) }

  /** Behind the method and its blank. */
  lemma RestExact(cfg: Config, m: Machine, w: string, b: string, t: string, tail: string)
    requires m.f.state.ReqSpacesBeforeUrl? && Words(w, b, t, tail)
    ensures var (x, target) := (b + t + tail + "\r\n", Target(t, m.f.m.verb == CONNECT));
            && (forall major: nat, minor: nat :: target && Ending(tail, major, minor) ==>
              Reads(cfg, m, x, Ended(Targeted(m, t), major, minor, |x|)))
            && (!target || !Ends(tail) ==> Fold(cfg, m, x, 0).end.Failed?)
  {
    hide Fold, Reads, IsUrlState, MayEnd, Blanks, Ending, Ends, Target, UrlAfter, UrlByte, Emit;
    var p := m.(nread := m.nread + |b|);
    ReadBlanks(cfg, m, b);
    UrlBytes(t);
    ReadUrl(cfg, p, t);
    TargetExact(t, m.f.m.verb == CONNECT);
    var (x, rest) := (b + t + tail + "\r\n", tail + "\r\n");
    assert x == b + (t + rest);
    RefusedBehind(cfg, m, b, p, t + rest);
    if UrlAfter(FirstState(m.f), t).Dead? {
      MoreRefused(cfg, p, t, rest);
      DeadEnds();
    } else {
      var n := InUrl(p, t);
      EmitLast(p.log, t);
      EndingExact(cfg, n, tail);
      RefusedBehind(cfg, p, t, n, rest);
      forall major: nat, minor: nat | MayEnd(n.f.state) && Ending(tail, major, minor)
        ensures Reads(cfg, m, x, Ended(Targeted(m, t), major, minor, |x|))
      {
        var e := Ended(n, major, minor, |rest|);
        ReadThen(cfg, p, t, n, rest, e);
        ReadThen(cfg, m, b, p, t + rest, e);
        assert e == Ended(Targeted(m, t), major, minor, |x|);
      }
    }
  }

  lemma DeadEnds()
    ensures !MayEnd(Dead)
  {
  }

  lemma EmitLast(log: seq<Event>, t: string)
    ensures LastIs(Emit(log, Data(Url, t)), Url)
  {
  }

  lemma EmitNote(log: seq<Event>, t: string)
    ensures Emit(log + [Note(MessageBegin)], Data(Url, t)) == log + [Note(MessageBegin), Data(Url, t)]
  {
  }

  /** The method, its blank, and the rest. */
  lemma WordsExact(cfg: Config, m: Machine, w: string, b: string, t: string, tail: string)
    requires m.f.state.StartReq? && Words(w, b, t, tail)
    ensures var x := w + " " + b + t + tail + "\r\n";
            && (forall v: nat, major: nat, minor: nat ::
              v < METHODS && w == MethodString(v) && Target(t, v == CONNECT) && Ending(tail, major, minor) ==>
                Reads(cfg, m, x, BehindLine(m, v, t, major, minor, |x|)))
            && (!Ends(tail) || (forall v: nat :: v < METHODS && w == MethodString(v) ==> !Target(t, v == CONNECT)) ==>
              Fold(cfg, m, x, 0).end.Failed?)
  {
    hide Fold, Reads, Blanks, Ending, Ends, Target, Emit, MethodString, Fresh;
    assert w[0] in w;
    MethodExact(cfg, m, w);
    var rest := b + t + tail + "\r\n";
    var x := w + " " + b + t + tail + "\r\n";
    assert x == w + " " + rest;
    if v: nat :| v < METHODS && w == MethodString(v) {
      var n := Behind(m, v);
      RestExact(cfg, n, w, b, t, tail);
      RefusedBehind(cfg, m, w + " ", n, rest);
      forall u: nat | u < METHODS && w == MethodString(u) ensures u == v { WordExact(w, u); WordExact(w, v); }
      forall major: nat, minor: nat | Target(t, v == CONNECT) && Ending(tail, major, minor)
        ensures Reads(cfg, m, x, BehindLine(m, v, t, major, minor, |x|))
      {
        var e := Ended(Targeted(n, t), major, minor, |rest|);
        ReadThen(cfg, m, w + " ", n, rest, e);
        EmitNote(m.log, t);
        assert e == BehindLine(m, v, t, major, minor, |x|);
      }
    } else {
      MoreRefused(cfg, m, w + " ", rest);
    }
  }

  lemma TargetBytes(t: string, connect: bool)
    requires Target(t, connect)
    ensures ' ' !in t
  {
    TargetSome(t, connect);
    hide Target, UrlAfter;
    TargetExact(t, connect);
    var s := if connect then ReqServerStart else ReqSpacesBeforeUrl;
    if i :| 0 <= i < |t| && t[i] == ' ' {
      UrlAfterMore(s, t[..i], [' '] + t[i + 1..]);
      UrlAfterMore(UrlAfter(s, t[..i]), [' '], t[i + 1..]);
      assert t == t[..i] + ([' '] + t[i + 1..]);
      BlankDead(UrlAfter(s, t[..i]));
      GoesIs(Dead, t[i + 1..]);
      DeadEnds();
    }
  }

  lemma BlankDead(s: State)
    ensures UrlAfter(s, [' ']).Dead?
  {
    assert [' '][1..] == "";
  }

  /** The words of a line are those that a cut at the blanks finds. */
  lemma LineWords(x: string, verb: nat, b: string, t: string, tail: string, major: nat, minor: nat)
    requires H.IsReason(x) && Line(x, verb, b, t, tail, major, minor)
    ensures Words(MethodString(verb), b, t, tail)
  {
    hide Target, MethodString, H.IsReason, IsVersion, Blanks;
    var w := MethodString(verb);
    HeldAtEnd(verb);
    WordBlank(verb);
    ReasonParts(x, w + " " + b + t, tail);
    ReasonParts(w + " " + b + t, w + " " + b, t);
    ReasonParts(w + " " + b, w + " ", b);
    ReasonParts(w + " ", w, " ");
    TargetBytes(t, verb == CONNECT);
    TargetSome(t, verb == CONNECT);
  }

  lemma TargetSome(t: string, connect: bool)
    requires Target(t, connect)
    ensures t != ""
  {
  }

  lemma WordBlank(verb: nat)
    ensures ' ' !in MethodString(verb)
  {
    hide MethodString;
    if i :| 0 <= i < |MethodString(verb)| && MethodString(verb)[i] == ' ' { WordLetters(verb, i); }
  }

  lemma NoTarget(cfg: Config, m: Machine, b: string)
    requires m.f.state.ReqSpacesBeforeUrl? && Blanks(b)
    ensures Fold(cfg, m, b + "\r\n", 0).end.Failed?
  {
    hide Transition, Step, Fold, Reads, ParsingHeader, StartKind, Blanks;
    var p := m.(nread := m.nread + |b|);
    ReadBlanks(cfg, m, b);
    FirstOfTarget(cfg, p.f, '\r');
    StepFail(cfg, p, '\r', InvalidUrl);
    RefuseAfter(cfg, m, b, p, '\r', "\n", InvalidUrl);
    assert b + ['\r'] + "\n" == b + "\r\n";
  }

  lemma NoWord(cfg: Config, m: Machine, x: string)
    requires m.f.state.StartReq? && x != "" && x[0] == ' '
    ensures Fold(cfg, m, x, 0).end.Failed?
  {
    StartTransition(cfg, m.f, ' ');
    hide Transition, Step, Fold;
    StepFail(cfg, m, ' ', InvalidMethod);
    RefusedAt(cfg, m, x, InvalidMethod);
  }

  /** A method with nothing but blanks behind it. */
  lemma NoRest(cfg: Config, m: Machine, w: string, b: string)
    requires m.f.state.StartReq? && H.IsReason(w) && w != "" && ' ' !in w && Blanks(b)
    ensures Fold(cfg, m, w + " " + b + "\r\n", 0).end.Failed?
  {
    hide Fold, Reads, Blanks, MethodString, Fresh, Behind;
    assert w[0] in w;
    MethodExact(cfg, m, w);
    assert w + " " + b + "\r\n" == w + " " + (b + "\r\n");
    if v: nat :| v < METHODS && w == MethodString(v) {
      NoTarget(cfg, Behind(m, v), b) by { BehindState(m, v); }
      RefusedBehind(cfg, m, w + " ", Behind(m, v), b + "\r\n");
    } else {
      MoreRefused(cfg, m, w + " ", b + "\r\n");
    }
  }

  /** The words are those of no line. */
  lemma NoWords(cfg: Config, m: Machine, x: string, w: string, b: string, t: string, tail: string)
    requires m.f.state.StartReq? && Words(w, b, t, tail) && x == w + " " + b + t + tail && !IsLine(x)
    ensures Fold(cfg, m, x + "\r\n", 0).end.Failed?
  {
    hide Fold, Reads, Ending, Target, MethodString, Fresh, H.IsReason;
    WordsExact(cfg, m, w, b, t, tail);
    if Ends(tail) {
      var major: nat, minor: nat :| Ending(tail, major, minor);
      assert forall v: nat :: v < METHODS && w == MethodString(v) && Target(t, v == CONNECT) ==>
          Line(x, v, b, t, tail, major, minor);
    }
  }

  lemma NoBlank(cfg: Config, m: Machine, x: string)
    requires m.f.state.StartReq? && x != "" && H.IsReason(x) && ' ' !in x
    ensures Fold(cfg, m, x + "\r\n", 0).end.Failed?
  {
    hide Fold, Reads, Behind, MethodString;
    assert x[0] in x;
    MethodExact(cfg, m, x);
    MoreRefused(cfg, m, x + "\r", "\n");
    assert x + "\r" + "\n" == x + "\r\n";
  }

  /** A text that is no request line is refused. */
  lemma NoLine(cfg: Config, m: Machine, x: string)
    requires m.f.state.StartReq? && x != "" && H.IsReason(x) && !IsLine(x)
    ensures Fold(cfg, m, x + "\r\n", 0).end.Failed?
  {
    hide Fold, Blanks, IsLine, H.IsReason;
    var i := WordRun(x);
    if i == 0 {
      NoWord(cfg, m, x + "\r\n");
    } else if i == |x| {
      assert x[..i] == x;
      NoBlank(cfg, m, x);
    } else {
      var (w, y) := (x[..i], x[i + 1..]);
      var j := BlankRun(y);
      var (b, z) := (y[..j], y[j..]);
      assert x == w + " " + b + z;
      ReasonParts(x, w + " " + b, z);
      ReasonParts(w + " " + b, w, " " + b) by { assert w + " " + b == w + (" " + b); }
      if z == "" {
        NoRest(cfg, m, w, b);
        assert x == w + " " + b;
      } else {
        var k := WordRun(z);
        ReasonParts(z, z[..k], z[k..]);
        assert x == w + " " + b + z[..k] + z[k..];
        NoWords(cfg, m, x, w, b, z[..k], z[k..]);
      }
    }
  }

  lemma BehindState(m: Machine, v: nat)
    ensures Behind(m, v).f.state.ReqSpacesBeforeUrl?
  {
  }

  /** A text is accepted as a request line if and only if it is a method, a blank or more, a target, and nothing
      or a blank or more and a version; and then the parser holds this method and this version, and has
      made one callback for the begin of a message and one for this target. */
  lemma LineExact(cfg: Config, m: Machine, x: string)
    requires m.f.state.StartReq? && x != "" && H.IsReason(x)
    ensures !Fold(cfg, m, x + "\r\n", 0).end.Failed? <==> IsLine(x)
    ensures forall verb, b, t, tail, major, minor :: Line(x, verb, b, t, tail, major, minor) ==>
        Reads(cfg, m, x + "\r\n", BehindLine(m, verb, t, major, minor, |x| + 2))
  {
    hide Fold, Reads, Line, BehindLine;
    if !IsLine(x) { NoLine(cfg, m, x); }
    forall verb, b, t, tail, major, minor | Line(x, verb, b, t, tail, major, minor)
      ensures Reads(cfg, m, x + "\r\n", BehindLine(m, verb, t, major, minor, |x| + 2))
    {
      LineGiven(cfg, m, x, verb, b, t, tail, major, minor);
    }
    if verb, b, t, tail, major, minor :| Line(x, verb, b, t, tail, major, minor) {
      ReadsIs(cfg, m, x + "\r\n", BehindLine(m, verb, t, major, minor, |x| + 2));
    }
  }

  lemma LineGiven(cfg: Config, m: Machine, x: string, verb: nat, b: string, t: string, tail: string, major: nat,
      minor: nat)
    requires m.f.state.StartReq? && H.IsReason(x) && Line(x, verb, b, t, tail, major, minor)
    ensures Reads(cfg, m, x + "\r\n", BehindLine(m, verb, t, major, minor, |x| + 2))
  {
    hide Fold, Reads, Words, Ending, Target, MethodString, BehindLine, H.IsReason;
    LineWords(x, verb, b, t, tail, major, minor);
    WordsExact(cfg, m, MethodString(verb), b, t, tail);
  }
}
