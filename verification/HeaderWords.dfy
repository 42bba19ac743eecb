/** The values of `Transfer-Encoding` and `Connection`: which words in them the parser recognises. */
module HeaderWords {
  import opened Chars
  import opened Numbers
  import opened ParserState
  import opened ByteTransition
  import opened StepMachine
  import opened ParserInvariant
  import opened LogInvariant
  import opened Calls
  import opened Stepping
  import opened Reading
  import opened HeaderName
  import opened Lengths
  import opened HeaderLine

  function LowerText(v: string): (r: string)
    ensures |r| == |v| && forall i :: 0 <= i < |v| ==> r[i] == Lower(v[i])
  {
    if v == "" then "" else LowerText(v[..|v| - 1]) + [Lower(v[|v| - 1])]
  }

  lemma LowerConcat(a: string, b: string)
    ensures LowerText(a + b) == LowerText(a) + LowerText(b)
  {
    hide Lower;
  }

  predicate Blank(v: string) { forall c :: c in v ==> c == ' ' }

  // ----- reading a value -----

  /** States of the matchers that no byte of a value makes fail. */
  predicate IsWordState(h: HeaderState) {
    || h.General? || h.MatchingTransferEncodingChunked? || h.TransferEncodingChunked? || h.MatchingConnectionTokenStart?
    || h.MatchingConnectionToken? || h.MatchingConnectionKeepAlive? || h.MatchingConnectionClose?
      || h.MatchingConnectionUpgrade?
    || IsConnectionWord(h)
  }

  /** One more byte of a value. */
  function ValueNext(f: Fields, c: char): Fields {
    if f.hstate.General? then f
    else if IsConnectionWord(f.hstate) then AfterConnectionWord(f, c)
    else var (i, h) := ValueMatch(f.hstate, f.index, c); f.(index := i, hstate := h)
  }

  /** The fields after more bytes of a value. */
  function ValueRun(f: Fields, v: string): Fields
    decreases |v|
  {
    if v == "" then f else ValueNext(ValueRun(f, v[..|v| - 1]), v[|v| - 1])
  }

  /** The fields after the first byte of a value. */
  function ValueFirst(f: Fields, c: char): Fields {
    match f.hstate
    case TransferEncoding => ValueAt(f, if Lower(c) == 'c' then MatchingTransferEncodingChunked else General)
    case _ => ValueAt(f, ConnectionWord(Lower(c), MatchingConnectionToken))
  }

  lemma WordTransition(cfg: Config, f: Fields, c: char)
    requires IsValueChar(cfg, c)
    ensures f.state.HeaderValueDiscardWs? && (f.hstate.TransferEncoding? || f.hstate.Connection?)
            && c != ' ' && c != '\t' ==>
              Transition(cfg, f, c) == Do(ValueFirst(f, c), [Mark(Value)])
    ensures f.state.HeaderValue? && IsWordState(f.hstate) ==> Transition(cfg, f, c) == Do(ValueNext(f, c), [])
  {
    hide Lower, AfterConnectionWord, ConnectionWord, ValueMatch, IsHeaderChar;
  }

  lemma ValueNextState(f: Fields, c: char)
    requires IsWordState(f.hstate)
    ensures var g := ValueNext(f, c);
            IsWordState(g.hstate) && g.state == f.state
              && g == f.(index := g.index, hstate := g.hstate, m := f.m.(flags := g.m.flags))
  {
    hide Lower, IsToken, MatchAt;
  }

  lemma ValueFirstState(f: Fields, c: char)
    ensures IsWordState(ValueFirst(f, c).hstate) && ValueFirst(f, c).state.HeaderValue?
  {
    hide Lower;
  }

  lemma {:induction false} ValueRunState(f: Fields, v: string)
    requires IsWordState(f.hstate)
    ensures var g := ValueRun(f, v); IsWordState(g.hstate) && g.state == f.state
    ensures var g := ValueRun(f, v); g == f.(index := g.index, hstate := g.hstate, m := f.m.(flags := g.m.flags))
    decreases |v|
  {
    hide IsWordState, ValueNext;
    if v != "" {
      ValueRunState(f, v[..|v| - 1]);
      ValueNextState(ValueRun(f, v[..|v| - 1]), v[|v| - 1]);
    }
  }

  lemma ValueRunMore(f: Fields, v: string, c: char)
    ensures ValueRun(f, v + [c]) == ValueNext(ValueRun(f, v), c)
  {
    assert (v + [c])[..|v|] == v;
  }

  lemma {:induction false} ValueRunConcat(f: Fields, a: string, b: string)
    ensures ValueRun(f, a + b) == ValueRun(ValueRun(f, a), b)
    decreases |b|
  {
    hide ValueNext;
    if b == "" {
      assert a + b == a;
    } else {
      var init := b[..|b| - 1];
      assert (a + b)[..|a + b| - 1] == a + init;
      ValueRunConcat(f, a, init);
    }
  }

  /** The machine after a value. */
  function ValueRead(m: Machine, v: string): Machine
    requires v != ""
  {
    Machine(ValueRun(ValueFirst(m.f, v[0]), v[1..]), m.nread + |v|, Emit(m.log, Data(Value, v)))
  }

  lemma ValueReadMore(m: Machine, init: string, c: char)
    requires init != ""
    ensures var (n, o) := (ValueRead(m, init), ValueRead(m, init + [c]));
            && n.f.state.HeaderValue? && IsWordState(n.f.hstate)
            && o == Machine(ValueNext(n.f, c), n.nread + 1, Emit(n.log, Data(Value, [c])))
  {
    var v := init + [c];
    assert v[0] == init[0] && v[1..] == init[1..] + [c];
    hide Emit, IsWordState, ValueNext, ValueFirst, ValueRun;
    ValueFirstState(m.f, v[0]);
    ValueRunState(ValueFirst(m.f, v[0]), init[1..]);
    ValueRunMore(ValueFirst(m.f, v[0]), init[1..], c);
    Grow(m.log, Value, init, c);
  }

  lemma ReadValueByte(cfg: Config, m: Machine, init: string, c: char)
    requires IsValueChar(cfg, c) && init != "" && Reads(cfg, m, init, ValueRead(m, init))
    ensures Reads(cfg, m, init + [c], ValueRead(m, init + [c]))
  {
    hide Transition, Fold, Step, Emit, Reads, IsValueChar, ValueNext, IsWordState, ValueRead;
    var n := ValueRead(m, init);
    ValueReadMore(m, init, c);
    WordTransition(cfg, n.f, c);
    Quiet(cfg, n, c, ValueNext(n.f, c));
    ReadBytes(cfg, m, init, n, c, ValueRead(m, init + [c]));
  }

  lemma ReadValueFirst(cfg: Config, m: Machine, c: char)
    requires m.f.state.HeaderValueDiscardWs? && (m.f.hstate.TransferEncoding? || m.f.hstate.Connection?)
    requires IsValueChar(cfg, c) && c != ' ' && c != '\t'
    ensures Reads(cfg, m, [c], ValueRead(m, [c]))
  {
    hide Transition, Fold, Step, Emit, Reads, IsValueChar, ValueFirst;
    assert [c][1..] == "" && ValueRead(m, [c]).f == ValueFirst(m.f, c);
    WordTransition(cfg, m.f, c);
    Sets(cfg, m, c, ValueFirst(m.f, c), Value);
    ReadByte(cfg, m, c, ValueRead(m, [c]));
  }

  /** Any value of the two headers is read. */
  lemma {:induction false} ReadValue(cfg: Config, m: Machine, v: string)
    requires m.f.state.HeaderValueDiscardWs? && (m.f.hstate.TransferEncoding? || m.f.hstate.Connection?)
    requires v != "" && v[0] != ' ' && v[0] != '\t' && forall c :: c in v ==> IsValueChar(cfg, c)
    ensures Reads(cfg, m, v, ValueRead(m, v))
    decreases |v|
  {
    hide Reads, IsValueChar, ValueRead;
    var c, init := v[|v| - 1], v[..|v| - 1];
    assert v == init + [c] && c in v && forall d :: d in init ==> d in v;
    if init == "" {
      assert v == [c];
      ReadValueFirst(cfg, m, c);
    } else {
      ReadValue(cfg, m, init);
      ReadValueByte(cfg, m, init, c);
    }
  }

  // ----- Transfer-Encoding -----

  const CHUNKED := "chunked"

  /** "chunked" in any case, with spaces behind it. */
  predicate IsChunked(v: string) { |v| >= 7 && LowerText(v[..7]) == CHUNKED && Blank(v[7..]) }

  /** The matcher after the value so far. */
  predicate EncodingMatched(v: string, h: HeaderState, i: nat) {
    match h
    case MatchingTransferEncodingChunked => |v| == i + 1 < 7 && LowerText(v) == CHUNKED[..|v|]
    case TransferEncodingChunked => IsChunked(v)
    case General => !IsChunked(v) && !(|v| < 7 && LowerText(v) == CHUNKED[..|v|])
    case _ => false
  }

  lemma ChunkedFirst(c: char)
    ensures EncodingMatched([c], if Lower(c) == 'c' then MatchingTransferEncodingChunked else General, 0)
  {
    assert [c] == "" + [c];
    LowerConcat("", [c]);
    assert LowerText([c]) == [Lower(c)] && CHUNKED[..1] == "c";
    hide Lower;
  }

  lemma EncodingStep(v: string, h: HeaderState, i: nat, c: char)
    requires EncodingMatched(v, h, i) && v != ""
    ensures var (i', h') := if h.General? then (i, h) else ValueMatch(h, i, c); EncodingMatched(v + [c], h', i')
  {
    var w := v + [c];
    hide Lower;
    assert LowerText(w) == LowerText(v) + [Lower(c)] by { LowerConcat(v, [c]); assert LowerText([c]) == [Lower(c)]; }
    hide LowerText;
    if |v| < 7 {
      PrefixNext(LowerText(v), Lower(c));
      if |w| == 7 { assert w[..7] == w && w[7..] == ""; }
    } else {
      assert w[..7] == v[..7] && w[7..] == v[7..] + [c];
      BlankMore(v[7..], c);
    }
  }

  lemma PrefixNext(t: string, c: char)
    requires |t| < 7
    ensures t + [c] == CHUNKED[..|t| + 1] <==> t == CHUNKED[..|t|] && c == CHUNKED[|t|]
  {
    var s := t + [c];
    assert s[..|t|] == t && s[|t|] == c;
    assert CHUNKED[..|t| + 1][..|t|] == CHUNKED[..|t|] && CHUNKED[..|t| + 1][|t|] == CHUNKED[|t|];
  }

  lemma BlankMore(v: string, c: char)
    ensures Blank(v + [c]) <==> Blank(v) && c == ' '
  {
    assert c in v + [c] && forall d :: d in v ==> d in v + [c];
  }

  lemma {:induction false} EncodingRun(f: Fields, v: string)
    requires v != "" && f.hstate.TransferEncoding?
    ensures var g := ValueRun(ValueFirst(f, v[0]), v[1..]);
            EncodingMatched(v, g.hstate, g.index) && g == f.(state := HeaderValue, index := g.index, hstate := g.hstate)
    decreases |v|
  {
    hide EncodingMatched, ValueMatch, Lower, ValueRun, ValueNext, ValueFirst;
    var c, init := v[|v| - 1], v[..|v| - 1];
    assert v == init + [c];
    if init == "" {
      assert v == [c] && v[1..] == "";
      ChunkedFirst(c);
      FirstEncoding(f, c);
    } else {
      assert v[0] == init[0] && v[1..] == init[1..] + [c];
      EncodingRun(f, init);
      var g := ValueRun(ValueFirst(f, init[0]), init[1..]);
      ValueRunMore(ValueFirst(f, init[0]), init[1..], c);
      EncodingStep(init, g.hstate, g.index, c);
      EncodingState(init, g.hstate, g.index);
      NextEncoding(g, c);
    }
  }

  lemma FirstEncoding(f: Fields, c: char)
    requires f.hstate.TransferEncoding?
    ensures ValueRun(ValueFirst(f, c), "")
         == f.(state := HeaderValue, index := 0,
               hstate := if Lower(c) == 'c' then MatchingTransferEncodingChunked else General)
  {
    hide Lower;
  }

  lemma NextEncoding(g: Fields, c: char)
    requires g.hstate.General? || g.hstate.MatchingTransferEncodingChunked? || g.hstate.TransferEncodingChunked?
    ensures var (i, h) := if g.hstate.General? then (g.index, g.hstate) else ValueMatch(g.hstate, g.index, c);
            ValueNext(g, c) == g.(index := i, hstate := h)
  {
    hide ValueMatch;
  }

  lemma EncodingState(v: string, h: HeaderState, i: nat)
    requires EncodingMatched(v, h, i)
    ensures h.General? || h.MatchingTransferEncodingChunked? || h.TransferEncodingChunked?
    ensures h.TransferEncodingChunked? <==> IsChunked(v)
  {
  }

  /** The value of `Transfer-Encoding` sets the flag at the end of its line if and only if it is "chunked" in
      any case, with nothing but spaces behind it. */
  lemma ReadEncoding(cfg: Config, m: Machine, v: string)
    requires m.f.state.HeaderValueDiscardWs? && m.f.hstate.TransferEncoding?
    requires v != "" && v[0] != ' ' && v[0] != '\t' && forall c :: c in v ==> IsValueChar(cfg, c)
    ensures var n := ValueRead(m, v);
            && Reads(cfg, m, v, n) && n.f == m.f.(state := HeaderValue, index := n.f.index, hstate := n.f.hstate)
            && EndOfLine(n.f).m == if IsChunked(v) then m.f.m.(flags := m.f.m.flags.(chunked := true)) else m.f.m
  {
    hide Reads, IsValueChar, Emit, ValueRun, ValueFirst, EncodingMatched, IsChunked;
    ReadValue(cfg, m, v);
    EncodingRun(m.f, v);
    var n := ValueRead(m, v);
    EncodingState(v, n.f.hstate, n.f.index);
  }
}
