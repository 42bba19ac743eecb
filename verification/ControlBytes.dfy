/** Texts on which the parser depends on how they are cut into calls: a control byte in a header value,
    from its third byte on. */
module ControlBytes {
  import opened Chars
  import opened Numbers
  import opened ParserState
  import opened ByteTransition
  import opened StepMachine
  import opened ParserInvariant
  import opened LogInvariant
  import opened Runs
  import opened Calls
  import opened Stepping
  import opened Reading
  import opened HeaderName
  import opened Lengths
  import opened HeaderLine
  import opened ResponseHead
  import opened HttpParser
  import B = BackToBack

  // ----- exactly when -----

  /** The bytes of a value that may stand there. */
  predicate AllHeaderChars(v: string) { forall c :: c in v ==> IsHeaderChar(c) }

  predicate OnOneLine(v: string) { forall c :: c in v ==> c != '\r' && c != '\n' }

  /** The single bytes stop at the first control byte of the rest of a value. */
  lemma {:induction false} RestFold(cfg: Config, n: Machine, rest: string)
    requires n.f.state.HeaderValue? && n.f.hstate.General? && LastIs(n.log, Value) && OnOneLine(rest)
    ensures Fold(cfg, n, rest, 0).end
         == if cfg.lenient || AllHeaderChars(rest) then Ran else Failed(InvalidHeaderToken)
    decreases |rest|
  {
    hide Step, Emit, IsHeaderChar;
    if rest != "" {
      var c, more := rest[0], rest[1..];
      assert c in rest && rest == [c] + more && forall d :: d in more ==> d in rest;
      if cfg.lenient || IsHeaderChar(c) {
        var n' := Machine(n.f, n.nread + 1, Emit(n.log, Data(Value, [c])));
        JumpByte(cfg, n, c);
        RestFold(cfg, n', more);
        FoldConcat(cfg, n, [c], more);
        ReadByte(cfg, n, c, n');
        forall d | d in rest && AllHeaderChars(more) ensures IsHeaderChar(d) || cfg.lenient {
          assert d == c || d in more;
        }
      } else {
        UncleanStuck(cfg, n, c);
      }
    }
  }

  /** One call looks at the first byte of the rest. */
  lemma RestCall(cfg: Config, n: Machine, rest: string)
    requires n.f.state.HeaderValue? && n.f.hstate.General? && OnOneLine(rest)
    ensures CallFold(cfg, n, rest, 0).end
         == if rest == "" || cfg.lenient || IsHeaderChar(rest[0]) then Ran else Failed(InvalidHeaderToken)
  {
    hide Step, Emit, IsHeaderChar;
    if rest != "" {
      assert rest[0] in rest;
      if cfg.lenient || IsHeaderChar(rest[0]) {
        forall i | 0 <= i < |rest| ensures rest[i] != '\r' && rest[i] != '\n' { assert rest[i] in rest; }
        LineEndIs(rest, 0, |rest|);
        hide LineEnd;
        assert CallFold(cfg, n, rest, 0) == CallFold(cfg, Skipped(n, rest, 0, |rest|), rest, |rest|);
      } else {
        UncleanStuck(cfg, n, rest[0]);
      }
    }
  }

  lemma FirstByte(cfg: Config, m: Machine, c: char) returns (n: Machine)
    requires m.f.state.HeaderValueDiscardWs? && IsPlainState(m.f.hstate)
    requires c != ' ' && c != '\t' && c != '\r' && c != '\n'
    ensures Step(cfg, m, c) == Went(n, false) && n.f.state.HeaderValue? && n.f.hstate.General? && LastIs(n.log, Value)
  {
    hide Transition, Step, IsPlainState;
    PlainTransition(cfg, m.f, c);
    n := PlainRead(m, [c]);
    Sets(cfg, m, c, n.f, Value);
  }

  /** A plain value, after any text that the parser reads up to it: the cut makes no difference, if and only
      if the parser is lenient, or the value has no second byte, or that one is a control byte, or none is
      from there on. */
  lemma SteadyExact(cfg: Config, m0: Machine, text: string, m: Machine, v: string)
    requires MachineInv(m0) && Reads(cfg, m0, text, m) && m.f.state.HeaderValueDiscardWs? && IsPlainState(m.f.hstate)
    requires OnOneLine(v) && (v != "" ==> v[0] != ' ' && v[0] != '\t')
    ensures Steady(cfg, m0, text + v)
        <==> cfg.lenient || |v| < 2 || !IsHeaderChar(v[1]) || AllHeaderChars(v[1..])
  {
    hide Fold, CallFold, MachineInv, Clean, Fits, CallFits, IsPlainState, IsHeaderChar, Step, LastIs, OnOneLine,
      AllHeaderChars;
    RanClean(cfg, m0, text, 0);
    CallIsFold(cfg, m0, text, 0, 0);
    CallConcat(cfg, m0, text, v);
    FoldConcat(cfg, m0, text, v);
    if v == "" {
      FoldNothing(cfg, m);
    } else {
      ValueEnds(cfg, m, v);
      NothingChars(v);
    }
  }

  lemma NothingChars(v: string)
    ensures |v| == 1 ==> AllHeaderChars(v[1..])
    ensures |v| >= 2 && AllHeaderChars(v[1..]) ==> IsHeaderChar(v[1])
  {
    hide IsHeaderChar;
    if |v| >= 2 { assert v[1] in v[1..]; }
  }

  lemma ValueEnds(cfg: Config, m: Machine, v: string)
    requires m.f.state.HeaderValueDiscardWs? && IsPlainState(m.f.hstate)
    requires OnOneLine(v) && v != "" && v[0] != ' ' && v[0] != '\t'
    ensures Fold(cfg, m, v, 0).end
         == if cfg.lenient || AllHeaderChars(v[1..]) then Ran else Failed(InvalidHeaderToken)
    ensures CallFold(cfg, m, v, 0).end
         == if |v| < 2 || cfg.lenient || IsHeaderChar(v[1]) then Ran else Failed(InvalidHeaderToken)
  {
    hide IsPlainState, IsHeaderChar, Step, LastIs, AllHeaderChars;
    var c, rest := v[0], v[1..];
    assert c in v && v == [c] + rest && forall d :: d in rest ==> d in v;
    var n := FirstByte(cfg, m, c);
    RestFold(cfg, n, rest);
    RestCall(cfg, n, rest);
    ReadByte(cfg, m, c, n);
    FoldConcat(cfg, m, [c], rest);
    CallShift(cfg, n, [c], rest, 0);
    assert CallFold(cfg, m, v, 0) == CallFold(cfg, n, v, 1);
  }

  /** A text that ends in such a byte, after any text that the parser reads up to the value. */
  lemma ControlUnsteady(cfg: Config, m0: Machine, text: string, m: Machine, v: string, c: char)
    requires MachineInv(m0) && Reads(cfg, m0, text, m)
    requires m.f.state.HeaderValueDiscardWs? && IsPlainState(m.f.hstate) && |v| >= 2 && IsValue(cfg, v)
    requires !cfg.lenient && !IsHeaderChar(c)
    ensures !Steady(cfg, m0, text + (v + [c]))
  {
    var y := v + [c];
    ValueChars(cfg, v);
    assert v[1] in v && y[1] == v[1] && y[1..] == v[1..] + [c] && c in y[1..];
    forall d | d in y ensures d != '\r' && d != '\n' { if d in v { NoLineEndIn(cfg, d); } }
    hide Steady, Reads, MachineInv, IsPlainState;
    SteadyExact(cfg, m0, text, m, y);
  }

  /** A response head with a header of any name that frames nothing, from the start: whatever the value,
      as long as the control byte is not one of its first two. */
  lemma HeaderUnsteady(cfg: Config, major: char, minor: char, code: string, reason: string, name: string, v: string,
      c: char)
    requires IsNum(major) && IsNum(minor) && IsCode(code) && IsReason(reason)
    requires IsName(name) && NameState(LowerName(name)).General? && |v| >= 2 && IsValue(cfg, v)
    requires !cfg.lenient && !IsHeaderChar(c)
    ensures !Steady(cfg, B.NEW_CLIENT, StatusLine(major, minor, code, reason) + (name + ":" + (v + [c])))
  {
    hide Fold, Reads, IsNum, IsCode, IsReason, IsName, IsValue, Steady, MachineInv, IsPlainState, LowerName,
      StatusLine, StatusRead,
      IsHeaderChar, NameState;
    var h := Header(name, [], v, []);
    var (line, s) := (StatusLine(major, minor, code, reason), StatusRead(B.NEW_CLIENT, major, minor, code, reason));
    ReadStatusLine(cfg, B.NEW_CLIENT, major, minor, code, reason);
    StatusAt(B.NEW_CLIENT, major, minor, code, reason);
    ReadNameSpace(cfg, s, h);
    NameNonempty(name);
    assert Flat([]) == "" && name + ":" + "" == name + ":";
    var n := Named(s, h);
    ReadThen(cfg, B.NEW_CLIENT, line, s, name + ":", n);
    StartOk();
    ControlUnsteady(cfg, B.NEW_CLIENT, line + (name + ":"), n, v, c);
    assert line + (name + ":") + (v + [c]) == line + (name + ":" + (v + [c]));
  }

  lemma StatusAt(m: Machine, major: char, minor: char, code: string, reason: string)
    requires IsNum(major) && IsNum(minor)
    ensures StatusRead(m, major, minor, code, reason).f.state.HeaderFieldStart?
  {
  }

  lemma StartOk()
    ensures MachineInv(B.NEW_CLIENT)
  {
    InitInv(Response);
  }

  lemma CodeOk()
    ensures IsCode("200")
  {
    LengthParts("", '2');
    LengthParts("2", '0');
    LengthParts("20", '0');
    assert "" + ['2'] == "2" && "2" + ['0'] == "20" && "20" + ['0'] == "200" && Decimal("") == 0;
    hide Decimal;
  }

  /** One such text, written out. */
  lemma ExampleUnsteady()
    ensures !Steady(Config(false, Continue), B.NEW_CLIENT, "HTTP/1.1 200 OK\r\nA:ab\U{1}")
  {
    hide Steady;
    var cfg := Config(false, Continue);
    assert IsName("A") && NameState(LowerName("A")).General? by {
      assert "A"[..0] == "" && LowerName("") == "" && LowerName("A") == "a";
    }
    CodeOk();
    HeaderUnsteady(cfg, '1', '1', "200", "OK", "A", "ab", '\U{1}');
    assert StatusLine('1', '1', "200", "OK") == "HTTP/1.1 200 OK\r\n";
    assert "HTTP/1.1 200 OK\r\n" + ("A" + ":" + ("ab" + ['\U{1}'])) == "HTTP/1.1 200 OK\r\nA:ab\U{1}";
  }

  /** On the object: two new parsers are given such a text, byte by byte and in one call. */
  method CutShows(cfg: Config, text: string) returns (single: HttpParser, whole: HttpParser)
    requires text != "" && !Steady(cfg, B.NEW_CLIENT, text) && 2 * |text| < HTTP_MAX_HEADER_SIZE
    ensures single.errno == InvalidHeaderToken && whole.errno != InvalidHeaderToken
  {
    assert Joined([]) == [];
    hide Steady, Fed, MachineInv, RawOk, Joined;
    single := new HttpParser(Response);
    whole := new HttpParser(Response);
    ghost var a := Parser(B.NEW_CLIENT, 0, Ok);
    var bytes := Singles(text);
    assert single.View() == a && whole.View() == a;
    var ex := FeedAll(cfg, single, bytes);
    var ex' := FeedAll(cfg, whole, [text]);
    CutDiffers(cfg, text, bytes, single.View(), ex, whole.View(), ex');
  }

  lemma CutDiffers(cfg: Config, text: string, bytes: seq<string>, b: Parser, exited: bool, whole: Parser, exited': bool)
    requires !Steady(cfg, B.NEW_CLIENT, text) && 2 * |text| < HTTP_MAX_HEADER_SIZE
    requires |bytes| == |text| && Flat(bytes) == text && forall p :: p in bytes ==> |p| == 1
    requires Fed(cfg, Parser(B.NEW_CLIENT, 0, Ok), bytes, b, exited)
        && Fed(cfg, Parser(B.NEW_CLIENT, 0, Ok), [text], whole, exited')
    ensures b.errno == InvalidHeaderToken && whole.errno != InvalidHeaderToken
  {
    hide Steady, Fed, MachineInv;
    var a := Parser(B.NEW_CLIENT, 0, Ok);
    assert Flat([text]) == text by { assert [text][1..] == [] && text + "" == text && Flat([]) == ""; }
    StartOk();
    ShortFed(cfg, a, bytes, b, exited);
    ShortFed(cfg, a, [text], whole, exited');
    SplitDependence(cfg, a, bytes, b, exited, whole, exited');
  }

  function Singles(text: string): (r: seq<string>)
    ensures |r| == |text| && Flat(r) == text && forall p :: p in r ==> |p| == 1
  {
    if text == "" then [] else
      assert [text[0]] + text[1..] == text;
      [[text[0]]] + Singles(text[1..])
  }
}
