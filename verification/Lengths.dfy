/** Which `Content-Length` values and chunk sizes the parser accepts, and what it stores. */
module Lengths {
  import opened Chars
  import opened Numbers
  import opened ParserState
  import opened ByteTransition
  import opened StepMachine
  import opened ParserInvariant
  import opened LogInvariant
  import opened Calls
  import opened Stepping
  import opened Reading

  predicate IsLength(v: string) { v != "" && IsNum(v[0]) && forall c :: c in v ==> IsNum(c) || c == ' ' }

  /** What the parser accepts: digits, with spaces after the first, of a number that the 64-bit
      test lets through. */
  predicate GoodLength(v: string) { IsLength(v) && Decimal(v) <= MAX_CONTENT_LENGTH }

  function LengthFields(f: Fields, v: string): Fields {
    f.(state := HeaderValue, index := 0, hstate := ContentLength, length := Decimal(v),
       m := f.m.(flags := f.m.flags.(contentLength := true)))
  }

  function LengthRead(m: Machine, v: string): Machine {
    Machine(LengthFields(m.f, v), m.nread + |v|, Emit(m.log, Data(Value, v)))
  }

  predicate IsValueChar(cfg: Config, c: char) { c != '\r' && c != '\n' && (cfg.lenient || IsHeaderChar(c)) }

  lemma LengthTransition(cfg: Config, f: Fields, c: char)
    requires f.hstate.ContentLength?
    ensures f.state.HeaderValue? && IsValueChar(cfg, c) ==>
              Transition(cfg, f, c) == if c == ' ' then Do(f, []) else LengthDigit(f, c)
    ensures f.state.HeaderValueDiscardWs? && !f.m.flags.contentLength && c != '\r' && c != '\n'
            && c != ' ' && c != '\t' ==>
              Transition(cfg, f, c)
                == if IsNum(c) then Do(LengthFields(f, [c]), [Mark(Value)]) else Fail(InvalidContentLength)
  {
    assert Decimal([c]) == if IsNum(c) then Digit(c) else 0 by { LengthParts("", c); assert "" + [c] == [c]; }
    hide LengthDigit, Decimal;
  }

  lemma LengthParts(init: string, c: char)
    ensures Decimal(init + [c]) == if IsNum(c) then Decimal(init) * 10 + Digit(c) else Decimal(init)
    ensures init != "" ==> (IsLength(init + [c]) <==> IsLength(init) && (IsNum(c) || c == ' '))
    ensures IsLength([c]) <==> IsNum(c)
  {
    DecimalParts(init, c);
    var v := init + [c];
    assert c in v;
    if IsLength(init) && (IsNum(c) || c == ' ') { forall d | d in v ensures IsNum(d) || d == ' ' {} }
    if IsLength(v) { forall d | d in init ensures IsNum(d) || d == ' ' { assert d in v; } }
  }

  lemma LengthGo(cfg: Config, m: Machine, init: string, c: char)
    requires m.f.state.HeaderValueDiscardWs? && IsValueChar(cfg, c) && init != ""
    requires Reads(cfg, m, init, LengthRead(m, init)) && Decimal(init) <= MAX_CONTENT_LENGTH
    ensures if (c == ' ' || IsNum(c)) && Decimal(init + [c]) <= MAX_CONTENT_LENGTH
            then Reads(cfg, m, init + [c], LengthRead(m, init + [c]))
            else Refuses(cfg, m, init + [c], InvalidContentLength)
  {
    hide Transition, Fold, Step, Emit, IsValueChar, Decimal, Reads, Refuses;
    var n, v := LengthRead(m, init), init + [c];
    LengthTransition(cfg, n.f, c);
    NextLength(m.f, init, c);
    if (c == ' ' || IsNum(c)) && Decimal(v) <= MAX_CONTENT_LENGTH {
      Grow(m.log, Value, init, c);
      Quiet(cfg, n, c, LengthFields(m.f, v));
      ReadBytes(cfg, m, init, n, c, LengthRead(m, v));
    } else {
      StepFail(cfg, n, c, InvalidContentLength);
      RefuseAfter(cfg, m, init, n, c, "", InvalidContentLength);
      assert v + "" == v;
    }
  }

  /** One more byte of a length. */
  lemma NextLength(f: Fields, init: string, c: char)
    requires Decimal(init) <= MAX_CONTENT_LENGTH
    ensures var (g, v) := (LengthFields(f, init), init + [c]);
            (if c == ' ' then Do(g, []) else LengthDigit(g, c))
            == if (c == ' ' || IsNum(c)) && Decimal(v) <= MAX_CONTENT_LENGTH then Do(LengthFields(f, v), [])
               else Fail(InvalidContentLength)
  {
    assert !IsNum(' ');
    LengthDigitExact(LengthFields(f, init), c);
    LengthParts(init, c);
    hide Decimal, IsLength;
  }

  lemma LengthStart(cfg: Config, m: Machine, c: char)
    requires m.f.state.HeaderValueDiscardWs? && m.f.hstate.ContentLength? && !m.f.m.flags.contentLength
    requires c != '\r' && c != '\n' && c != ' ' && c != '\t'
    ensures if IsNum(c) then Reads(cfg, m, [c], LengthRead(m, [c])) else Refuses(cfg, m, [c], InvalidContentLength)
  {
    hide Transition, Fold, Step, Emit;
    LengthTransition(cfg, m.f, c);
    if IsNum(c) {
      Sets(cfg, m, c, LengthFields(m.f, [c]), Value);
      ReadByte(cfg, m, c, LengthRead(m, [c]));
    } else {
      StepFail(cfg, m, c, InvalidContentLength);
      ReadNothing(cfg, m);
      RefuseAfter(cfg, m, "", m, c, "", InvalidContentLength);
      assert "" + [c] + "" == [c];
    }
  }

  lemma OneDigit(c: char)
    ensures Decimal([c]) <= 9
  {
    assert [c][..0] == "";
    assert Decimal([c][..0]) == 0;
  }

  /** A first `Content-Length` is accepted if and only if it is good, and then the stored length
      is exactly its value: the 64-bit arithmetic never wraps, and the value that stands for "no
      length" is never reached. */
  lemma {:induction false} ReadLength(cfg: Config, m: Machine, v: string)
    requires m.f.state.HeaderValueDiscardWs? && m.f.hstate.ContentLength? && !m.f.m.flags.contentLength
    requires v != "" && v[0] != ' ' && v[0] != '\t' && forall c :: c in v ==> IsValueChar(cfg, c)
    ensures if GoodLength(v) then Reads(cfg, m, v, LengthRead(m, v)) && Decimal(v) < ULLONG_MAX
            else Refuses(cfg, m, v, InvalidContentLength)
  {
    hide Transition, Fold, Step, Emit, LengthRead, Reads, Refuses, Decimal, IsLength, IsNum, IsHeaderChar;
    var c, init := v[|v| - 1], v[..|v| - 1];
    assert v == init + [c] && c in v;
    LengthParts(init, c);
    if init == "" {
      assert v == [c];
      LengthStart(cfg, m, c);
      OneDigit(c);
    } else {
      forall d | d in init ensures IsValueChar(cfg, d) { assert d in v; }
      ReadLength(cfg, m, init);
      if GoodLength(init) {
        LengthGo(cfg, m, init, c);
      } else {
        RefuseMore(cfg, m, init, [c], InvalidContentLength);
        assert !GoodLength(v);
      }
    }
  }

  // ----- chunk sizes -----

  /** The number written by the hexadecimal digits of `s`, among which the bytes beyond ASCII count as
      the digit 0. */
  function Hex(s: string): nat {
    if s == "" then 0
    else
      var c, n := s[|s| - 1], Hex(s[..|s| - 1]);
      if Unhex(c) == -1 then n else n * 16 + Unhex(c)
  }

  predicate IsSize(s: string) { s != "" && forall c :: c in s ==> Unhex(c) != -1 }

  predicate GoodSize(s: string) { IsSize(s) && Hex(s) <= MAX_CHUNK }

  /** A byte that does not end a chunk size. */
  predicate IsSizeChar(c: char) { c != '\r' && c != ' ' && c != ';' }

  function SizeRead(m: Machine, s: string): Machine {
    Machine(m.f.(state := ChunkSize, length := Hex(s)), m.nread + |s|, m.log)
  }

  lemma SizeParts(init: string, c: char)
    ensures Hex(init + [c]) == if Unhex(c) == -1 then Hex(init) else Hex(init) * 16 + Unhex(c)
    ensures init != "" ==> (IsSize(init + [c]) <==> IsSize(init) && Unhex(c) != -1)
    ensures IsSize([c]) <==> Unhex(c) != -1
  {
    hide Unhex;
    var v := init + [c];
    assert v[..|init|] == init && c in v;
    if IsSize(init) && Unhex(c) != -1 { forall d | d in v ensures Unhex(d) != -1 {} }
    if IsSize(v) { forall d | d in init ensures Unhex(d) != -1 { assert d in v; } }
  }

  lemma SizeTransition(cfg: Config, f: Fields, c: char)
    requires IsSizeChar(c) && f.m.flags.chunked
    ensures f.state.ChunkSizeStart? ==>
              Transition(cfg, f, c)
                == if Unhex(c) == -1 then Fail(InvalidChunkSize) else Do(f.(state := ChunkSize, length := Unhex(c)), [])
    ensures f.state.ChunkSize? ==>
              Transition(cfg, f, c)
                == if Unhex(c) == -1 then Fail(InvalidChunkSize)
                   else if f.length * 16 + Unhex(c) <= MAX_CHUNK then Do(f.(length := f.length * 16 + Unhex(c)), [])
                   else Fail(InvalidContentLength)
  {
    if Unhex(c) != -1 { ChunkDigitExact(f, c); }
    hide Unhex;
  }

  lemma SizeGo(cfg: Config, m: Machine, init: string, c: char)
    requires m.f.state.ChunkSizeStart? && m.f.m.flags.chunked && IsSizeChar(c) && init != ""
    requires Reads(cfg, m, init, SizeRead(m, init)) && Hex(init) <= MAX_CHUNK
    ensures if Unhex(c) != -1 && Hex(init + [c]) <= MAX_CHUNK then Reads(cfg, m, init + [c], SizeRead(m, init + [c]))
            else Refuses(cfg, m, init + [c], InvalidChunkSize) || Refuses(cfg, m, init + [c], InvalidContentLength)
  {
    hide Transition, Fold, Step, Unhex, IsSize, IsSizeChar;
    var n, o := SizeRead(m, init), SizeRead(m, init + [c]);
    SizeTransition(cfg, n.f, c);
    SizeParts(init, c);
    hide Hex, Reads;
    assert init + [c] + "" == init + [c];
    if Unhex(c) == -1 {
      StepFail(cfg, n, c, InvalidChunkSize);
      RefuseAfter(cfg, m, init, n, c, "", InvalidChunkSize);
    } else if Hex(init + [c]) <= MAX_CHUNK {
      Quiet(cfg, n, c, o.f);
      ReadBytes(cfg, m, init, n, c, o);
    } else {
      StepFail(cfg, n, c, InvalidContentLength);
      RefuseAfter(cfg, m, init, n, c, "", InvalidContentLength);
    }
  }

  lemma SizeStart(cfg: Config, m: Machine, c: char)
    requires m.f.state.ChunkSizeStart? && m.nread == 0 && m.f.m.flags.chunked && IsSizeChar(c)
    ensures if Unhex(c) != -1 then Reads(cfg, m, [c], SizeRead(m, [c])) else Refuses(cfg, m, [c], InvalidChunkSize)
  {
    hide Transition, Fold, Step, Unhex;
    SizeTransition(cfg, m.f, c);
    SizeParts("", c);
    assert "" + [c] == [c];
    if Unhex(c) == -1 {
      StepFail(cfg, m, c, InvalidChunkSize);
      ReadNothing(cfg, m);
      RefuseAfter(cfg, m, "", m, c, "", InvalidChunkSize);
      assert [c] + "" == [c];
    } else {
      Quiet(cfg, m, c, m.f.(state := ChunkSize, length := Unhex(c)));
      ReadByte(cfg, m, c, SizeRead(m, [c]));
    }
  }

  lemma UnhexRange(c: char)
    ensures -1 <= Unhex(c) <= 15
  {
  }

  lemma OneHexDigit(c: char)
    ensures Hex([c]) <= 15
  {
    assert [c][..0] == "";
    assert Hex([c][..0]) == 0;
    UnhexRange(c);
    hide Unhex;
  }

  /** A chunk size of any bytes is accepted if and only if all of them are digits to the parser and their
      number is at most 2^64 - 17, and then the stored length is exactly its value. */
  lemma {:induction false} ReadSize(cfg: Config, m: Machine, s: string)
    requires m.f.state.ChunkSizeStart? && m.nread == 0 && m.f.m.flags.chunked
    requires s != "" && forall c :: c in s ==> IsSizeChar(c)
    ensures if GoodSize(s) then Reads(cfg, m, s, SizeRead(m, s)) && Hex(s) < ULLONG_MAX
            else Refuses(cfg, m, s, InvalidChunkSize) || Refuses(cfg, m, s, InvalidContentLength)
  {
    hide Transition, Fold, Step, SizeRead, Reads, Refuses, Hex, IsSize, IsSizeChar, Unhex;
    var c, init := s[|s| - 1], s[..|s| - 1];
    assert s == init + [c] && c in s;
    SizeParts(init, c);
    if init == "" {
      assert s == [c];
      SizeStart(cfg, m, c);
      OneHexDigit(c);
    } else {
      forall d | d in init ensures IsSizeChar(d) { assert d in s; }
      ReadSize(cfg, m, init);
      if GoodSize(init) {
        SizeGo(cfg, m, init, c);
      } else {
        UnhexRange(c);
        if Refuses(cfg, m, init, InvalidChunkSize) { RefuseMore(cfg, m, init, [c], InvalidChunkSize); }
        else { RefuseMore(cfg, m, init, [c], InvalidContentLength); }
        assert !GoodSize(s);
      }
    }
  }
}
