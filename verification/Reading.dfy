/** Runs of the machine over a whole text that neither fail nor leave early, and how they
    are put together. */
module Reading {
  import opened Chars
  import opened Numbers
  import opened ParserState
  import opened UrlChar
  import opened ByteTransition
  import opened StepMachine
  import opened ParserInvariant
  import opened CallRefinement
  import opened LogInvariant
  import opened Runs
  import opened Calls
  import opened Stepping

  /** The machine reads all of `text` and is then in `n`. */
  predicate Reads(cfg: Config, m: Machine, text: string, n: Machine) { Fold(cfg, m, text, 0) == Result(n, |text|, Ran) }

  /** The machine reads all of `text` and leaves the call with its last byte, or is at its end. */
  predicate Refuses(cfg: Config, m: Machine, text: string, e: Errno) { Fold(cfg, m, text, 0).end == Failed(e) }

  lemma ReadNothing(cfg: Config, m: Machine)
    ensures Reads(cfg, m, "", m)
  {
  }

  lemma ReadsIs(cfg: Config, m: Machine, text: string, n: Machine)
    requires Reads(cfg, m, text, n)
    ensures var r := Fold(cfg, m, text, 0); r.end.Ran? && r.m == n && r.used == |text|
  {
    hide Fold;
  }

  lemma ReadByte(cfg: Config, m: Machine, ch: char, n: Machine)
    requires Step(cfg, m, ch) == Went(n, false)
    ensures Reads(cfg, m, [ch], n)
  {
    hide Step;
    FoldGo(cfg, m, [ch], 0, n);
  }

  lemma ReadThen(cfg: Config, m: Machine, a: string, n: Machine, b: string, o: Machine)
    requires Reads(cfg, m, a, n) && Reads(cfg, n, b, o)
    ensures Reads(cfg, m, a + b, o)
  {
    FoldConcat(cfg, m, a, b);
    hide Fold;
  }

  lemma ReadBytes(cfg: Config, m: Machine, a: string, n: Machine, ch: char, o: Machine)
    requires Reads(cfg, m, a, n) && Step(cfg, n, ch) == Went(o, false)
    ensures Reads(cfg, m, a + [ch], o)
  {
    ReadByte(cfg, n, ch, o);
    ReadThen(cfg, m, a, n, [ch], o);
    hide Fold, Step;
  }

  /** An error after some bytes is an error of the whole. */
  lemma RefuseAfter(cfg: Config, m: Machine, a: string, n: Machine, ch: char, rest: string, e: Errno)
    requires Reads(cfg, m, a, n) && Step(cfg, n, ch) == Stuck(e)
    ensures Refuses(cfg, m, a + [ch] + rest, e)
  {
    hide Step;
    FoldStuck(cfg, n, [ch], 0, e);
    FoldConcat(cfg, m, a, [ch]);
    FoldConcat(cfg, m, a + [ch], rest);
    hide Fold;
  }

  lemma RefuseMore(cfg: Config, m: Machine, a: string, b: string, e: Errno)
    requires Refuses(cfg, m, a, e)
    ensures Refuses(cfg, m, a + b, e)
  {
    FoldConcat(cfg, m, a, b);
    hide Fold;
  }

  /** The log once the live mark, if any, has taken one byte. */
  function Carried(f: Fields, log: seq<Event>, ch: char): seq<Event> {
    match StartKind(f.state) case None => log case Some(k) => Emit(log, Data(k, [ch]))
  }

  /** A byte that runs no macro. */
  lemma Quiet(cfg: Config, m: Machine, ch: char, g: Fields)
    requires Counts(m) && (Transition(cfg, m.f, ch) == Do(g, []))
    ensures Step(cfg, m, ch) == Went(Machine(g, Count(m.f, m.nread), Carried(m.f, m.log, ch)), false)
  {
    StepQuiet(cfg, m, ch);
    hide Transition, Step;
  }

  lemma Sets(cfg: Config, m: Machine, ch: char, g: Fields, k: Kind)
    requires Counts(m) && StartKind(m.f.state).None? && Transition(cfg, m.f, ch) == Do(g, [Mark(k)])
    ensures Step(cfg, m, ch) == Went(Machine(g, Count(m.f, m.nread), Emit(m.log, Data(k, [ch]))), false)
  {
    StepMark(cfg, m, ch, k);
    hide Transition, Step;
  }

  lemma Flushes(cfg: Config, m: Machine, ch: char, g: Fields, k: Kind)
    requires Counts(m) && StartKind(m.f.state) == Some(k) && LastIs(m.log, k)
    requires Transition(cfg, m.f, ch) == Do(g, [Flush(k, false)])
    ensures Step(cfg, m, ch) == Went(Machine(g, Count(m.f, m.nread), m.log), false)
  {
    StepFlush(cfg, m, ch, k);
    hide Transition, Step;
  }

  /** A fragment that grows by one byte. */
  lemma Grow(log: seq<Event>, k: Kind, init: string, ch: char)
    ensures Emit(Emit(log, Data(k, init)), Data(k, [ch])) == Emit(log, Data(k, init + [ch]))
  {
    EmitEmit(log, k, init, [ch]);
  }

  lemma ParsingStates()
    ensures ParsingHeader(HeaderValue) && ParsingHeader(HeaderValueDiscardWs) && ParsingHeader(HeaderValueLws)
    ensures ParsingHeader(ChunkSize) && ParsingHeader(ChunkParameters)
    ensures ParsingHeader(ResStatus) && ParsingHeader(ResStatusStart) && ParsingHeader(ReqPath)
        && ParsingHeader(ReqSpacesBeforeUrl)
  {
  }

  /** Bytes that leave the fields alone and run no macro: the live mark, if any, takes them. */
  lemma {:induction false} ReadLoop(cfg: Config, m: Machine, text: string)
    requires Counts(m) && !m.f.state.ChunkSizeStart? && ParsingHeader(m.f.state)
    requires forall c :: c in text ==> Transition(cfg, m.f, c) == Do(m.f, [])
    ensures StartKind(m.f.state).None? ==> Reads(cfg, m, text, m.(nread := m.nread + |text|))
    ensures StartKind(m.f.state).Some? && LastIs(m.log, StartKind(m.f.state).value) ==>
              Reads(cfg, m, text,
                m.(nread := m.nread + |text|, log := Emit(m.log, Data(StartKind(m.f.state).value, text))))
  {
    hide Transition, Fold, Step, Emit, Reads, ParsingHeader;
    if text == "" {
      ReadNothing(cfg, m);
      if StartKind(m.f.state).Some? && LastIs(m.log, StartKind(m.f.state).value) {
        EmitNothing(m.log, StartKind(m.f.state).value);
      }
    } else {
      var c, init := text[|text| - 1], text[..|text| - 1];
      assert text == init + [c] && c in text;
      forall d | d in init ensures d in text {}
      ReadLoop(cfg, m, init);
      ReadLoopByte(cfg, m, init, c);
    }
  }

  lemma ReadLoopByte(cfg: Config, m: Machine, init: string, c: char)
    requires Counts(m) && !m.f.state.ChunkSizeStart? && ParsingHeader(m.f.state)
        && Transition(cfg, m.f, c) == Do(m.f, [])
    ensures StartKind(m.f.state).None? && Reads(cfg, m, init, m.(nread := m.nread + |init|)) ==>
              Reads(cfg, m, init + [c], m.(nread := m.nread + |init + [c]|))
    ensures StartKind(m.f.state).Some? ==>
              var k := StartKind(m.f.state).value;
              Reads(cfg, m, init, m.(nread := m.nread + |init|, log := Emit(m.log, Data(k, init)))) ==>
                Reads(cfg, m, init + [c], m.(nread := m.nread + |init + [c]|, log := Emit(m.log, Data(k, init + [c]))))
  {
    hide Transition, Fold, Step, Emit, Reads, ParsingHeader, StartKind;
    match StartKind(m.f.state)
    case None =>
      var n := m.(nread := m.nread + |init|);
      if Reads(cfg, m, init, n) { OneMore(cfg, m, init, n, c, m.(nread := m.nread + |init + [c]|)); }
    case Some(k) =>
      var n := m.(nread := m.nread + |init|, log := Emit(m.log, Data(k, init)));
      Grow(m.log, k, init, c);
      if Reads(cfg, m, init, n) {
        OneMore(cfg, m, init, n, c, m.(nread := m.nread + |init + [c]|, log := Emit(m.log, Data(k, init + [c]))));
      }
  }

  lemma OneMore(cfg: Config, m: Machine, init: string, n: Machine, c: char, o: Machine)
    requires Reads(cfg, m, init, n) && Counts(n) && ParsingHeader(n.f.state) && Transition(cfg, n.f, c) == Do(n.f, [])
    requires o == Machine(n.f, n.nread + 1, Carried(n.f, n.log, c))
    ensures Reads(cfg, m, init + [c], o)
  {
    assert o.nread == Count(n.f, n.nread);
    hide Transition, Fold, Step, Reads, ParsingHeader, Carried;
    Quiet(cfg, n, c, n.f);
    ReadBytes(cfg, m, init, n, c, o);
  }

  /** However a text that the machine reads is cut into calls, they leave the parser where the
      machine is. */
  lemma FedReads(cfg: Config, a: Parser, pieces: seq<string>, b: Parser, exited: bool, n: Machine)
    requires a.errno.Ok? && ParserInv(a) && Fed(cfg, a, pieces, b, exited)
    requires Reads(cfg, a.m, Flat(pieces), n)
    ensures if b.errno.HeaderOverflow? then !Fits(cfg, a.m, Flat(pieces), 0, FedRoom(cfg, a, pieces))
            else b.errno.Ok? && b.m == n && !exited
  {
    RanClean(cfg, a.m, Flat(pieces), 0);
    FedIsFold(cfg, a, pieces, b, exited);
    hide Fold, Fed, Clean, Fits, MachineInv;
  }

  /** However a text that the machine refuses is cut into calls, they end with the same error. */
  lemma FedRefuses(cfg: Config, a: Parser, pieces: seq<string>, b: Parser, exited: bool, e: Errno)
    requires a.errno.Ok? && ParserInv(a) && Fed(cfg, a, pieces, b, exited)
    requires Refuses(cfg, a.m, Flat(pieces), e) && e != InvalidHeaderToken
    ensures if b.errno.HeaderOverflow? then !Fits(cfg, a.m, Flat(pieces), 0, FedRoom(cfg, a, pieces))
            else b.errno == e
  {
    RanClean(cfg, a.m, Flat(pieces), 0);
    FedIsFold(cfg, a, pieces, b, exited);
    hide Fold, Fed, Clean, Fits, MachineInv;
  }
}
