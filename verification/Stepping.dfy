/** One step of the machine, by the macros of its byte. */
module Stepping {
  import opened Numbers
  import opened ParserState
  import opened UrlChar
  import opened ByteTransition
  import opened StepMachine
  import opened ParserInvariant
  import opened CallRefinement
  import opened LogInvariant
  import opened Refinement

  /** The machine after a byte that leaves `log`. */
  function Now(m: Machine, o: Outcome, log: seq<Event>): Machine
    requires o.Out?
  {
    Machine(o.f, if o.reset then 0 else Count(m.f, m.nread), log)
  }

  predicate Counts(m: Machine) { m.f.state.ChunkSizeStart? ==> m.nread == 0 }

  lemma PerformNone(marks: Marks, log: seq<Event>, ch: char)
    requires InBuffer(marks, 0)
    ensures Perform([], marks, log, [ch], 0) == (marks, log)
  {
  }

  lemma PerformSingle(a: Act, marks: Marks, log: seq<Event>, ch: char)
    requires InBuffer(marks, 0)
    ensures Perform([a], marks, log, [ch], 0) == PerformOne(a, marks, log, [ch], 0)
  {
    assert [a][1..] == [];
  }

  lemma PerformPair(a: Act, b: Act, marks: Marks, log: seq<Event>, ch: char)
    requires InBuffer(marks, 0)
    ensures var (m, l) := PerformOne(a, marks, log, [ch], 0);
            Perform([a, b], marks, log, [ch], 0) == PerformOne(b, m, l, [ch], 0)
  {
    assert [a, b] == [a] + [b];
    PerformLast([a], b, marks, log, [ch], 0);
    PerformSingle(a, marks, log, ch);
    hide Perform, PerformOne;
  }

  /** A byte without macros: the live mark, if any, takes the byte. */
  lemma StepQuiet(cfg: Config, m: Machine, ch: char)
    requires Counts(m) && Transition(cfg, m.f, ch).Out?
    requires Transition(cfg, m.f, ch).acts == [] && !Transition(cfg, m.f, ch).exit
    ensures Step(cfg, m, ch) == Went(Now(m, Transition(cfg, m.f, ch),
              match StartKind(m.f.state) case None => m.log case Some(k) => Emit(m.log, Data(k, [ch]))), false)
  {
    hide Transition, Perform, Leftover, Emit;
    PerformNone(StartMarks(m.f.state), m.log, ch);
    match StartKind(m.f.state) {
      case None => LeftoverNone(m.log, [ch]);
      case Some(k) => LeftoverOne(k, 0, m.log, [ch]); assert [ch][0..] == [ch];
    }
  }

  /** A byte that sets a mark. */
  lemma StepMark(cfg: Config, m: Machine, ch: char, k: Kind)
    requires Counts(m) && StartKind(m.f.state).None? && Transition(cfg, m.f, ch).Out?
    requires Transition(cfg, m.f, ch).acts == [Mark(k)] && !Transition(cfg, m.f, ch).exit
    ensures Step(cfg, m, ch) == Went(Now(m, Transition(cfg, m.f, ch), Emit(m.log, Data(k, [ch]))), false)
  {
    hide Transition, Leftover, Emit, Perform;
    PerformSingle(Mark(k), map[], m.log, ch);
    LeftoverOne(k, 0, m.log, [ch]);
    assert [ch][0..] == [ch];
  }

  /** A byte that ends the live mark: its bytes are in the log already. */
  lemma StepFlush(cfg: Config, m: Machine, ch: char, k: Kind)
    requires Counts(m) && StartKind(m.f.state) == Some(k) && LastIs(m.log, k) && Transition(cfg, m.f, ch).Out?
    requires Transition(cfg, m.f, ch).acts == [Flush(k, false)] && !Transition(cfg, m.f, ch).exit
    ensures Step(cfg, m, ch) == Went(Now(m, Transition(cfg, m.f, ch), m.log), false)
  {
    hide Transition, Leftover, Emit, Perform;
    var marks: Marks := map[k := 0];
    PerformSingle(Flush(k, false), marks, m.log, ch);
    assert marks - {k} == map[];
    assert [ch][0..0] == "";
    EmitNothing(m.log, k);
    LeftoverNone(m.log, [ch]);
  }

  /** A byte that makes one notification. */
  lemma StepNotify(cfg: Config, m: Machine, ch: char, n: Note)
    requires Counts(m) && StartKind(m.f.state).None? && Transition(cfg, m.f, ch).Out?
    requires Transition(cfg, m.f, ch).acts == [Notify(n)]
    ensures Step(cfg, m, ch) == Went(Now(m, Transition(cfg, m.f, ch), m.log + [Note(n)]), Transition(cfg, m.f, ch).exit)
  {
    hide Transition, Leftover, Perform;
    PerformSingle(Notify(n), map[], m.log, ch);
    LeftoverNone(m.log + [Note(n)], [ch]);
  }

  /** A byte that makes two notifications. */
  lemma StepNotifyTwice(cfg: Config, m: Machine, ch: char, n: Note, n': Note)
    requires Counts(m) && StartKind(m.f.state).None? && Transition(cfg, m.f, ch).Out?
    requires Transition(cfg, m.f, ch).acts == [Notify(n), Notify(n')]
    ensures Step(cfg, m, ch) == Went(Now(m, Transition(cfg, m.f, ch), m.log + [Note(n), Note(n')]),
                                     Transition(cfg, m.f, ch).exit)
  {
    hide Transition, Leftover, Perform;
    PerformPair(Notify(n), Notify(n'), map[], m.log, ch);
    assert m.log + [Note(n), Note(n')] == m.log + [Note(n)] + [Note(n')];
    LeftoverNone(m.log + [Note(n), Note(n')], [ch]);
  }

  /** A byte that ends a body: one last fragment, then a notification. */
  lemma StepBodyEnd(cfg: Config, m: Machine, ch: char, n: Note)
    requires Counts(m) && StartKind(m.f.state).None? && Transition(cfg, m.f, ch).Out?
    requires Transition(cfg, m.f, ch).acts == [Mark(Body), Flush(Body, true), Notify(n)]
    ensures Step(cfg, m, ch) == Went(Now(m, Transition(cfg, m.f, ch), Emit(m.log, Data(Body, [ch])) + [Note(n)]),
                                     Transition(cfg, m.f, ch).exit)
  {
    hide Transition, Leftover, Perform;
    var log := Emit(m.log, Data(Body, [ch]));
    var marks: Marks := map[Body := 0];
    assert marks - {Body} == map[];
    assert [ch][0..1] == [ch];
    assert [Mark(Body), Flush(Body, true), Notify(n)] == [Mark(Body), Flush(Body, true)] + [Notify(n)];
    PerformPair(Mark(Body), Flush(Body, true), map[], m.log, ch);
    assert Perform([Mark(Body), Flush(Body, true)], map[], m.log, [ch], 0) == (map[], log);
    PerformLast([Mark(Body), Flush(Body, true)], Notify(n), map[], m.log, [ch], 0);
    LeftoverNone(log + [Note(n)], [ch]);
  }

  /** A byte that ends a chunk: nothing is live in a one-byte call. */
  lemma StepChunkEnd(cfg: Config, m: Machine, ch: char)
    requires Counts(m) && StartKind(m.f.state).None? && Transition(cfg, m.f, ch).Out?
    requires Transition(cfg, m.f, ch).acts == [Flush(Body, false)] && !Transition(cfg, m.f, ch).exit
    ensures Step(cfg, m, ch) == Went(Now(m, Transition(cfg, m.f, ch), m.log), false)
  {
    hide Transition, Leftover, Emit, Perform;
    var none: Marks := map[];
    PerformSingle(Flush(Body, false), none, m.log, ch);
    assert none - {Body} == none;
    LeftoverNone(m.log, [ch]);
  }

  lemma FoldGo(cfg: Config, m: Machine, data: string, p: nat, n: Machine)
    requires p < |data| && Step(cfg, m, data[p]) == Went(n, false)
    ensures Fold(cfg, m, data, p) == Fold(cfg, n, data, p + 1)
  {
    hide Step;
  }

  lemma FoldStuck(cfg: Config, m: Machine, data: string, p: nat, e: Errno)
    requires p < |data| && Step(cfg, m, data[p]) == Stuck(e)
    ensures Fold(cfg, m, data, p) == Result(m, p, Failed(e))
  {
    hide Step;
  }

  lemma StepFail(cfg: Config, m: Machine, ch: char, e: Errno)
    requires Counts(m) && Transition(cfg, m.f, ch) == Fail(e)
    ensures Step(cfg, m, ch) == Stuck(e)
  {
    hide Transition;
  }
}
