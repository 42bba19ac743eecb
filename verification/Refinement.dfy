/** One byte of a long call against the same byte of the one-byte machine. */
module Refinement {
  import opened Chars
  import opened Numbers
  import opened ParserState
  import opened UrlChar
  import opened ByteTransition
  import opened StepMachine
  import opened ParserInvariant
  import opened CallRefinement
  import opened LogInvariant

  lemma MarksOne(marks: Marks, k: Kind)
    requires marks.Keys == {k}
    ensures k in marks && marks == map[k := marks[k]]
  {
  }

  lemma PendNone(log: seq<Event>, data: string, p: nat)
    requires p <= |data|
    ensures Pend(map[], log, data, p) == log
  {
    LeftoverNone(log, data[..p]);
  }

  lemma PendOne(k: Kind, i: nat, log: seq<Event>, data: string, p: nat)
    requires i <= p <= |data|
    ensures Pend(map[k := i], log, data, p) == Emit(log, Data(k, data[i..p]))
  {
    LeftoverOne(k, i, log, data[..p]);
    assert data[..p][i..] == data[i..p];
  }

  /** At most one mark is live. */
  lemma FitSplit(s: State, marks: Marks)
    requires Fit(s, marks.Keys)
    ensures marks == map[] || exists k :: k in marks && marks == map[k := marks[k]]
  {
    if k :| k in marks {
      assert marks.Keys == {k};
      MarksOne(marks, k);
    } else {
      assert marks == map[];
    }
  }

  lemma TogetherStart(s: State, marks: Marks, log: seq<Event>, data: string, p: nat)
    requires Fit(s, marks.Keys) && InBuffer(marks, p) && p < |data|
    ensures Together(marks, log, data, p, StartMarks(s), Pend(marks, log, data, p))
  {
    hide Leftover, Pend, Emit, StartKind;
    FitSplit(s, marks);
    if marks == map[] {
      assert marks.Keys == {};
      PendNone(log, data, p);
    } else {
      var k :| k in marks && marks == map[k := marks[k]];
      assert marks.Keys == {k};
      PendOne(k, marks[k], log, data, p);
    }
  }

  lemma PendGrows(k: Kind, i: nat, log: seq<Event>, data: string, p: nat, done: seq<Event>)
    requires i <= p < |data|
    requires (i == p && log == done) || Emit(log, Data(k, data[i..p])) == done
    ensures Emit(log, Data(k, data[i..p + 1])) == Emit(done, Data(k, [data[p]]))
  {
    if i == p && log == done {
      assert data[i..p + 1] == [data[p]];
    } else {
      assert data[i..p + 1] == data[i..p] + [data[p]];
      EmitEmit(log, k, data[i..p], [data[p]]);
    }
    hide Emit;
  }

  lemma TogetherEnd(s: State, long: Marks, log: seq<Event>, data: string, p: nat, short: Marks, done: seq<Event>)
    requires InBuffer(long, p) && p < |data| && InBuffer(short, 0)
    requires Together(long, log, data, p, short, done)
    requires Fit(s, long.Keys) && long.Keys == short.Keys
    ensures Pend(long, log, data, p + 1) == Leftover(short, done, [data[p]])
  {
    FitSplit(s, long);
    hide Emit, Leftover, Pend;
    if long == map[] {
      assert short == map[];
      PendNone(log, data, p + 1);
      LeftoverNone(done, [data[p]]);
    } else {
      var k :| k in long && long == map[k := long[k]];
      assert One(k, long, log, data, p, short, done);
      assert k in short;
      PendOne(k, long[k], log, data, p + 1);
      LeftoverOne(k, 0, done, [data[p]]);
      assert [data[p]][0..] == [data[p]];
      PendGrows(k, long[k], log, data, p, done);
    }
  }

  /** The state of a long call before byte `p`. */
  ghost predicate Mid(m: Machine, marks: Marks, log: seq<Event>, data: string, p: nat) {
    && p <= |data| && InBuffer(marks, p)
    && MachineInv(m) && Fit(m.f.state, marks.Keys)
    && m.log == Pend(marks, log, data, p)
    && Opened(marks, log)
  }

  /** The machine after a byte whose macros left `marks` and `log` in the long call. */
  function Moved(m: Machine, o: Outcome, marks: Marks, log: seq<Event>, data: string, p: nat): Machine
    requires o.Out? && p < |data| && InBuffer(marks, p + 1)
  {
    Machine(o.f, if o.reset then 0 else Count(m.f, m.nread), Pend(marks, log, data, p + 1))
  }

  ghost predicate ByteAgrees(cfg: Config, m: Machine, o: Outcome, marks: Marks, log: seq<Event>, data: string, p: nat)
    requires p < |data| && InBuffer(marks, p + 1)
  {
    match o
    case Fail(e) => Step(cfg, m, data[p]) == Stuck(e) && IsParseError(e)
    case Out(_, _, _, exit) =>
      && Step(cfg, m, data[p]) == Went(Moved(m, o, marks, log, data, p), exit)
      && (if exit then marks == map[] && MachineInv(Moved(m, o, marks, log, data, p))
          else Mid(Moved(m, o, marks, log, data, p), marks, log, data, p + 1))
  }

  /** The macros of a byte, in the long call and in the one-byte call. */
  lemma MacrosTogether(cfg: Config, m: Machine, marks: Marks, log: seq<Event>, data: string, p: nat)
    requires Mid(m, marks, log, data, p) && p < |data| && Transition(cfg, m.f, data[p]).Out?
    ensures var o := Transition(cfg, m.f, data[p]);
            var (l, g) := Perform(o.acts, marks, log, data, p);
            var (s, d) := Perform(o.acts, StartMarks(m.f.state), m.log, [data[p]], 0);
            && l.Keys == s.Keys && Fit(o.f.state, l.Keys) && (o.exit ==> l.Keys == {})
            && Together(l, g, data, p, s, d)
  {
    var o := Transition(cfg, m.f, data[p]);
    hide Transition, Perform, Leftover, Pend, Together, TouchAll, Orderly;
    var short := StartMarks(m.f.state);
    assert short.Keys == StartKeys(m.f.state);
    TransitionKeys(cfg, m.f, data[p], marks.Keys);
    TogetherStart(m.f.state, marks, log, data, p);
    TogetherAll(o.acts, marks, log, data, p, short, m.log);
  }

  /** Every flush of a value joins onto no empty value. */
  predicate Safe(acts: seq<Act>, marks: Marks, log: seq<Event>, data: string, p: nat)
    requires InBuffer(marks, p) && p < |data|
  {
    acts == [] ||
    (&& (acts[0].Flush? && acts[0].kind == Value && Value in marks ==> !EndsInEmptyValue(log))
     && var (m, l) := PerformOne(acts[0], marks, log, data, p);
        Safe(acts[1..], m, l, data, p))
  }

  predicate Opened(marks: Marks, log: seq<Event>) { Value in marks ==> !EndsInEmptyValue(log) }

  lemma {:induction false} SafeRest(acts: seq<Act>, marks: Marks, log: seq<Event>, data: string, p: nat)
    requires InBuffer(marks, p) && p < |data| && Mark(Value) !in acts && Opened(marks, log)
    ensures Safe(acts, marks, log, data, p)
    ensures var (l, g) := Perform(acts, marks, log, data, p); Opened(l, g)
  {
    if acts != [] {
      var (m, l) := PerformOne(acts[0], marks, log, data, p);
      assert Opened(m, l);
      SafeRest(acts[1..], m, l, data, p);
    }
  }

  lemma SafeMacros(cfg: Config, m: Machine, marks: Marks, log: seq<Event>, data: string, p: nat)
    requires Mid(m, marks, log, data, p) && p < |data| && Transition(cfg, m.f, data[p]).Out?
    ensures var o := Transition(cfg, m.f, data[p]);
            var (l, g) := Perform(o.acts, marks, log, data, p);
            Safe(o.acts, marks, log, data, p) && Opened(l, g)
  {
    var o := Transition(cfg, m.f, data[p]);
    TransitionEnding(cfg, m.f, data[p]);
    TransitionKeys(cfg, m.f, data[p], marks.Keys);
    hide Transition;
    if o.acts != [] && o.acts[0] == Mark(Value) {
      if Value !in marks {
        assert marks == map[];
        PendNone(log, data, p);
      }
      var (l, g) := PerformOne(Mark(Value), marks, log, data, p);
      SafeRest(o.acts[1..], l, g, data, p);
    } else {
      assert Mark(Value) !in o.acts;
      SafeRest(o.acts, marks, log, data, p);
    }
    hide Perform, Pend, TouchAll, EndsInEmptyValue;
  }

  lemma ExitKept(cfg: Config, m: Machine, ch: char)
    requires MachineInv(m) && Transition(cfg, m.f, ch).Out? && Transition(cfg, m.f, ch).exit
    ensures var o := Transition(cfg, m.f, ch);
            LogInv(o.f.state, Perform(o.acts, StartMarks(m.f.state), m.log, [ch], 0).1)
  {
    hide Transition, Perform, TouchAll, Orderly, Inv;
    var o := Transition(cfg, m.f, ch);
    TransitionEnding(cfg, m.f, ch);
    TransitionKeys(cfg, m.f, ch, StartKeys(m.f.state));
    NotifyTail(o.acts, StartMarks(m.f.state), m.log, ch);
  }

  /** The one-byte call keeps the invariant. */
  lemma StepKept(cfg: Config, m: Machine, ch: char)
    requires MachineInv(m)
    ensures match Step(cfg, m, ch)
            case Stuck(e) => IsParseError(e)
            case Went(n, _) => MachineInv(n)
  {
    var o := Transition(cfg, m.f, ch);
    TransitionKept(cfg, m.f, ch);
    TransitionEnding(cfg, m.f, ch);
    TransitionKeys(cfg, m.f, ch, StartKeys(m.f.state));
    hide Transition, Perform, Leftover, TouchAll, Orderly, LogInv;
    if o.Out? {
      if o.exit { ExitKept(cfg, m, ch); } else { LogKept(m.f.state, o, m.log, ch); }
    }
  }

  /** A byte done by running its macros in the long call is a step of the machine. */
  lemma ByteRefines(cfg: Config, m: Machine, marks: Marks, log: seq<Event>, data: string, p: nat)
    requires Mid(m, marks, log, data, p) && p < |data|
    ensures var o := Transition(cfg, m.f, data[p]);
            var (l, g) := if o.Out? then Perform(o.acts, marks, log, data, p) else (marks, log);
            ByteAgrees(cfg, m, o, l, g, data, p)
  {
    hide Transition, Perform, Leftover, Pend, Together, LogInv, Inv, Safe, TouchAll;
    var o := Transition(cfg, m.f, data[p]);
    StepKept(cfg, m, data[p]);
    if o.Out? {
      MacrosTogether(cfg, m, marks, log, data, p);
      var (l, g) := Perform(o.acts, marks, log, data, p);
      var (s, d) := Perform(o.acts, StartMarks(m.f.state), m.log, [data[p]], 0);
      TogetherEnd(o.f.state, l, g, data, p, s, d);
      SafeMacros(cfg, m, marks, log, data, p);
      if o.exit {
        assert l == map[] && s == map[];
        LeftoverNone(d, [data[p]]);
      }
    }
  }
}
