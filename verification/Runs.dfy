/** Runs of bytes that a long call takes at once.  `CallFold` is what a whole call does; where every byte
    of a header value may stand there, it is what the machine does over the single bytes. */
module Runs {
  import opened Chars
  import opened Numbers
  import opened ParserState
  import opened ByteTransition
  import opened StepMachine
  import opened ParserInvariant
  import opened CallRefinement
  import opened LogInvariant
  import opened Refinement
  import opened Stepping

  /** From here on every byte of a header value is a valid header character, or the parser is
      lenient.  Other matchers than the general one look at every byte anyway. */
  predicate Clean(cfg: Config, m: Machine, data: string, p: nat)
    requires p <= |data|
    decreases |data| - p
  {
    p < |data| ==>
      && (m.f.state.HeaderValue? && m.f.hstate.General? && !cfg.lenient ==> IsHeaderChar(data[p]))
      && match Step(cfg, m, data[p])
         case Stuck(_) => true
         case Went(n, exit) => exit || Clean(cfg, n, data, p + 1)
  }

  /** From here on the exact count of header bytes stays within `cap`. */
  predicate Fits(cfg: Config, m: Machine, data: string, p: nat, cap: int)
    requires p <= |data|
    decreases |data| - p
  {
    && m.nread <= cap
    && (p < |data| ==>
          && Count(m.f, m.nread) <= cap
          && match Step(cfg, m, data[p])
             case Stuck(_) => true
             case Went(n, exit) => exit || Fits(cfg, n, data, p + 1, cap))
  }

  // ----- a whole call -----

  predicate NoLineEnd(data: string, p: nat, q: nat)
    requires p <= q <= |data|
  {
    forall i :: p <= i < q ==> data[i] != '\r' && data[i] != '\n'
  }

  /** The next CR or LF, or the end of the buffer. */
  function LineEnd(data: string, p: nat): (q: nat)
    requires p <= |data|
    ensures p <= q <= |data| && NoLineEnd(data, p, q) && (q < |data| ==> data[q] == '\r' || data[q] == '\n')
    decreases |data| - p
  {
    if p == |data| || data[p] == '\r' || data[p] == '\n' then p else LineEnd(data, p + 1)
  }

  /** Where a call looks at one byte of a header value and jumps to the end of the line. */
  predicate Jumps(cfg: Config, f: Fields, ch: char) {
    f.state.HeaderValue? && f.hstate.General? && ch != '\r' && ch != '\n' && (cfg.lenient || IsHeaderChar(ch))
  }

  /** The machine after such a jump. */
  function Skipped(m: Machine, data: string, p: nat, q: nat): Machine
    requires p <= q <= |data|
  {
    Machine(m.f, m.nread + (q - p), Emit(m.log, Data(Value, data[p..q])))
  }

  /** What a call does from byte `p` on. */
  function CallFold(cfg: Config, m: Machine, data: string, p: nat): Result
    requires p <= |data|
    decreases |data| - p
  {
    if p == |data| then Result(m, p, Ran)
    else if Jumps(cfg, m.f, data[p]) then CallFold(cfg, Skipped(m, data, p, LineEnd(data, p)), data, LineEnd(data, p))
    else match Step(cfg, m, data[p])
      case Stuck(e) => Result(m, p, Failed(e))
      case Went(n, exit) => if exit then Result(n, p + 1, Exited) else CallFold(cfg, n, data, p + 1)
  }

  /** From here on the call's exact count of header bytes stays within `cap`. */
  predicate CallFits(cfg: Config, m: Machine, data: string, p: nat, cap: int)
    requires p <= |data|
    decreases |data| - p
  {
    && m.nread <= cap
    && (p < |data| ==>
          && Count(m.f, m.nread) <= cap
          && if Jumps(cfg, m.f, data[p]) then
            CallFits(cfg, Skipped(m, data, p, LineEnd(data, p)), data, LineEnd(data, p), cap)
             else match Step(cfg, m, data[p])
               case Stuck(_) => true
               case Went(n, exit) => exit || CallFits(cfg, n, data, p + 1, cap))
  }

  /** The byte resets the count of header bytes. */
  predicate Zeroes(cfg: Config, f: Fields, ch: char) {
    var o := Transition(cfg, f, ch);
    o.Out? && o.reset
  }

  /** From here on some byte of the call does. */
  predicate CallZeroes(cfg: Config, m: Machine, data: string, p: nat)
    requires p <= |data|
    decreases |data| - p
  {
    p < |data| &&
    if Jumps(cfg, m.f, data[p]) then CallZeroes(cfg, Skipped(m, data, p, LineEnd(data, p)), data, LineEnd(data, p))
    else
      || Zeroes(cfg, m.f, data[p])
      || match Step(cfg, m, data[p])
         case Stuck(_) => false
         case Went(n, exit) => !exit && CallZeroes(cfg, n, data, p + 1)
  }

  /** The call from `m0` at byte 0 goes through `m` at byte `p`; `even`: it has reset the count. */
  ghost predicate Reaches(cfg: Config, m0: Machine, data: string, m: Machine, p: nat, cap: int, even: bool)
    requires p <= |data|
  {
    && CallFold(cfg, m0, data, 0) == CallFold(cfg, m, data, p)
    && (CallFits(cfg, m0, data, 0, cap) ==> CallFits(cfg, m, data, p, cap))
    && (CallZeroes(cfg, m0, data, 0) ==> even || CallZeroes(cfg, m, data, p))
  }

  lemma ReachStep(cfg: Config, m0: Machine, data: string, m: Machine, p: nat, cap: int, even: bool, n: Machine)
    requires p < |data| && Reaches(cfg, m0, data, m, p, cap, even) && !Jumps(cfg, m.f, data[p])
    requires Step(cfg, m, data[p]) == Went(n, false)
    ensures Reaches(cfg, m0, data, n, p + 1, cap, even || Zeroes(cfg, m.f, data[p]))
  {
    hide Step, Jumps, Zeroes;
  }

  lemma ReachJump(cfg: Config, m0: Machine, data: string, m: Machine, p: nat, cap: int, even: bool)
    requires p < |data| && Reaches(cfg, m0, data, m, p, cap, even) && Jumps(cfg, m.f, data[p])
    ensures Reaches(cfg, m0, data, Skipped(m, data, p, LineEnd(data, p)), LineEnd(data, p), cap, even)
  {
    hide Step, Jumps, Zeroes;
  }

  lemma ReachExit(cfg: Config, m0: Machine, data: string, m: Machine, p: nat, cap: int, even: bool, n: Machine)
    requires p < |data| && Reaches(cfg, m0, data, m, p, cap, even) && !Jumps(cfg, m.f, data[p])
    requires Step(cfg, m, data[p]) == Went(n, true)
    ensures CallFold(cfg, m0, data, 0) == Result(n, p + 1, Exited)
    ensures CallZeroes(cfg, m0, data, 0) ==> even || Zeroes(cfg, m.f, data[p])
  {
    hide Step, Jumps, Zeroes;
  }

  lemma ReachFail(cfg: Config, m0: Machine, data: string, m: Machine, p: nat, cap: int, even: bool, e: Errno)
    requires p < |data| && Reaches(cfg, m0, data, m, p, cap, even) && !Jumps(cfg, m.f, data[p])
    requires Step(cfg, m, data[p]) == Stuck(e)
    ensures CallFold(cfg, m0, data, 0) == Result(m, p, Failed(e))
  {
    hide Step, Jumps;
  }

  /** Where a machine that reads a general header value is after the bytes up to `q`. */
  function ValueAfter(m: Machine, marks: Marks, log: seq<Event>, data: string, p: nat, q: nat): Machine
    requires p <= q <= |data| && InBuffer(marks, q)
  {
    Machine(m.f, m.nread + (q - p), Pend(marks, log, data, q))
  }

  /** Extending the live value keeps the state of the call. */
  lemma ValueMid(m: Machine, marks: Marks, log: seq<Event>, data: string, p: nat, q: nat)
    requires Mid(m, marks, log, data, p) && m.f.state.HeaderValue? && p <= q <= |data|
    ensures Mid(ValueAfter(m, marks, log, data, p, q), marks, log, data, q)
    ensures ValueAfter(m, marks, log, data, p, q) == Skipped(m, data, p, q)
  {
    ValueMarks(m, marks, log, data, p);
    hide Pend, Emit, Inv, EndsIn;
    ValuePend(marks, log, data, p, q);
    EmitKeepsEnd(m.log, Value, data[p..q]);
    ValueEnds(m.f.state, Emit(m.log, Data(Value, data[p..q])));
  }

  /** In a header value the value's mark is the live one. */
  lemma ValueMarks(m: Machine, marks: Marks, log: seq<Event>, data: string, p: nat)
    requires Mid(m, marks, log, data, p) && m.f.state.HeaderValue?
    ensures marks.Keys == {Value} && marks[Value] <= p && EndsIn(m.log, Value)
  {
    hide Pend, Emit, Inv;
  }

  lemma ValueEnds(s: State, log: seq<Event>)
    requires s.HeaderValue? && EndsIn(log, Value)
    ensures LogInv(s, log)
  {
  }

  lemma ValuePend(marks: Marks, log: seq<Event>, data: string, p: nat, q: nat)
    requires marks.Keys == {Value} && marks[Value] <= p <= q <= |data|
    ensures InBuffer(marks, p) && InBuffer(marks, q)
    ensures Pend(marks, log, data, q) == Emit(Pend(marks, log, data, p), Data(Value, data[p..q]))
  {
    hide Pend, Emit;
    MarksOne(marks, Value);
    var i := marks[Value];
    PendOne(Value, i, log, data, p);
    PendOne(Value, i, log, data, q);
    assert data[i..q] == data[i..p] + data[p..q];
    EmitEmit(log, Value, data[i..p], data[p..q]);
  }

  lemma EmitKeepsEnd(log: seq<Event>, k: Kind, bytes: string)
    requires EndsIn(log, k)
    ensures EndsIn(Emit(log, Data(k, bytes)), k)
  {
    assert |log[|log| - 1].bytes + bytes| > 0;
  }

  /** The `memchr` jump of a general header value. */
  lemma GeneralJump(cfg: Config, m0: Machine, cap: int, even: bool, m: Machine, marks: Marks, log: seq<Event>,
      data: string, p: nat)
    requires Mid(m, marks, log, data, p) && p < |data| && Jumps(cfg, m.f, data[p])
    requires Reaches(cfg, m0, data, m, p, cap, even)
    ensures var q := LineEnd(data, p);
            var n := ValueAfter(m, marks, log, data, p, q);
            p < q && Reaches(cfg, m0, data, n, q, cap, even) && Mid(n, marks, log, data, q)
              && n.nread == m.nread + (q - p)
  {
    hide CallFold, CallFits, CallZeroes, Pend, MachineInv, LogInv, Skipped, Reaches, Mid;
    ValueMid(m, marks, log, data, p, LineEnd(data, p));
    ReachJump(cfg, m0, data, m, p, cap, even);
  }

  predicate InBody(f: Fields, more: nat) {
    f.state.BodyIdentityEof? || ((f.state.BodyIdentity? || f.state.ChunkData?) && more < f.length)
  }

  function Taken(f: Fields, k: nat): Fields
    requires InBody(f, k)
  {
    if f.state.BodyIdentityEof? then f else f.(length := f.length - k)
  }

  function BodyMarks(marks: Marks, p: nat, q: nat): Marks {
    if p < q && Body !in marks then marks[Body := p] else marks
  }

  /** A jump inside a body, short of its last byte, is a run of single bytes. */
  lemma {:induction false} BodyRun(cfg: Config, m0: Machine, cap: int, even: bool,
                                   m: Machine, marks: Marks, log: seq<Event>, data: string, p: nat, q: nat)
    requires Mid(m, marks, log, data, p) && p <= q <= |data| && InBody(m.f, q - p)
    requires Reaches(cfg, m0, data, m, p, cap, even)
    ensures var n := Machine(Taken(m.f, q - p), m.nread, Pend(BodyMarks(marks, p, q), log, data, q));
            && Mid(n, BodyMarks(marks, p, q), log, data, q)
            && Reaches(cfg, m0, data, n, q, cap, even)
    decreases q - p
  {
    hide Step, Pend, MachineInv, LogInv, CallFold, CallFits, CallZeroes, Reaches, Mid;
    if p < q {
      BodyByte(cfg, m, marks, log, data, p);
      BodyInBuffer(m, marks, log, data, p);
      var l := BodyMarks(marks, p, p + 1);
      var n := Machine(Taken(m.f, 1), m.nread, Pend(l, log, data, p + 1));
      ReachStep(cfg, m0, data, m, p, cap, even, n);
      BodyRun(cfg, m0, cap, even, n, l, log, data, p + 1, q);
      assert BodyMarks(l, p + 1, q) == BodyMarks(marks, p, q);
    } else {
      BodyNone(m, marks, log, data, p);
    }
  }

  lemma BodyInBuffer(m: Machine, marks: Marks, log: seq<Event>, data: string, p: nat)
    requires Mid(m, marks, log, data, p) && InBody(m.f, 1)
    ensures InBuffer(BodyMarks(marks, p, p + 1), p + 1)
  {
    hide Pend, MachineInv;
  }

  lemma BodyNone(m: Machine, marks: Marks, log: seq<Event>, data: string, p: nat)
    requires Mid(m, marks, log, data, p) && InBody(m.f, 0)
    ensures p <= |data| && InBuffer(marks, p)
        && Machine(Taken(m.f, 0), m.nread, Pend(BodyMarks(marks, p, p), log, data, p)) == m
    ensures BodyMarks(marks, p, p) == marks
  {
    hide Pend, MachineInv;
  }

  lemma BodyTransition(cfg: Config, f: Fields, ch: char)
    requires InBody(f, 1) && Inv(f)
    ensures Transition(cfg, f, ch) == Do(Taken(f, 1), [Mark(Body)])
  {
  }

  lemma BodyByte(cfg: Config, m: Machine, marks: Marks, log: seq<Event>, data: string, p: nat)
    requires Mid(m, marks, log, data, p) && p < |data| && InBody(m.f, 1)
    ensures var l := BodyMarks(marks, p, p + 1);
            var n := Machine(Taken(m.f, 1), m.nread, Pend(l, log, data, p + 1));
            Step(cfg, m, data[p]) == Went(n, false) && Mid(n, l, log, data, p + 1) && !Zeroes(cfg, m.f, data[p])
  {
    BodyTransition(cfg, m.f, data[p]);
    hide Step, Transition, Pend, MachineInv, LogInv, Perform;
    ByteRefines(cfg, m, marks, log, data, p);
    PerformMark(Body, marks, log, data, p);
  }

  lemma PerformMark(k: Kind, marks: Marks, log: seq<Event>, data: string, p: nat)
    requires InBuffer(marks, p) && p < |data|
    ensures Perform([Mark(k)], marks, log, data, p) == PerformOne(Mark(k), marks, log, data, p)
  {
    assert [Mark(k)][1..] == [];
  }

  function NameAfter(f: Fields, ch: char): Fields {
    var (i, h) := FieldChar(f.hstate, f.index, ch);
    f.(index := i, hstate := h)
  }

  lemma NameTransition(cfg: Config, f: Fields, ch: char)
    requires f.state.HeaderField? && IsToken(ch) && Inv(f)
    ensures Transition(cfg, f, ch) == Do(NameAfter(f, ch), [])
  {
    hide FieldChar;
  }

  /** A token byte of a header name. */
  lemma TokenByte(cfg: Config, m: Machine, marks: Marks, log: seq<Event>, data: string, p: nat)
    requires Mid(m, marks, log, data, p) && p < |data| && m.f.state.HeaderField? && IsToken(data[p])
    ensures var n := Machine(NameAfter(m.f, data[p]), m.nread + 1, Pend(marks, log, data, p + 1));
            Step(cfg, m, data[p]) == Went(n, false) && Mid(n, marks, log, data, p + 1) && !Zeroes(cfg, m.f, data[p])
  {
    NameTransition(cfg, m.f, data[p]);
    hide Step, Transition, Pend, LogInv, NameAfter;
    ByteRefines(cfg, m, marks, log, data, p);
  }

  /** A byte of a header value in the loop of lines 1440-1617. */
  lemma ValueByte(cfg: Config, m: Machine, marks: Marks, log: seq<Event>, data: string, p: nat)
    requires Mid(m, marks, log, data, p) && p < |data| && m.f.state.HeaderValue?
    requires data[p] != '\r' && data[p] != '\n'
    ensures !cfg.lenient && !IsHeaderChar(data[p]) ==> Step(cfg, m, data[p]) == Stuck(InvalidHeaderToken)
    ensures cfg.lenient || IsHeaderChar(data[p]) ==>
              match ValueChar(m.f, data[p])
              case Fail(e) => Step(cfg, m, data[p]) == Stuck(e) && IsParseError(e)
              case Out(f, _, _, _) => ValueByteOk(cfg, m, f, marks, log, data, p)
  {
    hide Step, Transition, Pend, Inv, LogInv, ValueChar;
    ValueCharActs(m.f, data[p]);
    ValueTransition(cfg, m.f, data[p]);
    ByteRefines(cfg, m, marks, log, data, p);
  }

  lemma ValueTransition(cfg: Config, f: Fields, ch: char)
    requires f.state.HeaderValue? && ch != '\r' && ch != '\n'
    ensures Transition(cfg, f, ch)
         == if !cfg.lenient && !IsHeaderChar(ch) then Fail(InvalidHeaderToken) else ValueChar(f, ch)
  {
    hide ValueChar, IsHeaderChar;
  }

  ghost predicate ValueByteOk(cfg: Config, m: Machine, f: Fields, marks: Marks, log: seq<Event>, data: string, p: nat)
    requires p < |data| && InBuffer(marks, p)
  {
    var n := Machine(f, m.nread + 1, Pend(marks, log, data, p + 1));
    && f.state.HeaderValue? && Step(cfg, m, data[p]) == Went(n, false) && Mid(n, marks, log, data, p + 1)
    && !Zeroes(cfg, m.f, data[p])
  }

  lemma ValueCharActs(f: Fields, ch: char)
    ensures var o := ValueChar(f, ch); o.Out? ==> o == Do(o.f, []) && o.f.state == f.state
  {
  }

  /** The mark that a resumed call starts with joins onto the log. */
  lemma StartMid(m: Machine, data: string)
    requires MachineInv(m)
    ensures Mid(m, StartMarks(m.f.state), m.log, data, 0)
  {
    var marks := StartMarks(m.f.state);
    match StartKind(m.f.state) {
      case None =>
        assert marks.Keys == {};
        PendNone(m.log, data, 0);
      case Some(k) =>
        assert marks.Keys == {k};
        PendOne(k, 0, m.log, data, 0);
        assert data[0..0] == "";
        EmitNothing(m.log, k);
    }
    hide Pend, Inv;
  }

  lemma ReachStart(cfg: Config, m: Machine, data: string, cap: int, even: bool)
    ensures Reaches(cfg, m, data, m, 0, cap, even)
  {
  }

  lemma ReachFits(cfg: Config, m0: Machine, data: string, m: Machine, p: nat, cap: int, even: bool)
    requires p <= |data| && Reaches(cfg, m0, data, m, p, cap, even)
    requires CallFits(cfg, m0, data, 0, cap)
    ensures m.nread <= cap
    ensures p < |data| ==> Count(m.f, m.nread) <= cap
  {
  }

  lemma MidBuffer(m: Machine, marks: Marks, log: seq<Event>, data: string, p: nat)
    requires Mid(m, marks, log, data, p)
    ensures forall q :: p <= q ==> InBuffer(marks, q)
  {
  }

  lemma MidLength(m: Machine, marks: Marks, log: seq<Event>, data: string, p: nat)
    requires Mid(m, marks, log, data, p) && (m.f.state.BodyIdentity? || m.f.state.ChunkData?)
    ensures m.f.length > 0
  {
  }

  lemma MidPend(m: Machine, marks: Marks, log: seq<Event>, data: string, p: nat)
    requires Mid(m, marks, log, data, p)
    ensures InBuffer(marks, p) && m.log == Pend(marks, log, data, p)
  {
  }

  /** Out of bytes: the run is over, and the live mark, if any, is flushed. */
  lemma MidEnd(cfg: Config, m0: Machine, m: Machine, marks: Marks, log: seq<Event>, data: string, cap: int, even: bool)
    requires Mid(m, marks, log, data, |data|) && Reaches(cfg, m0, data, m, |data|, cap, even)
    ensures CallFold(cfg, m0, data, 0) == Result(m, |data|, Ran) && (CallZeroes(cfg, m0, data, 0) ==> even)
    ensures m.log == Leftover(marks, log, data) && MachineInv(m) && Opened(marks, log)
    ensures marks == map[] || exists k :: k in marks && marks == map[k := marks[k]]
  {
    FitSplit(m.f.state, marks);
    assert data[..|data|] == data;
  }

  // ----- a call against the single bytes -----

  /** The byte after which a call jumps is, on its own, one more byte of the value. */
  lemma JumpByte(cfg: Config, m: Machine, ch: char)
    requires Jumps(cfg, m.f, ch) && LastIs(m.log, Value)
    ensures Step(cfg, m, ch) == Went(Machine(m.f, m.nread + 1, Emit(m.log, Data(Value, [ch]))), false)
  {
    assert Transition(cfg, m.f, ch) == Do(m.f, []);
    StepQuiet(cfg, m, ch);
    hide Transition, Step, Emit;
  }

  lemma SkippedMore(m: Machine, data: string, p: nat, q: nat)
    requires p < q <= |data| && LastIs(m.log, Value)
    ensures Skipped(m, data, q, q) == m
    ensures Skipped(Skipped(m, data, p, p + 1), data, p + 1, q) == Skipped(m, data, p, q)
  {
    EmitNothing(m.log, Value);
    assert data[q..q] == "" && data[p..p + 1] + data[p + 1..q] == data[p..q];
    EmitEmit(m.log, Value, data[p..p + 1], data[p + 1..q]);
    hide Emit;
  }

  /** Over clean bytes a jump is a run of single bytes. */
  lemma {:induction false} JumpBytes(cfg: Config, m: Machine, data: string, p: nat, q: nat, cap: int)
    requires m.f.state.HeaderValue? && m.f.hstate.General? && LastIs(m.log, Value)
    requires p <= q <= |data| && NoLineEnd(data, p, q) && Clean(cfg, m, data, p)
    ensures var n := Skipped(m, data, p, q);
            && Fold(cfg, m, data, p) == Fold(cfg, n, data, q) && Clean(cfg, n, data, q)
            && (Fits(cfg, m, data, p, cap) ==> Fits(cfg, n, data, q, cap))
    decreases q - p
  {
    hide Step, Emit;
    if p < q {
      JumpByte(cfg, m, data[p]);
      SkippedMore(m, data, p, q);
      assert data[p..p + 1] == [data[p]];
      JumpBytes(cfg, Skipped(m, data, p, p + 1), data, p + 1, q, cap);
    } else {
      EmitNothing(m.log, Value);
      assert data[p..q] == "";
    }
  }

  lemma SkippedInv(m: Machine, data: string, p: nat, q: nat)
    requires MachineInv(m) && m.f.state.HeaderValue? && p <= q <= |data|
    ensures LastIs(m.log, Value) && MachineInv(Skipped(m, data, p, q)) && Skipped(m, data, p, q).f == m.f
  {
    hide Inv, Emit;
    EmitKeepsEnd(m.log, Value, data[p..q]);
  }

  /** Where a clean call goes, the machine goes byte by byte. */
  lemma {:induction false} CallIsFold(cfg: Config, m: Machine, data: string, p: nat, cap: int)
    requires p <= |data| && MachineInv(m) && Clean(cfg, m, data, p)
    ensures CallFold(cfg, m, data, p) == Fold(cfg, m, data, p)
    ensures Fits(cfg, m, data, p, cap) ==> CallFits(cfg, m, data, p, cap)
    decreases |data| - p
  {
    hide Step, MachineInv, IsHeaderChar, Skipped;
    if p < |data| {
      if Jumps(cfg, m.f, data[p]) {
        var q := LineEnd(data, p);
        SkippedInv(m, data, p, q);
        JumpBytes(cfg, m, data, p, q, cap);
        CallIsFold(cfg, Skipped(m, data, p, q), data, q, cap);
      } else {
        StepKept(cfg, m, data[p]);
        match Step(cfg, m, data[p])
        case Went(n, false) => CallIsFold(cfg, n, data, p + 1, cap);
        case _ =>
      }
    }
  }

  /** The one-byte machine looks at every byte of a header value. */
  lemma UncleanStuck(cfg: Config, m: Machine, ch: char)
    requires m.f.state.HeaderValue? && !cfg.lenient && !IsHeaderChar(ch)
    ensures Step(cfg, m, ch) == Stuck(InvalidHeaderToken)
  {
  }
}
