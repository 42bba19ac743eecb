/** Other ways to write a head: lines that end in a bare LF, and a status line that ends behind its code. */
module LineFeeds {
  import opened Numbers
  import opened ParserState
  import opened UrlChar
  import opened ByteTransition
  import opened StepMachine
  import opened ParserInvariant
  import opened LogInvariant
  import opened Refinement
  import opened Calls
  import opened Stepping
  import opened Reading
  import opened HeaderLine
  import H = ResponseHead

  /** The same run, but for the header bytes counted. */
  predicate Alike(r: Result, q: Result) {
    r.end == q.end && (!r.end.Failed? ==> r.m.f == q.m.f && r.m.log == q.m.log)
  }

  predicate StepsAlike(a: Stepped, b: Stepped) {
    match a
    case Stuck(e) => b == Stuck(e)
    case Went(n, exit) => b.Went? && b.exit == exit && b.m.f == n.f && b.m.log == n.log
  }

  // ----- the count does not matter -----

  lemma StepAlike(cfg: Config, m: Machine, k: Machine, ch: char)
    requires MachineInv(m) && MachineInv(k) && m.f == k.f && m.log == k.log
    ensures var (a, b) := (Step(cfg, m, ch), Step(cfg, k, ch));
            StepsAlike(a, b) && (a.Went? ==> MachineInv(a.m) && MachineInv(b.m))
  {
    StepKept(cfg, m, ch);
    StepKept(cfg, k, ch);
    hide Transition, Perform, Leftover, Inv, LogInv;
  }

  /** What the parser does with a text depends on the count of header bytes only where the limit stops it. */
  lemma {:induction false} FoldAlike(cfg: Config, m: Machine, k: Machine, data: string, p: nat)
    requires MachineInv(m) && MachineInv(k) && m.f == k.f && m.log == k.log && p <= |data|
    ensures Alike(Fold(cfg, m, data, p), Fold(cfg, k, data, p))
    decreases |data| - p
  {
    hide Step, MachineInv;
    if p < |data| {
      StepAlike(cfg, m, k, data[p]);
      match Step(cfg, m, data[p])
      case Went(n, false) => FoldAlike(cfg, n, Step(cfg, k, data[p]).m, data, p + 1);
      case _ =>
    }
  }

  // ----- line ends -----

  /** Where a CR that the parser accepts ends a line of a head. */
  predicate AtLine(s: State) {
    || s.HeaderFieldStart? || s.HeaderValueDiscardWs? || s.HeaderValueDiscardLws? || s.HeaderValue?
    || s.HeaderValueLws? || s.ResStatusCode? || s.ResStatusStart? || s.ResStatus? || s.ReqHttpEnd?
  }

  /** The states whose mark a line end flushes, and those that make an empty fragment of it. */
  predicate Marked(s: State) { s.HeaderValue? || s.ResStatus? }

  predicate Emptied(s: State) { s.HeaderValueDiscardLws? || s.ResStatusCode? || s.ResStatusStart? }

  function EmptyKind(s: State): Kind { if s.HeaderValueDiscardLws? then Value else Status }

  /** CR and then LF go where LF alone goes, and no mark is set. */
  predicate SameEnds(cfg: Config, f: Fields) {
    var o := Transition(cfg, f, '\r');
    && o.Out? && o == Do(o.f, []) && StartKind(o.f.state).None? && !o.f.state.ChunkSizeStart?
    && Transition(cfg, o.f, '\n') == Transition(cfg, f, '\n')
  }

  lemma StartEnds(cfg: Config, f: Fields)
    requires f.state.HeaderFieldStart? || f.state.HeaderValueLws?
    ensures SameEnds(cfg, f)
  {
    hide HeadersAlmostDoneStep, EndOfLine;
  }

  lemma BlankEnds(cfg: Config, f: Fields)
    requires f.state.HeaderValueDiscardWs? || f.state.ReqHttpEnd?
    ensures SameEnds(cfg, f)
  {
  }

  /** In states that set no mark. */
  lemma PlainEnds(cfg: Config, f: Fields)
    requires AtLine(f.state) && !Marked(f.state) && !Emptied(f.state)
    ensures SameEnds(cfg, f)
  {
    hide SameEnds;
    if f.state.HeaderFieldStart? || f.state.HeaderValueLws? { StartEnds(cfg, f); } else { BlankEnds(cfg, f); }
  }

  /** Where one mark is live: both flush it. */
  predicate BothFlush(cfg: Config, f: Fields, k: Kind) {
    var (o, q) := (Transition(cfg, f, '\r'), Transition(cfg, f, '\n'));
    && StartKind(f.state) == Some(k) && o.Out? && o == Do(o.f, [Flush(k, false)])
    && q.Out? && q == Do(q.f, [Flush(k, false)])
    && StartKind(o.f.state).None? && !o.f.state.ChunkSizeStart? && Transition(cfg, o.f, '\n') == Do(q.f, [])
  }

  lemma ValueEnds(cfg: Config, f: Fields)
    requires f.state.HeaderValue?
    ensures BothFlush(cfg, f, Value)
  {
    assert [Flush(Value, false)] + [] == [Flush(Value, false)];
  }

  lemma ReasonEnds(cfg: Config, f: Fields)
    requires f.state.ResStatus?
    ensures BothFlush(cfg, f, Status)
  {
  }

  lemma EmptiedEnds(cfg: Config, f: Fields)
    requires Emptied(f.state)
    ensures var (k, o) := (EmptyKind(f.state), Transition(cfg, f, '\r'));
            && o.Out? && o == Do(o.f, [Mark(k), Flush(k, false)]) && StartKind(o.f.state).None?
            && !o.f.state.ChunkSizeStart? && StartKind(f.state).None?
            && Transition(cfg, f, '\n') == After([Mark(k), Flush(k, false)], Transition(cfg, o.f, '\n'))
  {
    hide HeadersAlmostDoneStep, EndOfLine;
    assert forall acts: seq<Act> :: acts + [] == acts;
  }

  /** An empty fragment before whatever else a byte does. */
  lemma EmptyFirst(k: Kind, acts: seq<Act>, log: seq<Event>, ch: char)
    ensures Perform([Mark(k), Flush(k, false)] + acts, map[], log, [ch], 0)
         == Perform(acts, map[], Emit(log, Data(k, "")), [ch], 0)
  {
    hide Emit;
    var all := [Mark(k), Flush(k, false)] + acts;
    var one: Marks := map[k := 0];
    assert all[0] == Mark(k) && all[1..][0] == Flush(k, false) && all[1..][1..] == acts;
    assert one - {k} == map[] && [ch][0..0] == "";
  }

  lemma EmptyStep(cfg: Config, m: Machine, ch: char, k: Kind, acts: seq<Act>)
    requires Counts(m) && StartKind(m.f.state).None? && Transition(cfg, m.f, ch).Out?
    requires Transition(cfg, m.f, ch).acts == [Mark(k), Flush(k, false)] + acts
    ensures var (o, n) := (Transition(cfg, m.f, ch), Step(cfg, m, ch));
            var (marks, l) := Perform(acts, map[], Emit(m.log, Data(k, "")), [ch], 0);
            n == Went(Now(m, o, if o.exit then l else Leftover(marks, l, [ch])), o.exit)
  {
    hide Transition, Perform, Leftover, Emit;
    EmptyFirst(k, acts, m.log, ch);
  }

  /** The same outcome without marks is the same step. */
  lemma SameStep(cfg: Config, m: Machine, n: Machine, ch: char)
    requires StartKind(m.f.state).None? && StartKind(n.f.state).None? && m.log == n.log && Counts(m) && Counts(n)
    requires Transition(cfg, m.f, ch) == Transition(cfg, n.f, ch)
    ensures StepsAlike(Step(cfg, m, ch), Step(cfg, n, ch))
  {
    hide Transition, Perform, Leftover;
  }

  lemma OneMore(cfg: Config, m: Machine, n: Machine, c: char, x: char)
    requires Step(cfg, m, c) == Went(n, false) && StepsAlike(Step(cfg, n, x), Step(cfg, m, x))
    ensures Alike(Fold(cfg, m, [c, x], 0), Fold(cfg, m, [x], 0))
  {
    hide Step;
    var data := [c, x];
    assert data[0] == c && data[1] == x;
    assert Fold(cfg, m, data, 0) == Fold(cfg, n, data, 1);
  }

  lemma PlainLine(cfg: Config, m: Machine)
    requires Counts(m) && AtLine(m.f.state) && !Marked(m.f.state) && !Emptied(m.f.state)
    ensures Alike(Fold(cfg, m, "\r\n", 0), Fold(cfg, m, "\n", 0))
  {
    hide Transition, Step, Fold, Alike;
    PlainEnds(cfg, m.f);
    var f := Transition(cfg, m.f, '\r').f;
    var n := Machine(f, Count(m.f, m.nread), m.log);
    Quiet(cfg, m, '\r', f);
    SameStep(cfg, n, m, '\n');
    OneMore(cfg, m, n, '\r', '\n');
  }

  lemma MarkedLine(cfg: Config, m: Machine, k: Kind)
    requires BothFlush(cfg, m.f, k) && LastIs(m.log, k) && Counts(m)
    ensures Alike(Fold(cfg, m, "\r\n", 0), Fold(cfg, m, "\n", 0))
  {
    hide Transition, Step, Fold, Alike;
    var (f, g) := (Transition(cfg, m.f, '\r').f, Transition(cfg, m.f, '\n').f);
    var n := Machine(f, Count(m.f, m.nread), m.log);
    Flushes(cfg, m, '\r', f, k);
    Flushes(cfg, m, '\n', g, k);
    Quiet(cfg, n, '\n', g);
    OneMore(cfg, m, n, '\r', '\n');
  }

  lemma EmptiedLine(cfg: Config, m: Machine)
    requires Emptied(m.f.state)
    ensures Alike(Fold(cfg, m, "\r\n", 0), Fold(cfg, m, "\n", 0))
  {
    hide Transition, Step, Fold, Alike, Perform, Leftover, Emit;
    EmptiedEnds(cfg, m.f);
    var (k, o) := (EmptyKind(m.f.state), Transition(cfg, m.f, '\r'));
    var log := Emit(m.log, Data(k, ""));
    var n := Machine(o.f, Count(m.f, m.nread), log);
    assert [Mark(k), Flush(k, false)] + [] == [Mark(k), Flush(k, false)];
    EmptyStep(cfg, m, '\r', k, []);
    PerformNone(map[], log, '\r');
    LeftoverNone(log, ['\r']);
    EmptiedLf(cfg, m, n, k);
    OneMore(cfg, m, n, '\r', '\n');
  }

  lemma EmptiedLf(cfg: Config, m: Machine, n: Machine, k: Kind)
    requires StartKind(m.f.state).None? && StartKind(n.f.state).None? && Counts(m) && Counts(n)
    requires n.log == Emit(m.log, Data(k, ""))
    requires Transition(cfg, m.f, '\n') == After([Mark(k), Flush(k, false)], Transition(cfg, n.f, '\n'))
    ensures StepsAlike(Step(cfg, n, '\n'), Step(cfg, m, '\n'))
  {
    hide Transition, Perform, Leftover, Emit;
    var q := Transition(cfg, n.f, '\n');
    if q.Out? { EmptyStep(cfg, m, '\n', k, q.acts); }
  }

  /** In every state in which a line of a head may end, a bare LF does what CR LF does. */
  lemma BareLf(cfg: Config, m: Machine)
    requires MachineInv(m) && AtLine(m.f.state)
    ensures Alike(Fold(cfg, m, "\r\n", 0), Fold(cfg, m, "\n", 0))
  {
    hide Fold, Alike, Inv, BothFlush;
    if m.f.state.HeaderValue? {
      ValueEnds(cfg, m.f);
      MarkedLine(cfg, m, Value);
    } else if m.f.state.ResStatus? {
      ReasonEnds(cfg, m.f);
      MarkedLine(cfg, m, Status);
    } else if Emptied(m.f.state) {
      EmptiedLine(cfg, m);
    } else {
      PlainLine(cfg, m);
    }
  }

  /** Behind the digits of the code, the blank before the reason may be left out with the reason. */
  lemma BareCode(cfg: Config, m: Machine)
    requires MachineInv(m) && m.f.state.ResStatusCode?
    ensures Alike(Fold(cfg, m, " \r\n", 0), Fold(cfg, m, "\r\n", 0))
  {
    hide Transition, Step, Fold, MachineInv;
    CodeEnds(cfg, m.f);
    var n := m.(f := m.f.(state := ResStatusStart), nread := Count(m.f, m.nread));
    Quiet(cfg, m, ' ', n.f);
    SameStep(cfg, n, m, '\r');
    StepKept(cfg, m, ' ');
    StepAlikeKept(cfg, m, n);
    ReadByte(cfg, m, ' ', n);
    FoldConcat(cfg, m, " ", "\r\n");
    assert " " + "\r\n" == " \r\n";
  }

  lemma CodeEnds(cfg: Config, f: Fields)
    requires f.state.ResStatusCode?
    ensures Transition(cfg, f, ' ') == Do(f.(state := ResStatusStart), [])
    ensures Transition(cfg, f.(state := ResStatusStart), '\r') == Transition(cfg, f, '\r')
  {
  }

  /** The same first step leads to the same run. */
  lemma StepAlikeKept(cfg: Config, m: Machine, n: Machine)
    requires MachineInv(m) && MachineInv(n) && StepsAlike(Step(cfg, n, '\r'), Step(cfg, m, '\r'))
    ensures Alike(Fold(cfg, n, "\r\n", 0), Fold(cfg, m, "\r\n", 0))
  {
    hide Step, MachineInv;
    StepKept(cfg, m, '\r');
    StepKept(cfg, n, '\r');
    var (a, b) := (Step(cfg, n, '\r'), Step(cfg, m, '\r'));
    if a.Went? && !a.exit { FoldAlike(cfg, a.m, b.m, "\r\n", 1); }
  }

  // ----- in a text -----

  lemma {:induction false} FoldKept(cfg: Config, m: Machine, data: string, p: nat)
    requires MachineInv(m) && p <= |data|
    ensures MachineInv(Fold(cfg, m, data, p).m)
    decreases |data| - p
  {
    hide Step, MachineInv;
    if p < |data| {
      StepKept(cfg, m, data[p]);
      match Step(cfg, m, data[p])
      case Went(n, false) => FoldKept(cfg, n, data, p + 1);
      case _ =>
    }
  }

  /** Two pieces of text that do the same do so in the middle of any text. */
  lemma Spliced(cfg: Config, m: Machine, before: string, k: Machine, x: string, y: string, behind: string)
    requires MachineInv(m) && Reads(cfg, m, before, k) && Alike(Fold(cfg, k, x, 0), Fold(cfg, k, y, 0))
    ensures Alike(Fold(cfg, m, before + (x + behind), 0), Fold(cfg, m, before + (y + behind), 0))
  {
    FoldConcat(cfg, m, before, x + behind);
    FoldConcat(cfg, m, before, y + behind);
    FoldConcat(cfg, k, x, behind);
    FoldConcat(cfg, k, y, behind);
    ReadsIs(cfg, m, before, k);
    FoldKept(cfg, m, before, 0);
    FoldKept(cfg, k, x, 0);
    FoldKept(cfg, k, y, 0);
    hide Fold, MachineInv;
    var (r, q) := (Fold(cfg, k, x, 0), Fold(cfg, k, y, 0));
    if r.end.Ran? { FoldAlike(cfg, r.m, q.m, behind, 0); }
  }

  /** So a line of a head may end in a bare LF anywhere: all that is proved of texts with CR LF there
      holds of those texts too, but for the header bytes counted. */
  lemma BareLfText(cfg: Config, m: Machine, before: string, k: Machine, behind: string)
    requires MachineInv(m) && Reads(cfg, m, before, k) && AtLine(k.f.state)
    ensures Alike(Fold(cfg, m, before + ("\r\n" + behind), 0), Fold(cfg, m, before + ("\n" + behind), 0))
  {
    hide Fold, MachineInv, Alike;
    ReadsIs(cfg, m, before, k);
    FoldKept(cfg, m, before, 0);
    BareLf(cfg, k);
    Spliced(cfg, m, before, k, "\r\n", "\n", behind);
  }

  /** The status line may end behind the digits of its code. */
  lemma BareCodeText(cfg: Config, m: Machine, version: string, a: Machine, code: string, behind: string)
    requires MachineInv(m) && Reads(cfg, m, version, a) && a.f.state.ResFirstStatusCode? && H.IsCode(code)
    ensures Alike(Fold(cfg, m, version + code + (" \r\n" + behind), 0),
        Fold(cfg, m, version + code + ("\r\n" + behind), 0))
  {
    hide Fold, MachineInv, Alike, H.IsCode, Reads, Decimal;
    H.ReadDigits(cfg, a, code);
    var k := H.Digits(a, |code|, Decimal(code));
    ReadThen(cfg, m, version, a, code, k);
    ReadsIs(cfg, m, version + code, k);
    FoldKept(cfg, m, version + code, 0);
    BareCode(cfg, k);
    Spliced(cfg, m, version + code, k, " \r\n", "\r\n", behind);
  }
}
