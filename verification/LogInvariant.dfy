/** How the callbacks of each state end: what a resumed mark joins onto, and that an empty
    header value is never followed by more of the same value. */
module LogInvariant {
  import opened Numbers
  import opened ParserState
  import opened UrlChar
  import opened ByteTransition
  import opened StepMachine
  import opened ParserInvariant
  import opened CallRefinement

  /** The last callback is an empty header value. */
  predicate EndsInEmptyValue(log: seq<Event>) { LastIs(log, Value) && log[|log| - 1].bytes == "" }

  predicate EndsIn(log: seq<Event>, k: Kind) { LastIs(log, k) && log[|log| - 1].bytes != "" }

  /** What the log ends in, state by state. */
  predicate LogInv(s: State, log: seq<Event>) {
    && (StartKind(s).Some? ==> EndsIn(log, StartKind(s).value))
    && (s.HeaderAlmostDone? || s.HeaderValueLws? ==> EndsIn(log, Value))
    && (!s.HeadersAlmostDone? ==> !EndsInEmptyValue(log))
  }

  /** Where no byte has been counted since the last reset. */
  predicate Uncounted(s: State) { s.ChunkSizeStart? || s.BodyIdentityEof? }

  /** The machine between two bytes. */
  predicate MachineInv(m: Machine) {
    && Inv(m.f)
    && (Uncounted(m.f.state) ==> m.nread == 0)
    && LogInv(m.f.state, m.log)
  }

  predicate Ending(s: State, o: Outcome) {
    match o
    case Fail(_) => true
    case Out(f, acts, _, _) =>
      && (|| acts == [] || acts[|acts| - 1].Notify? || acts[|acts| - 1].Mark?
          || (s.ChunkDataAlmostDone? && acts == [Flush(Body, false)])
          || (StartKind(s).Some? && acts == [Flush(StartKind(s).value, false)])
          || acts == [Mark(Status), Flush(Status, false)]
          || (acts == [Mark(Value), Flush(Value, false)] && f.state.HeadersAlmostDone?))
      && (s.HeadersAlmostDone? ==> acts != [])
      && (forall i :: 0 < i < |acts| ==> acts[i] != Mark(Value))
      && (s.HeadersAlmostDone? ==> acts[0] != Mark(Value))
      && (f.state.HeaderAlmostDone? || f.state.HeaderValueLws? ==>
            (acts == [Flush(Value, false)] && s.HeaderValue?) || (acts == [] && s.HeaderAlmostDone?))
      && (Uncounted(f.state) ==> o.reset || s.BodyIdentityEof?)
      && (o.exit ==> acts != [] && acts[|acts| - 1].Notify?)
  }

  lemma CompletedEnding(s: State, f: Fields, reset: bool, exit: bool)
    ensures Ending(s, Completed(f, reset, exit))
  {
  }

  lemma AfterEnding(s: State, acts: seq<Act>, o: Outcome)
    requires o.Out? && o.acts != [] && !o.f.state.HeaderAlmostDone? && !o.f.state.HeaderValueLws?
    requires o.acts[|o.acts| - 1].Notify? || o.acts[|o.acts| - 1].Mark?
    requires (Uncounted(o.f.state) ==> o.reset) && (o.exit ==> o.acts[|o.acts| - 1].Notify?)
    requires Mark(Value) !in o.acts && acts != [] && Mark(Value) !in acts[1..] && !s.HeadersAlmostDone?
    ensures Ending(s, After(acts, o))
  {
  }

  /** The end of a head only notifies. */
  predicate OnlyNotifies(o: Outcome) {
    o.Out? ==>
      && (forall i :: 0 <= i < |o.acts| ==> o.acts[i].Notify?)
      && (Uncounted(o.f.state) ==> o.reset) && (o.exit ==> o.acts != [])
      && !o.f.state.HeaderAlmostDone? && !o.f.state.HeaderValueLws?
  }

  lemma CompletedNotifies(f: Fields, reset: bool, exit: bool)
    ensures OnlyNotifies(Completed(f, reset, exit))
  {
  }

  lemma HeadersDoneNotifies(f: Fields, ch: char)
    ensures OnlyNotifies(HeadersDoneStep(f, ch))
  {
    CompletedNotifies(f, true, true);
    CompletedNotifies(f, true, false);
    hide Completed;
  }

  lemma HeadersAlmostDoneNotifies(cfg: Config, f: Fields, ch: char)
    ensures var o := HeadersAlmostDoneStep(cfg, f, ch); OnlyNotifies(o) && (o.Out? ==> o.acts != [])
  {
    HeadersDoneNotifies(f.(state := HeadersDone, m := Answered(f.m, cfg.answer)), ch);
    CompletedNotifies(f.(state := MessageDone), false, f.m.upgrade);
    hide HeadersDoneStep, Completed;
  }

  lemma HeadersAlmostDoneEnding(s: State, cfg: Config, f: Fields, ch: char)
    ensures Ending(s, HeadersAlmostDoneStep(cfg, f, ch))
  {
    HeadersAlmostDoneNotifies(cfg, f, ch);
    hide HeadersAlmostDoneStep;
  }

  lemma FieldStartEnding(s: State, cfg: Config, f: Fields, ch: char)
    requires !s.HeadersAlmostDone?
    ensures Ending(s, HeaderFieldStartStep(cfg, f, ch))
  {
    HeadersAlmostDoneEnding(s, cfg, f.(state := HeadersAlmostDone), ch);
    hide HeadersAlmostDoneStep;
  }

  lemma EmptyValueEnding(s: State, cfg: Config, f: Fields, ch: char)
    requires !s.HeadersAlmostDone?
    ensures Ending(s, After([Mark(Value), Flush(Value, false)], HeaderFieldStartStep(cfg, f, ch)))
  {
    HeadersAlmostDoneNotifies(cfg, f.(state := HeadersAlmostDone), ch);
    var pre := [Mark(Value), Flush(Value, false)];
    assert pre + [] == pre;
    var o := HeadersAlmostDoneStep(cfg, f.(state := HeadersAlmostDone), ch);
    if ch == '\n' && o.Out? { AfterEnding(s, pre, o); }
    hide HeadersAlmostDoneStep, FieldStartState;
  }

  lemma ValueEnding(cfg: Config, f: Fields, ch: char)
    requires f.state.HeaderValue?
    ensures Ending(f.state, HeaderValueStep(cfg, f, ch))
  {
    assert [Flush(Value, false)] + [] == [Flush(Value, false)];
  }

  lemma LwsEnding(cfg: Config, f: Fields, ch: char)
    requires f.state.HeaderValueLws? || f.state.HeaderValueDiscardLws?
    ensures Ending(f.state, HeaderStep(cfg, f, ch))
  {
    var g := EndOfLine(f).(state := HeaderFieldStart);
    if f.state.HeaderValueLws? {
      FieldStartEnding(f.state, cfg, g, ch);
    } else {
      EmptyValueEnding(f.state, cfg, g, ch);
    }
    hide HeaderFieldStartStep, EndOfLine, ConnectionWord, After;
  }

  lemma HeaderEnding(cfg: Config, f: Fields, ch: char)
    requires Inv(f) && IsHeaderState(f.state)
    ensures Ending(f.state, HeaderStep(cfg, f, ch))
  {
    match f.state {
      case HeaderFieldStart => FieldStartEnding(f.state, cfg, f, ch);
      case HeadersAlmostDone => HeadersAlmostDoneEnding(f.state, cfg, f, ch);
      case HeaderValue => ValueEnding(cfg, f, ch);
      case HeaderValueLws => LwsEnding(cfg, f, ch);
      case HeaderValueDiscardLws => LwsEnding(cfg, f, ch);
      case _ =>
    }
    hide HeadersAlmostDoneStep, HeaderFieldStartStep, FieldChar, HeaderValueStep, ConnectionWord,
      HeaderValueLwsStep, HeaderValueDiscardLwsStep;
  }

  lemma ChunkEnding(f: Fields, ch: char)
    requires IsChunkState(f.state)
    ensures Ending(f.state, ChunkStep(f, ch))
  {
  }

  lemma BodyEnding(f: Fields, ch: char)
    requires Inv(f) && IsBodyState(f.state)
    ensures Ending(f.state, BodyStep(f, ch))
  {
    if IsChunkState(f.state) { ChunkEnding(f, ch); }
    CompletedEnding(f.state, f.(state := MessageDone, length := 0), false, f.m.upgrade);
    hide ChunkStep;
  }

  lemma StatusEnding(f: Fields, ch: char)
    requires IsStatusState(f.state)
    ensures Ending(f.state, StatusStep(f, ch))
  {
    hide ResStatusCodeStep, ResStatusStartStep;
    if f.state.ResStatusCode? { ResStatusEnding(f, ch); }
    if f.state.ResStatusStart? { ResStatusEnding(f, ch); }
  }

  lemma ResStatusEnding(f: Fields, ch: char)
    ensures Ending(f.state, ResStatusStartStep(f, ch)) || f.state.HeadersAlmostDone?
    ensures Ending(f.state, ResStatusCodeStep(f, ch)) || !f.state.ResStatusCode?
  {
  }

  lemma RequestEnding(f: Fields, ch: char)
    requires Inv(f)
    requires !IsHeaderState(f.state) && !IsBodyState(f.state) && !IsStatusState(f.state) && !f.state.Dead?
    ensures Ending(f.state, RequestStep(f, ch))
  {
    hide ParseUrlChar, MethodString, OtherMethod, FirstMethod;
  }

  lemma TransitionEnding(cfg: Config, f: Fields, ch: char)
    requires Inv(f)
    ensures Ending(f.state, Transition(cfg, f, ch))
  {
    if IsHeaderState(f.state) { HeaderEnding(cfg, f, ch); }
    else if IsBodyState(f.state) { BodyEnding(f, ch); }
    else if IsStatusState(f.state) { StatusEnding(f, ch); }
    else if !f.state.Dead? { RequestEnding(f, ch); }
    hide HeaderStep, BodyStep, StatusStep, RequestStep;
  }

  // ----- one byte -----

  lemma NotifyTail(acts: seq<Act>, marks: Marks, log: seq<Event>, ch: char)
    requires InBuffer(marks, 0) && |acts| > 0 && acts[|acts| - 1].Notify?
    ensures !EndsInEmptyValue(Perform(acts, marks, log, [ch], 0).1)
  {
    var n := |acts| - 1;
    assert acts == acts[..n] + [acts[n]];
    PerformLast(acts[..n], acts[n], marks, log, [ch], 0);
    hide Perform;
  }

  lemma MarkTail(acts: seq<Act>, marks: Marks, log: seq<Event>, ch: char)
    requires InBuffer(marks, 0) && |acts| > 0 && acts[|acts| - 1].Mark?
    ensures TouchAll(acts, marks.Keys) != {}
  {
    var n := |acts| - 1;
    assert acts == acts[..n] + [acts[n]];
    PerformLast(acts[..n], acts[n], marks, log, [ch], 0);
    PerformKeys(acts, marks, log, [ch], 0);
    assert acts[n].kind in Perform(acts, marks, log, [ch], 0).0;
    hide Perform;
  }

  lemma FlushTail(s: State, k: Kind, log: seq<Event>, ch: char)
    requires LogInv(s, log)
    requires k == Body || StartKind(s) == Some(k)
    ensures Perform([Flush(k, false)], StartMarks(s), log, [ch], 0).1 == log
  {
    assert [Flush(k, false)][1..] == [];
    if StartKind(s).Some? { EmitNothing(log, StartKind(s).value); assert [ch][0..0] == ""; }
  }

  lemma StatusTail(s: State, log: seq<Event>, ch: char)
    ensures LastIs(Perform([Mark(Status), Flush(Status, false)], StartMarks(s), log, [ch], 0).1, Status)
  {
    assert [Mark(Status), Flush(Status, false)] == [Mark(Status)] + [Flush(Status, false)];
    PerformLast([Mark(Status)], Flush(Status, false), StartMarks(s), log, [ch], 0);
    PerformKeys([Mark(Status)], StartMarks(s), log, [ch], 0);
    TouchOne(Mark(Status), StartMarks(s).Keys);
    assert Status in Perform([Mark(Status)], StartMarks(s), log, [ch], 0).0;
    hide Perform;
  }

  /** A byte that leaves no mark live. */
  lemma LogTail(s: State, o: Outcome, log: seq<Event>, ch: char)
    requires o.Out? && LogInv(s, log) && Ending(s, o) && StartKind(o.f.state).None?
    requires TouchAll(o.acts, StartKeys(s)) == {}
    ensures LogInv(o.f.state, Perform(o.acts, StartMarks(s), log, [ch], 0).1)
  {
    var marks := StartMarks(s);
    assert marks.Keys == StartKeys(s);
    var n := |o.acts|;
    if n > 0 && o.acts[n - 1].Notify? {
      NotifyTail(o.acts, marks, log, ch);
    } else if n > 0 && o.acts[n - 1].Mark? {
      MarkTail(o.acts, marks, log, ch);
      assert false;
    } else if n == 1 {
      FlushTail(s, o.acts[0].kind, log, ch);
    } else if n == 2 && !o.f.state.HeadersAlmostDone? {
      StatusTail(s, log, ch);
    }
    hide TouchAll;
  }

  /** A byte that leaves a mark live. */
  lemma LogMarked(s: State, marks: Marks, k: Kind, log: seq<Event>, ch: char)
    requires marks == map[k := 0]
    requires Fit(s, {k}) && !s.HeaderAlmostDone? && !s.HeaderValueLws?
    ensures LogInv(s, Leftover(marks, log, [ch]))
  {
    LeftoverOne(k, 0, log, [ch]);
    assert [ch][0..] == [ch];
    hide Leftover;
  }

  lemma MapOne(marks: Marks, k: Kind)
    requires marks.Keys == {k} && InBuffer(marks, 0)
    ensures marks == map[k := 0]
  {
    assert k in marks;
  }

  lemma BodyOnly(s: State)
    ensures BodyKinds(s) <= {Body}
  {
  }

  /** The marks live at the end of a one-byte call. */
  lemma LiveMark(s: State, o: Outcome, log: seq<Event>, ch: char) returns (live: Option<Kind>)
    requires o.Out? && KeysFit(o, StartKeys(s), StartKeys(s))
    ensures Perform(o.acts, StartMarks(s), log, [ch], 0).0
        == (match live case None => map[] case Some(k) => map[k := 0])
    ensures TouchAll(o.acts, StartKeys(s)) == match live case None => {} case Some(k) => {k}
  {
    hide Perform, TouchAll, Orderly, StartKind, BodyKinds;
    var marks := Perform(o.acts, StartMarks(s), log, [ch], 0).0;
    PerformKeys(o.acts, StartMarks(s), log, [ch], 0);
    assert StartMarks(s).Keys == StartKeys(s);
    BodyOnly(o.f.state);
    live := if StartKind(o.f.state).Some? then StartKind(o.f.state) else if Body in marks then Some(Body) else None;
    if live.Some? {
      assert marks.Keys == {live.value};
      MapOne(marks, live.value);
    } else {
      assert marks.Keys == {};
      assert marks == map[];
    }
  }

  /** The log of a one-byte call keeps its invariant. */
  lemma LogKept(s: State, o: Outcome, log: seq<Event>, ch: char)
    requires o.Out? && !o.exit && LogInv(s, log) && Ending(s, o) && KeysFit(o, StartKeys(s), StartKeys(s))
    ensures var (marks, l) := Perform(o.acts, StartMarks(s), log, [ch], 0);
            LogInv(o.f.state, Leftover(marks, l, [ch]))
  {
    var (marks, l) := Perform(o.acts, StartMarks(s), log, [ch], 0);
    var live := LiveMark(s, o, log, ch);
    if live.None? {
      LeftoverNone(l, [ch]);
      LogTail(s, o, log, ch);
    } else {
      LogMarked(o.f.state, marks, live.value, l, ch);
    }
    hide Perform, TouchAll, Leftover, LogInv, Orderly;
  }

  lemma {:induction false} PerformKeys(acts: seq<Act>, marks: Marks, log: seq<Event>, data: string, p: nat)
    requires InBuffer(marks, p) && p < |data|
    ensures Perform(acts, marks, log, data, p).0.Keys == TouchAll(acts, marks.Keys)
  {
    if acts != [] {
      var (m, l) := PerformOne(acts[0], marks, log, data, p);
      assert m.Keys == Touch(acts[0], marks.Keys);
      PerformKeys(acts[1..], m, l, data, p);
    }
  }

  lemma LeftoverNone(log: seq<Event>, data: string)
    ensures Leftover(map[], log, data) == log
  {
    var none: Marks := map[];
    assert forall k: Kind :: none - {k} == none;
  }

  lemma LeftoverOne(k: Kind, i: nat, log: seq<Event>, data: string)
    requires i <= |data|
    ensures Leftover(map[k := i], log, data) == Emit(log, Data(k, data[i..]))
  {
    var m: Marks := map[k := i];
    assert forall j: Kind :: j != k ==> m - {j} == m;
    assert m - {k} == map[];
    var none: Marks := map[];
    assert forall j: Kind :: none - {j} == none;
    assert data[i..|data|] == data[i..];
  }

  /** The last macro decides how the log ends. */
  lemma {:induction false} PerformLast(acts: seq<Act>, a: Act, marks: Marks, log: seq<Event>, data: string, p: nat)
    requires InBuffer(marks, p) && p < |data|
    ensures var (m, l) := Perform(acts, marks, log, data, p);
            Perform(acts + [a], marks, log, data, p) == PerformOne(a, m, l, data, p)
  {
    if acts == [] {
      assert acts + [a] == [a];
      assert [a][1..] == [];
    } else {
      assert (acts + [a])[1..] == acts[1..] + [a];
      var (m, l) := PerformOne(acts[0], marks, log, data, p);
      PerformLast(acts[1..], a, m, l, data, p);
    }
  }
}
