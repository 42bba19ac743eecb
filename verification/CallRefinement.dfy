/** Why one call over a whole buffer, with its marks, makes the same joined callbacks as
    one call per byte. */
module CallRefinement {
  import opened Numbers
  import opened ParserState
  import opened UrlChar
  import opened ByteTransition
  import opened StepMachine
  import opened ParserInvariant

  // ----- which marks are live -----

  function Touch(a: Act, keys: set<Kind>): set<Kind> {
    match a case Mark(k) => keys + {k} case Flush(k, _) => keys - {k} case Notify(_) => keys
  }

  function TouchAll(acts: seq<Act>, keys: set<Kind>): set<Kind> {
    if acts == [] then keys else TouchAll(acts[1..], Touch(acts[0], keys))
  }

  /** The macros of a byte respect the marks: `long` are those live in the call, `short` those
      that a call starting at this byte would have set. */
  predicate Orderly(acts: seq<Act>, long: set<Kind>, short: set<Kind>) {
    acts == [] ||
    (&& (match acts[0]
         case Mark(k) => long <= {k}
         case Flush(k, whole) => whole ==> k in short
         case Notify(_) => long == {})
     && Orderly(acts[1..], Touch(acts[0], long), Touch(acts[0], short)))
  }

  /** States in which a body mark may be live: it is not set again when a call resumes. */
  function BodyKinds(s: State): set<Kind> {
    if s.BodyIdentity? || s.BodyIdentityEof? || s.ChunkData? || s.ChunkDataAlmostDone? then {Body} else {}
  }

  function StartKeys(s: State): set<Kind> { match StartKind(s) case None => {} case Some(k) => {k} }

  /** At most one mark is live, and the state says which (the `assert` of lines 2009-2013). */
  predicate Fit(s: State, keys: set<Kind>) {
    match StartKind(s) case Some(k) => keys == {k} case None => keys <= BodyKinds(s)
  }

  predicate KeysFit(o: Outcome, long: set<Kind>, short: set<Kind>) {
    match o
    case Fail(_) => true
    case Out(f, acts, _, exit) =>
      && Orderly(acts, long, short)
      && TouchAll(acts, long) == TouchAll(acts, short)
      && Fit(f.state, TouchAll(acts, long))
      && (exit ==> TouchAll(acts, long) == {})
  }

  lemma TouchOne(a: Act, keys: set<Kind>)
    ensures TouchAll([a], keys) == Touch(a, keys)
  {
    assert [a][1..] == [];
  }

  lemma TouchTwo(a: Act, b: Act, keys: set<Kind>)
    ensures TouchAll([a, b], keys) == Touch(b, Touch(a, keys))
  {
    assert [a, b][1..] == [b];
    TouchOne(b, Touch(a, keys));
  }

  /** A mark set, or set again, and left live. */
  lemma MarkStays(k: Kind, long: set<Kind>)
    requires long <= {k}
    ensures Orderly([Mark(k)], long, {})
    ensures TouchAll([Mark(k)], long) == {k} == TouchAll([Mark(k)], {})
  {
    TouchOne(Mark(k), long);
    TouchOne(Mark(k), {});
    assert [Mark(k)][1..] == [];
    assert Orderly([Mark(k)][1..], long + {k}, {k});
  }

  /** A mark set and flushed within one byte. */
  lemma MarkFlush(k: Kind, whole: bool, long: set<Kind>)
    requires long <= {k}
    ensures Orderly([Mark(k), Flush(k, whole)], long, {})
    ensures TouchAll([Mark(k), Flush(k, whole)], long) == {} == TouchAll([Mark(k), Flush(k, whole)], {})
  {
    var acts := [Mark(k), Flush(k, whole)];
    assert acts[1..] == [Flush(k, whole)];
    assert acts[1..][1..] == [];
    assert Orderly(acts[1..], long + {k}, {k});
    TouchTwo(Mark(k), Flush(k, whole), long);
    TouchTwo(Mark(k), Flush(k, whole), {});
  }

  /** Macros in front of an outcome whose own macros are orderly. */
  lemma KeysAfter(acts: seq<Act>, o: Outcome, long: set<Kind>, short: set<Kind>)
    requires o.Out? ==> Orderly(acts, long, short)
    requires KeysFit(o, TouchAll(acts, long), TouchAll(acts, short))
    ensures KeysFit(After(acts, o), long, short)
  {
    if o.Out? { OrderlyConcat(acts, o.acts, long, short); }
  }

  lemma {:induction false} OrderlyConcat(a: seq<Act>, b: seq<Act>, long: set<Kind>, short: set<Kind>)
    requires Orderly(a, long, short)
    requires Orderly(b, TouchAll(a, long), TouchAll(a, short))
    ensures Orderly(a + b, long, short)
    ensures TouchAll(a + b, long) == TouchAll(b, TouchAll(a, long))
    ensures TouchAll(a + b, short) == TouchAll(b, TouchAll(a, short))
  {
    if a == [] {
      assert a + b == b;
    } else {
      assert (a + b)[1..] == a[1..] + b;
      OrderlyConcat(a[1..], b, Touch(a[0], long), Touch(a[0], short));
    }
  }

  lemma CompletedKeys(f: Fields, reset: bool, exit: bool)
    ensures KeysFit(Completed(f, reset, exit), {}, {})
  {
    TouchOne(Notify(MessageComplete(ShouldKeepAlive(f.(state := NewMessage(f))))), {});
  }

  lemma HeadersDoneKeys(f: Fields, ch: char)
    ensures KeysFit(HeadersDoneStep(f, ch), {}, {})
  {
    CompletedKeys(f, true, true);
    CompletedKeys(f, true, false);
    hide Completed;
  }

  lemma HeadersAlmostDoneKeys(cfg: Config, f: Fields, ch: char)
    ensures KeysFit(HeadersAlmostDoneStep(cfg, f, ch), {}, {})
  {
    var g := f.(state := MessageDone);
    CompletedKeys(g, false, g.m.upgrade);
    TouchOne(Notify(ChunkComplete), {});
    KeysAfter([Notify(ChunkComplete)], MessageDoneStep(g), {}, {});
    var h := f.(state := HeadersDone, m := Answered(f.m, cfg.answer));
    HeadersDoneKeys(h, ch);
    TouchOne(Notify(HeadersComplete(f.m.statusCode)), {});
    KeysAfter([Notify(HeadersComplete(f.m.statusCode))], HeadersDoneStep(h, ch), {}, {});
    hide HeadersDoneStep, Completed, KeysFit;
  }

  lemma FieldStartKeys(cfg: Config, f: Fields, ch: char)
    ensures KeysFit(HeaderFieldStartStep(cfg, f, ch), {}, {})
  {
    HeadersAlmostDoneKeys(cfg, f.(state := HeadersAlmostDone), ch);
    TouchOne(Mark(Field), {});
    hide HeadersAlmostDoneStep;
  }

  lemma ValueStartKeys(f: Fields, ch: char)
    ensures KeysFit(HeaderValueStartStep(f, ch), {}, {})
  {
    TouchOne(Mark(Value), {});
  }

  lemma LwsKeys(cfg: Config, f: Fields, ch: char)
    ensures KeysFit(HeaderValueLwsStep(cfg, f, ch), {}, {})
    ensures KeysFit(HeaderValueDiscardLwsStep(cfg, f, ch), {}, {})
  {
    var o := HeaderFieldStartStep(cfg, EndOfLine(f).(state := HeaderFieldStart), ch);
    FieldStartKeys(cfg, EndOfLine(f).(state := HeaderFieldStart), ch);
    ValueStartKeys(f.(state := HeaderValueStart), ch);
    MarkFlush(Value, false, {});
    KeysAfter([Mark(Value), Flush(Value, false)], o, {}, {});
    hide HeaderFieldStartStep, HeaderValueStartStep, EndOfLine;
  }

  lemma ValueKeys(cfg: Config, f: Fields, ch: char)
    requires f.state.HeaderValue?
    ensures KeysFit(HeaderValueStep(cfg, f, ch), {Value}, {Value})
  {
    TouchOne(Flush(Value, false), {Value});
    var o := HeaderAlmostDoneStep(f.(state := HeaderAlmostDone), ch);
    assert TouchAll([Flush(Value, false)], {Value}) == {};
    KeysAfter([Flush(Value, false)], o, {Value}, {Value});
  }

  lemma HeaderKeys(cfg: Config, f: Fields, ch: char, long: set<Kind>)
    requires Inv(f) && IsHeaderState(f.state) && Fit(f.state, long)
    ensures KeysFit(HeaderStep(cfg, f, ch), long, StartKeys(f.state))
  {
    assert long == StartKeys(f.state);
    match f.state {
      case HeaderFieldStart => FieldStartKeys(cfg, f, ch);
      case HeaderField => TouchOne(Flush(Field, false), {Field});
      case HeaderValueDiscardWs => ValueStartKeys(f, ch);
      case HeaderValueDiscardLws => LwsKeys(cfg, f, ch);
      case HeaderValueLws => LwsKeys(cfg, f, ch);
      case HeadersAlmostDone => HeadersAlmostDoneKeys(cfg, f, ch);
      case HeaderValue => ValueKeys(cfg, f, ch);
      case _ =>
    }
    hide HeadersAlmostDoneStep, HeaderFieldStartStep, FieldChar, HeaderValueStep, HeaderValueStartStep,
      HeaderValueLwsStep, HeaderValueDiscardLwsStep;
  }

  lemma ChunkKeys(f: Fields, ch: char, long: set<Kind>)
    requires IsChunkState(f.state) && long <= BodyKinds(f.state)
    ensures KeysFit(ChunkStep(f, ch), long, {})
  {
    match f.state {
      case ChunkData => MarkStays(Body, long);
      case ChunkDataAlmostDone => TouchOne(Flush(Body, false), long); TouchOne(Flush(Body, false), {});
      case ChunkDataDone => TouchOne(Notify(ChunkComplete), {});
      case ChunkSizeAlmostDone => TouchOne(Notify(ChunkHeader(f.length)), {});
      case _ =>
    }
  }

  lemma IdentityKeys(f: Fields, long: set<Kind>)
    requires long <= {Body}
    requires f.state.BodyIdentity?
    ensures KeysFit(BodyIdentityStep(f), long, {})
  {
    MarkStays(Body, long);
    MarkFlush(Body, true, long);
    var g := f.(state := MessageDone, length := 0);
    CompletedKeys(g, false, g.m.upgrade);
    KeysAfter([Mark(Body), Flush(Body, true)], MessageDoneStep(g), long, {});
    hide Completed;
  }

  lemma BodyKeys(f: Fields, ch: char, long: set<Kind>)
    requires Inv(f) && IsBodyState(f.state) && Fit(f.state, long)
    ensures KeysFit(BodyStep(f, ch), long, {})
  {
    match f.state {
      case BodyIdentity => IdentityKeys(f, long);
      case BodyIdentityEof =>
        MarkStays(Body, long);
      case _ => ChunkKeys(f, ch, long);
    }
    hide ChunkStep, BodyIdentityStep;
  }

  /** The bytes of a status line that run no macro. */
  lemma VersionKeys(f: Fields, ch: char)
    requires IsStatusState(f.state) && !f.state.StartRes? && !f.state.ResStatus? && !f.state.ResStatusCode?
        && !f.state.ResStatusStart?
    ensures StartKind(f.state).None?
    ensures var o := StatusStep(f, ch); o.Out? ==> o.acts == [] && !o.exit && Fit(o.f.state, {})
  {
  }

  lemma NoKeys(o: Outcome)
    requires o.Out? ==> o.acts == [] && !o.exit && Fit(o.f.state, {})
    ensures KeysFit(o, {}, {})
  {
  }

  lemma StatusKeys(f: Fields, ch: char, long: set<Kind>)
    requires IsStatusState(f.state) && Fit(f.state, long)
    ensures KeysFit(StatusStep(f, ch), long, StartKeys(f.state))
  {
    hide ResStatusStartStep;
    assert long == StartKeys(f.state);
    match f.state {
      case StartRes => TouchOne(Notify(MessageBegin), {});
      case ResStatus => TouchOne(Flush(Status, false), {Status});
      case ResStatusCode => ResStatusStartKeys(f.(state := ResStatusStart), ch);
      case ResStatusStart => ResStatusStartKeys(f, ch);
      case _ =>
        hide StatusStep, KeysFit;
        VersionKeys(f, ch);
        NoKeys(StatusStep(f, ch));
    }
  }

  lemma ResStatusStartKeys(f: Fields, ch: char)
    ensures KeysFit(ResStatusStartStep(f, ch), {}, {})
  {
    TouchOne(Mark(Status), {});
    MarkFlush(Status, false, {});
  }

  lemma UrlKeys(f: Fields, ch: char, long: set<Kind>)
    requires (IsUrlState(f.state) || f.state.ReqSpacesBeforeUrl?) && Fit(f.state, long)
    ensures KeysFit(RequestStep(f, ch), long, StartKeys(f.state))
  {
    assert long == StartKeys(f.state);
    TouchOne(Mark(Url), {});
    TouchOne(Flush(Url, false), {Url});
    hide ParseUrlChar;
  }

  lemma RequestKeys(f: Fields, ch: char, long: set<Kind>)
    requires Inv(f) && Fit(f.state, long)
    requires !IsHeaderState(f.state) && !IsBodyState(f.state) && !IsStatusState(f.state) && !f.state.Dead?
    ensures KeysFit(RequestStep(f, ch), long, StartKeys(f.state))
  {
    if IsUrlState(f.state) || f.state.ReqSpacesBeforeUrl? {
      UrlKeys(f, ch, long);
    } else {
      assert long == StartKeys(f.state);
      TouchOne(Notify(MessageBegin), {});
    }
    hide UrlStep, UrlStartStep, UrlRestStep, MethodString, OtherMethod;
  }

  /** The macros of every byte respect the marks, and leave the marks that the new state calls for. */
  lemma TransitionKeys(cfg: Config, f: Fields, ch: char, long: set<Kind>)
    requires Inv(f) && Fit(f.state, long)
    ensures KeysFit(Transition(cfg, f, ch), long, StartKeys(f.state))
  {
    if IsHeaderState(f.state) { HeaderKeys(cfg, f, ch, long); }
    else if IsBodyState(f.state) { BodyKeys(f, ch, long); }
    else if IsStatusState(f.state) { StatusKeys(f, ch, long); }
    else if !f.state.Dead? { RequestKeys(f, ch, long); }
    hide HeaderStep, BodyStep, StatusStep, RequestStep;
  }

  // ----- the joined callbacks -----

  /** The joined log once the bytes between the live mark and `p` are added. */
  function Pend(marks: Marks, log: seq<Event>, data: string, p: nat): seq<Event>
    requires InBuffer(marks, p) && p <= |data|
  {
    Leftover(marks, log, data[..p])
  }

  ghost predicate One(k: Kind, long: Marks, log: seq<Event>, data: string, p: nat, short: Marks, done: seq<Event>)
    requires k in long && long[k] <= p < |data|
  {
    && long == map[k := long[k]]
    && (if short == map[] then k == Body && Emit(log, Data(k, data[long[k]..p])) == done
        else short == map[k := 0] &&
             (if long[k] == p && log == done then true
              else LastIs(done, k) && Emit(log, Data(k, data[long[k]..p])) == done))
  }

  /** Halfway through the macros of byte `p`: the long call has `long` and `log`, the one-byte
      call has `short` and `done`. */
  ghost predicate Together(long: Marks, log: seq<Event>, data: string, p: nat, short: Marks, done: seq<Event>)
    requires InBuffer(long, p) && p < |data|
  {
    && (long == map[] ==> short == map[] && log == done)
    && (forall k :: k in long ==> One(k, long, log, data, p, short, done))
  }

  lemma TogetherFlush(k: Kind, whole: bool, long: Marks, log: seq<Event>, data: string, p: nat, short: Marks,
      done: seq<Event>)
    requires k in long && long[k] <= p < |data| && InBuffer(short, 0)
    requires One(k, long, log, data, p, short, done)
    requires whole ==> k in short
    ensures FlushMark(k, long, log, data, if whole then p + 1 else p).1
         == FlushMark(k, short, done, [data[p]], if whole then 1 else 0).1
  {
    var i := long[k];
    if whole {
      assert data[i..p + 1] == data[i..p] + [data[p]];
      EmitEmit(log, k, data[i..p], [data[p]]);
      assert [data[p]][0..1] == [data[p]];
      if i == p && log == done { assert data[i..p + 1] == [data[p]]; }
    } else if k in short {
      if i == p && log == done { assert data[i..p] == "" == [data[p]][0..0]; } else { EmitNothing(done, k); }
    }
  }

  lemma TogetherOne(a: Act, long: Marks, log: seq<Event>, data: string, p: nat, short: Marks, done: seq<Event>)
    requires InBuffer(long, p) && p < |data| && InBuffer(short, 0)
    requires Together(long, log, data, p, short, done)
    requires Orderly([a], long.Keys, short.Keys)
    ensures var (l, g) := PerformOne(a, long, log, data, p);
            var (s, d) := PerformOne(a, short, done, [data[p]], 0);
            && l.Keys == Touch(a, long.Keys) && s.Keys == Touch(a, short.Keys)
            && Together(l, g, data, p, s, d)
  {
    match a
    case Mark(k) =>
      if k !in long { assert long == map[]; }
    case Flush(k, whole) =>
      if k in long {
        assert One(k, long, log, data, p, short, done);
        assert long - {k} == map[];
        assert short - {k} == map[];
        TogetherFlush(k, whole, long, log, data, p, short, done);
      } else {
        assert k !in short;
        assert long - {k} == long && short - {k} == short;
      }
    case Notify(n) =>
      assert long == map[];
  }

  lemma {:induction false} TogetherAll(acts: seq<Act>, long: Marks, log: seq<Event>, data: string, p: nat,
                                       short: Marks, done: seq<Event>)
    requires InBuffer(long, p) && p < |data| && InBuffer(short, 0)
    requires Together(long, log, data, p, short, done)
    requires Orderly(acts, long.Keys, short.Keys)
    ensures var (l, g) := Perform(acts, long, log, data, p);
            var (s, d) := Perform(acts, short, done, [data[p]], 0);
            && l.Keys == TouchAll(acts, long.Keys) && s.Keys == TouchAll(acts, short.Keys)
            && Together(l, g, data, p, s, d)
  {
    if acts != [] {
      assert Orderly([acts[0]], long.Keys, short.Keys) by { assert [acts[0]][1..] == []; }
      TogetherOne(acts[0], long, log, data, p, short, done);
      var (l, g) := PerformOne(acts[0], long, log, data, p);
      var (s, d) := PerformOne(acts[0], short, done, [data[p]], 0);
      TogetherAll(acts[1..], l, g, data, p, s, d);
    }
  }
}
