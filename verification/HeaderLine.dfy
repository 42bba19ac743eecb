/** Whole header lines, folded ones too. */
module HeaderLine {
  import opened Chars
  import opened Numbers
  import opened ParserState
  import opened UrlChar
  import opened ByteTransition
  import opened StepMachine
  import opened ParserInvariant
  import opened LogInvariant
  import opened Calls
  import opened Stepping
  import opened Reading
  import opened HeaderName
  import opened Lengths

  /** A header as it is written: white space before the value, and the lines it is folded onto. */
  datatype Header = Header(name: string, leads: seq<string>, value: string, folds: seq<string>)

  /** A header on one line, as `print_request_headers` writes it. */
  function Printed(name: string, value: string): Header { Header(name, [" "], value, []) }

  /** Each fold and its line end. */
  function FoldsText(folds: seq<string>): string {
    if folds == [] then "" else folds[0] + "\r\n" + FoldsText(folds[1..])
  }

  function LineText(h: Header): string { h.name + ":" + Flat(h.leads) + (h.value + "\r\n") + FoldsText(h.folds) }

  /** The value without line ends. */
  function Whole(h: Header): string { h.value + Flat(h.folds) }

  /** A value without line ends that does not start with white space. */
  predicate IsValue(cfg: Config, v: string) {
    (forall c :: c in v ==> IsValueChar(cfg, c)) && (v != "" ==> v[0] != ' ' && v[0] != '\t')
  }

  /** White space, or a line end and white space on the next line. */
  predicate IsLead(lead: string) { lead == " " || lead == "\t" || lead == "\r\n " || lead == "\r\n\t" }

  predicate IsFold(cfg: Config, fold: string) {
    fold != "" && (fold[0] == ' ' || fold[0] == '\t') && forall c :: c in fold ==> IsValueChar(cfg, c)
  }

  /** A header that does not frame the message. */
  predicate IsPlain(cfg: Config, h: Header) {
    && IsName(h.name) && NameState(LowerName(h.name)).General? && IsValue(cfg, h.value)
    && (forall l :: l in h.leads ==> IsLead(l)) && (forall f :: f in h.folds ==> IsFold(cfg, f))
    && (h.value == "" ==> h.folds == [])
  }

  // ----- a plain value -----

  predicate IsPlainState(s: HeaderState) {
    IsNameState(s) && !s.Connection? && !s.ContentLength? && !s.TransferEncoding? && !s.Upgrade?
  }

  lemma PlainTransition(cfg: Config, f: Fields, c: char)
    ensures f.state.HeaderValueDiscardWs? && (c == ' ' || c == '\t') ==> Transition(cfg, f, c) == Do(f, [])
    ensures f.state.HeaderValueDiscardWs? && IsPlainState(f.hstate) && c != '\r' && c != '\n'
            && c != ' ' && c != '\t' ==>
              Transition(cfg, f, c) == Do(f.(state := HeaderValue, hstate := General, index := 0), [Mark(Value)])
    ensures f.state.HeaderValue? && f.hstate.General? && IsValueChar(cfg, c) ==> Transition(cfg, f, c) == Do(f, [])
  {
  }

  lemma EndTransition(cfg: Config, f: Fields)
    ensures f.state.HeaderValue? ==>
        Transition(cfg, f, '\r') == Do(f.(state := HeaderAlmostDone), [Flush(Value, false)])
    ensures f.state.HeaderAlmostDone? ==> Transition(cfg, f, '\n') == Do(f.(state := HeaderValueLws), [])
    ensures f.state.HeaderValueDiscardWs? ==>
        Transition(cfg, f, '\r') == Do(f.(state := HeaderValueDiscardWsAlmostDone), [])
    ensures f.state.HeaderValueDiscardWsAlmostDone? ==>
        Transition(cfg, f, '\n') == Do(f.(state := HeaderValueDiscardLws), [])
  {
  }

  lemma FoldTransition(cfg: Config, f: Fields, c: char)
    requires c == ' ' || c == '\t'
    ensures f.state.HeaderValueDiscardLws? ==> Transition(cfg, f, c) == Do(f.(state := HeaderValueDiscardWs), [])
    ensures f.state.HeaderValueLws? && f.hstate.General? ==>
              Transition(cfg, f, c) == Do(f.(state := HeaderValue, index := 0), [Mark(Value)])
  {
  }

  function PlainRead(m: Machine, v: string): Machine {
    Machine(m.f.(state := HeaderValue, hstate := General, index := 0), m.nread + |v|, Emit(m.log, Data(Value, v)))
  }

  lemma NoLineEndIn(cfg: Config, c: char)
    requires IsValueChar(cfg, c)
    ensures c != '\r' && c != '\n'
  {
  }

  lemma ValueChars(cfg: Config, v: string)
    requires v != "" && IsValue(cfg, v)
    ensures v[0] != ' ' && v[0] != '\t' && v[0] != '\r' && v[0] != '\n'
    ensures forall c :: c in v[1..] ==> IsValueChar(cfg, c)
  {
    assert v[0] in v;
    NoLineEndIn(cfg, v[0]);
    forall c | c in v[1..] ensures IsValueChar(cfg, c) { assert c in v; }
    hide IsValueChar;
  }

  lemma ReadPlain(cfg: Config, m: Machine, v: string)
    requires m.f.state.HeaderValueDiscardWs? && IsPlainState(m.f.hstate) && v != "" && IsValue(cfg, v)
    ensures Reads(cfg, m, v, PlainRead(m, v))
  {
    hide Transition, Fold, Step, Emit, IsPlainState, Reads, IsValueChar, ParsingHeader, IsValue;
    ParsingStates();
    ValueChars(cfg, v);
    var c, rest := v[0], v[1..];
    var n := PlainRead(m, [c]);
    assert v == [c] + rest;
    PlainTransition(cfg, m.f, c);
    Sets(cfg, m, c, n.f, Value);
    ReadByte(cfg, m, c, n);
    forall d | d in rest ensures Transition(cfg, n.f, d) == Do(n.f, []) { PlainTransition(cfg, n.f, d); }
    ReadLoop(cfg, n, rest);
    EmitEmit(m.log, Value, [c], rest);
    ReadThen(cfg, m, [c], n, rest, PlainRead(m, v));
  }

  /** The line end after a value, and after an empty value. */
  lemma ReadLineEnd(cfg: Config, m: Machine)
    ensures m.f.state.HeaderValue? && LastIs(m.log, Value) ==>
              Reads(cfg, m, "\r\n", m.(f := m.f.(state := HeaderValueLws), nread := m.nread + 2))
    ensures m.f.state.HeaderValueDiscardWs? ==>
              Reads(cfg, m, "\r\n", m.(f := m.f.(state := HeaderValueDiscardLws), nread := m.nread + 2))
  {
    hide Transition, Fold, Step, Reads;
    assert ['\r'] + ['\n'] == "\r\n";
    EndTransition(cfg, m.f);
    if m.f.state.HeaderValue? && LastIs(m.log, Value) {
      var n := m.(f := m.f.(state := HeaderAlmostDone), nread := m.nread + 1);
      EndTransition(cfg, n.f);
      Flushes(cfg, m, '\r', n.f, Value);
      ReadByte(cfg, m, '\r', n);
      Quiet(cfg, n, '\n', n.f.(state := HeaderValueLws));
      ReadBytes(cfg, m, "\r", n, '\n', m.(f := m.f.(state := HeaderValueLws), nread := m.nread + 2));
    } else if m.f.state.HeaderValueDiscardWs? {
      var n := m.(f := m.f.(state := HeaderValueDiscardWsAlmostDone), nread := m.nread + 1);
      EndTransition(cfg, n.f);
      Quiet(cfg, m, '\r', n.f);
      ReadByte(cfg, m, '\r', n);
      Quiet(cfg, n, '\n', n.f.(state := HeaderValueDiscardLws));
      ReadBytes(cfg, m, "\r", n, '\n', m.(f := m.f.(state := HeaderValueDiscardLws), nread := m.nread + 2));
    }
  }

  /** White space before the value, over any number of lines. */
  lemma {:induction false} ReadLeads(cfg: Config, m: Machine, leads: seq<string>)
    requires m.f.state.HeaderValueDiscardWs? && forall l :: l in leads ==> IsLead(l)
    ensures Reads(cfg, m, Flat(leads), m.(nread := m.nread + |Flat(leads)|))
    decreases |leads|
  {
    hide Reads, IsLead;
    if leads == [] {
      ReadNothing(cfg, m);
    } else {
      var l, rest := leads[0], leads[1..];
      assert l in leads && forall x :: x in rest ==> x in leads;
      ReadLead(cfg, m, l);
      var n := m.(nread := m.nread + |l|);
      ReadLeads(cfg, n, rest);
      ReadThen(cfg, m, l, n, Flat(rest), n.(nread := n.nread + |Flat(rest)|));
    }
  }

  lemma ReadLead(cfg: Config, m: Machine, lead: string)
    requires m.f.state.HeaderValueDiscardWs? && IsLead(lead)
    ensures Reads(cfg, m, lead, m.(nread := m.nread + |lead|))
  {
    hide Transition, Step, Reads;
    var c := lead[|lead| - 1];
    if |lead| == 1 {
      assert lead == [c];
      PlainTransition(cfg, m.f, c);
      Quiet(cfg, m, c, m.f);
      ReadByte(cfg, m, c, m.(nread := m.nread + 1));
    } else {
      ReadLineEnd(cfg, m);
      var n := m.(f := m.f.(state := HeaderValueDiscardLws), nread := m.nread + 2);
      FoldTransition(cfg, n.f, c);
      Quiet(cfg, n, c, m.f);
      ReadBytes(cfg, m, "\r\n", n, c, m.(nread := m.nread + 3));
      assert lead == "\r\n" + [c];
    }
  }

  /** A fold joins onto the value. */
  predicate Folding(m: Machine) {
    m.f.state.HeaderValueLws? && m.f.hstate.General? && m.f.index == 0 && LastIs(m.log, Value)
  }

  function FoldRead(m: Machine, text: string, value: string): Machine {
    m.(nread := m.nread + |text|, log := Emit(m.log, Data(Value, value)))
  }

  lemma ReadFold(cfg: Config, m: Machine, fold: string)
    requires Folding(m) && IsFold(cfg, fold)
    ensures Reads(cfg, m, fold + "\r\n", FoldRead(m, fold + "\r\n", fold))
  {
    hide Transition, Fold, Step, Emit, Reads, IsValueChar, ParsingHeader;
    ParsingStates();
    var c, rest := fold[0], fold[1..];
    assert fold == [c] + rest;
    var n := Machine(m.f.(state := HeaderValue), m.nread + 1, Emit(m.log, Data(Value, [c])));
    FoldTransition(cfg, m.f, c);
    Sets(cfg, m, c, n.f, Value);
    ReadByte(cfg, m, c, n);
    forall d | d in rest ensures Transition(cfg, n.f, d) == Do(n.f, []) {
      assert d in fold;
      PlainTransition(cfg, n.f, d);
    }
    ReadLoop(cfg, n, rest);
    EmitEmit(m.log, Value, [c], rest);
    var o := Machine(n.f, m.nread + |fold|, Emit(m.log, Data(Value, fold)));
    ReadThen(cfg, m, [c], n, rest, o);
    ReadLineEnd(cfg, o);
    ReadThen(cfg, m, fold, o, "\r\n", FoldRead(m, fold + "\r\n", fold));
  }

  lemma {:induction false} ReadFolds(cfg: Config, m: Machine, folds: seq<string>)
    requires Folding(m) && forall f :: f in folds ==> IsFold(cfg, f)
    ensures Reads(cfg, m, FoldsText(folds), FoldRead(m, FoldsText(folds), Flat(folds)))
    decreases |folds|
  {
    hide Reads, IsFold, Emit;
    if folds == [] {
      ReadNothing(cfg, m);
      EmitNothing(m.log, Value);
    } else {
      var f, rest := folds[0], folds[1..];
      assert f in folds && forall x :: x in rest ==> x in folds;
      var n := FoldRead(m, f + "\r\n", f);
      ReadFold(cfg, m, f);
      ReadFolds(cfg, n, rest);
      EmitEmit(m.log, Value, f, Flat(rest));
      ReadThen(cfg, m, f + "\r\n", n, FoldsText(rest), FoldRead(m, FoldsText(folds), Flat(folds)));
    }
  }

  // ----- the line is over when the next one starts -----

  /** The machine that the next byte finds, unless that byte continues the line. */
  function Settled(m: Machine): Machine {
    if m.f.state.HeaderValueLws? then m.(f := EndOfLine(m.f).(state := HeaderFieldStart))
    else if m.f.state.HeaderValueDiscardLws?
    then m.(f := EndOfLine(m.f).(state := HeaderFieldStart), log := Emit(m.log, Data(Value, "")))
    else m
  }

  lemma SettledTransition(cfg: Config, m: Machine, ch: char)
    requires ch != ' ' && ch != '\t'
    ensures m.f.state.HeaderValueLws? ==> Transition(cfg, m.f, ch) == Transition(cfg, Settled(m).f, ch)
    ensures m.f.state.HeaderValueDiscardLws? ==>
              Transition(cfg, m.f, ch) == After([Mark(Value), Flush(Value, false)], Transition(cfg, Settled(m).f, ch))
  {
    hide HeaderFieldStartStep, EndOfLine, Emit, After;
  }

  lemma PerformEmptyValue(acts: seq<Act>, log: seq<Event>, ch: char)
    ensures Perform([Mark(Value), Flush(Value, false)] + acts, map[], log, [ch], 0)
         == Perform(acts, map[], Emit(log, Data(Value, "")), [ch], 0)
  {
    var all := [Mark(Value), Flush(Value, false)] + acts;
    assert all[1..][0] == Flush(Value, false);
    assert all[1..][1..] == acts;
    var one: Marks := map[Value := 0];
    assert one - {Value} == map[];
    assert [ch][0..0] == "";
    hide Emit;
  }

  lemma SettledStep(cfg: Config, m: Machine, ch: char)
    requires ch != ' ' && ch != '\t' && (m.f.state.HeaderValueLws? || m.f.state.HeaderValueDiscardLws?)
    ensures Step(cfg, m, ch) == Step(cfg, Settled(m), ch)
  {
    hide Transition, Perform, Leftover, Emit, EndOfLine;
    SettledTransition(cfg, m, ch);
    var o := Transition(cfg, Settled(m).f, ch);
    if m.f.state.HeaderValueDiscardLws? && o.Out? { PerformEmptyValue(o.acts, m.log, ch); }
  }

  /** What follows `text` finds the machine in `n`. */
  predicate Leads(cfg: Config, m: Machine, text: string, n: Machine, rest: string) {
    Fold(cfg, m, text + rest, 0) == var q := Fold(cfg, n, rest, 0); q.(used := |text| + q.used)
  }

  /** A new header line, or the line end that closes the head. */
  predicate StartsLine(rest: string) { rest != "" && (IsToken(rest[0]) || rest[0] == '\r') }

  lemma StartTransition(cfg: Config, f: Fields, ch: char)
    requires f.state.HeaderFieldStart? && (IsToken(ch) || ch == '\r')
    ensures Transition(cfg, f, ch).Out?
  {
  }

  lemma SettledWent(cfg: Config, m: Machine, c: char)
    requires (IsToken(c) || c == '\r') && (m.f.state.HeaderValueLws? || m.f.state.HeaderValueDiscardLws?)
    ensures Step(cfg, Settled(m), c).Went?
  {
    StartTransition(cfg, Settled(m).f, c);
    hide Transition, Perform, Leftover, IsToken, Emit;
  }

  lemma StartChar(c: char)
    requires IsToken(c) || c == '\r'
    ensures c != ' ' && c != '\t'
  {
  }

  /** What starts a line does not tell the machine from the settled one. */
  lemma SettledFold(cfg: Config, n: Machine, rest: string)
    requires StartsLine(rest)
    ensures Fold(cfg, n, rest, 0) == Fold(cfg, Settled(n), rest, 0)
  {
    var c := rest[0];
    if n.f.state.HeaderValueLws? || n.f.state.HeaderValueDiscardLws? {
      hide Step, Settled, IsToken;
      StartChar(c);
      SettledStep(cfg, n, c);
      SettledWent(cfg, n, c);
    } else {
      hide Fold;
    }
  }

  lemma LeadsSettled(cfg: Config, m: Machine, text: string, n: Machine, rest: string)
    requires Reads(cfg, m, text, n) && StartsLine(rest)
    ensures Leads(cfg, m, text, Settled(n), rest)
  {
    hide Step, Settled, Fold, StartsLine;
    FoldConcat(cfg, m, text, rest);
    SettledFold(cfg, n, rest);
  }

  lemma LeadsThen(cfg: Config, m: Machine, a: string, n: Machine, b: string, o: Machine, rest: string)
    requires Leads(cfg, m, a, n, b + rest) && Leads(cfg, n, b, o, rest)
    ensures Leads(cfg, m, a + b, o, rest)
  {
    hide Fold;
    assert a + b + rest == a + (b + rest);
    assert |a| + |b| == |a + b|;
  }

  lemma LeadsReads(cfg: Config, m: Machine, a: string, n: Machine, b: string, o: Machine)
    requires Leads(cfg, m, a, n, b) && Reads(cfg, n, b, o)
    ensures Reads(cfg, m, a + b, o)
  {
    hide Fold;
  }

  // ----- one line -----

  /** A header that announces the length of the body. */
  predicate IsLengthHeader(cfg: Config, h: Header) {
    IsName(h.name) && LowerName(h.name) == CONTENT_LENGTH && IsValue(cfg, h.value) && GoodLength(h.value)
    && h.folds == [] && forall l :: l in h.leads ==> IsLead(l)
  }

  /** The machine after the name, the colon and the white space of a header. */
  function Named(s: Machine, h: Header): Machine
    requires h.name != ""
  {
    var n := NameRead(s, h.name);
    n.(nread := n.nread + 1 + |Flat(h.leads)|, f := n.f.(state := HeaderValueDiscardWs))
  }

  lemma NamedIs(s: Machine, h: Header)
    requires h.name != ""
    ensures Named(s, h).nread == s.nread + |h.name + ":" + Flat(h.leads)|
        && Named(s, h).log == Emit(s.log, Data(Field, h.name))
  {
    hide AfterName, Emit, Flat;
  }

  lemma ReadNameSpace(cfg: Config, s: Machine, h: Header)
    requires s.f.state.HeaderFieldStart? && IsName(h.name) && forall l :: l in h.leads ==> IsLead(l)
    ensures var n := Named(s, h);
            && Reads(cfg, s, h.name + ":" + Flat(h.leads), n)
            && n.f == s.f.(state := HeaderValueDiscardWs, hstate := n.f.hstate, index := n.f.index)
            && (n.f.hstate.ContentLength? <==> LowerName(h.name) == CONTENT_LENGTH)
            && (n.f.hstate.TransferEncoding? <==> LowerName(h.name) == TRANSFER_ENCODING)
            && (n.f.hstate.Connection? <==> LowerName(h.name) == CONNECTION || LowerName(h.name) == PROXY_CONNECTION)
            && (NameState(LowerName(h.name)).General? ==> IsPlainState(n.f.hstate)) && IsNameState(n.f.hstate)
            && (n.f.hstate.Upgrade? <==> LowerName(h.name) == UPGRADE)
  {
    hide NameRead, Fold, Step, Reads, Transition, IsLead;
    ReadNameColon(cfg, s, h.name);
    var n := NameRead(s, h.name);
    var o := n.(nread := n.nread + 1, f := n.f.(state := HeaderValueDiscardWs));
    ReadLeads(cfg, o, h.leads);
    ReadThen(cfg, s, h.name + ":", o, Flat(h.leads), Named(s, h));
  }

  /** The machine after a header line, once another line has started. */
  function LineDone(s: Machine, h: Header): Machine
    requires h.name != ""
  {
    var g := Named(s, h).f.(state := HeaderFieldStart);
    Machine(
      if h.value == "" then g
      else if g.hstate.ContentLength? then LengthFields(g, h.value).(state := HeaderFieldStart)
      else g.(hstate := General, index := 0),
      s.nread + |LineText(h)|,
      Emit(Emit(s.log, Data(Field, h.name)), Data(Value, Whole(h))))
  }

  lemma PlainEndOfLine(f: Fields)
    requires IsPlainState(f.hstate) || f.hstate.ContentLength?
    ensures EndOfLine(f) == f
  {
  }

  lemma ReadValueLine(cfg: Config, n: Machine, v: string, g: Fields)
    requires n.f.state.HeaderValueDiscardWs? && v != "" && IsValue(cfg, v)
    requires if n.f.hstate.ContentLength? then !n.f.m.flags.contentLength && GoodLength(v) && g == LengthFields(n.f, v)
             else IsPlainState(n.f.hstate) && g == n.f.(state := HeaderValue, hstate := General, index := 0)
    ensures Reads(cfg, n, v + "\r\n",
        Machine(g.(state := HeaderValueLws), n.nread + |v| + 2, Emit(n.log, Data(Value, v))))
  {
    hide Fold, Step, Reads, GoodLength, IsPlainState, IsValueChar, Emit;
    var o := Machine(g, n.nread + |v|, Emit(n.log, Data(Value, v)));
    if n.f.hstate.ContentLength? { ReadLength(cfg, n, v); } else { ReadPlain(cfg, n, v); }
    ReadLineEnd(cfg, o);
    ReadThen(cfg, n, v, o, "\r\n", o.(f := g.(state := HeaderValueLws), nread := o.nread + 2));
  }

  lemma EmptyPlain(cfg: Config, h: Header)
    requires h.value == "" && (IsPlain(cfg, h) || IsLengthHeader(cfg, h))
    ensures IsPlain(cfg, h) && Flat([]) == "" && FoldsText([]) == ""
  {
    hide LowerName, IsName;
  }

  lemma ReadLine(cfg: Config, s: Machine, h: Header, rest: string)
    requires s.f.state.HeaderFieldStart? && StartsLine(rest)
    requires IsPlain(cfg, h) || (IsLengthHeader(cfg, h) && !s.f.m.flags.contentLength)
    ensures Leads(cfg, s, LineText(h), LineDone(s, h), rest)
  {
    hide Fold, Step, Reads, GoodLength, IsPlainState, IsValueChar, Emit, Named, LowerName, EndOfLine, StartsLine, Leads,
      IsLead, IsFold, FoldsText, Flat;
    ReadNameSpace(cfg, s, h);
    var n, v := Named(s, h), h.value;
    var head := h.name + ":" + Flat(h.leads);
    NamedIs(s, h);
    if v == "" {
      EmptyPlain(cfg, h);
      ReadLineEnd(cfg, n);
      var o := n.(f := n.f.(state := HeaderValueDiscardLws), nread := n.nread + 2);
      ReadThen(cfg, s, head, n, "\r\n", o);
      assert v + "\r\n" == "\r\n" && head + "\r\n" + "" == head + "\r\n";
      assert LineText(h) == head + "\r\n" && Whole(h) == "";
      PlainEndOfLine(o.f);
      LeadsSettled(cfg, s, LineText(h), o, rest);
    } else {
      ReadValueFolds(cfg, s, h, n, rest);
    }
  }

  lemma LengthIs(f: Fields, v: string, s: State, t: State)
    ensures LengthFields(f, v).hstate.ContentLength? && LengthFields(f, v).state.HeaderValue?
    ensures LengthFields(f.(state := s), v).(state := t) == LengthFields(f, v).(state := t)
  {
    hide Decimal;
  }

  /** The fields in the middle of a value, by the header. */
  function ValueFields(f: Fields, v: string): Fields {
    if f.hstate.ContentLength? then LengthFields(f, v) else f.(state := HeaderValue, hstate := General, index := 0)
  }

  lemma ReadValueFolds(cfg: Config, s: Machine, h: Header, n: Machine, rest: string)
    requires s.f.state.HeaderFieldStart? && StartsLine(rest) && h.name != "" && h.value != "" && n == Named(s, h)
    requires IsPlain(cfg, h) || (IsLengthHeader(cfg, h) && !n.f.m.flags.contentLength)
    requires n.f.state.HeaderValueDiscardWs? && (n.f.hstate.ContentLength? <==> LowerName(h.name) == CONTENT_LENGTH)
    requires NameState(LowerName(h.name)).General? ==> IsPlainState(n.f.hstate)
    requires Reads(cfg, s, h.name + ":" + Flat(h.leads), n)
    ensures Leads(cfg, s, LineText(h), LineDone(s, h), rest)
  {
    hide Fold, Step, Reads, GoodLength, IsPlainState, IsValueChar, Emit, Named, LowerName, EndOfLine, StartsLine, Leads,
      IsLead, IsFold, FoldsText, Flat, LengthFields;
    var v, head, g := h.value, h.name + ":" + Flat(h.leads), ValueFields(n.f, h.value);
    NamedIs(s, h);
    LengthIs(n.f, v, HeaderFieldStart, HeaderFieldStart);
    LengthIs(n.f, v, HeaderFieldStart, HeaderValueLws);
    ReadValueLine(cfg, n, v, g);
    var o := Machine(g.(state := HeaderValueLws), n.nread + |v| + 2, Emit(n.log, Data(Value, v)));
    ReadThen(cfg, s, head, n, v + "\r\n", o);
    GeneralPlain();
    PlainEndOfLine(o.f);
    var p := FoldRead(o, FoldsText(h.folds), Flat(h.folds));
    ReadLineFolds(cfg, o, h);
    ReadThen(cfg, s, head + (v + "\r\n"), o, FoldsText(h.folds), p);
    EmitEmit(n.log, Value, v, Flat(h.folds));
    LeadsSettled(cfg, s, LineText(h), p, rest);
  }

  lemma GeneralPlain()
    ensures IsPlainState(General)
  {
  }

  /** The folds after a first line, of which a length has none. */
  lemma ReadLineFolds(cfg: Config, m: Machine, h: Header)
    requires (h.folds == [] && LastIs(m.log, Value)) || (Folding(m) && forall f :: f in h.folds ==> IsFold(cfg, f))
    ensures Reads(cfg, m, FoldsText(h.folds), FoldRead(m, FoldsText(h.folds), Flat(h.folds)))
  {
    if h.folds == [] {
      ReadNothing(cfg, m);
      EmitNothing(m.log, Value);
    } else {
      ReadFolds(cfg, m, h.folds);
    }
    hide Reads, Emit;
  }

  // ----- many lines -----

  function Lines(hs: seq<Header>): string {
    if hs == [] then "" else LineText(hs[0]) + Lines(hs[1..])
  }

  /** The callbacks for header lines. */
  function LineEvents(hs: seq<Header>): seq<Event> {
    if hs == [] then [] else [Data(Field, hs[0].name), Data(Value, Whole(hs[0]))] + LineEvents(hs[1..])
  }

  predicate AllPlain(cfg: Config, hs: seq<Header>) { forall h :: h in hs ==> IsPlain(cfg, h) }

  /** Plain header lines leave the fields alone but for the matcher's, and make their callbacks. */
  predicate LinesLead(cfg: Config, s: Machine, hs: seq<Header>, n: Machine, rest: string) {
    && Leads(cfg, s, Lines(hs), n, rest)
    && n == Machine(s.f.(hstate := n.f.hstate, index := n.f.index), s.nread + |Lines(hs)|, s.log + LineEvents(hs))
  }

  lemma LineClosed(s: Machine, h: Header)
    requires s.f.state.HeaderFieldStart? && !LastIs(s.log, Field) && IsName(h.name)
        && NameState(LowerName(h.name)).General?
    ensures var n := LineDone(s, h);
            n == Machine(s.f.(hstate := n.f.hstate, index := n.f.index), s.nread + |LineText(h)|,
              s.log + LineEvents([h]))
  {
    var g := Named(s, h).f;
    NameMatched(s.f, h.name);
    Recognised(LowerName(h.name), g.hstate, g.index);
    assert LineEvents([h]) == [Data(Field, h.name), Data(Value, Whole(h))];
    hide AfterName, LowerName, LineText, Matched;
  }

  lemma LinesStart(hs: seq<Header>, rest: string)
    requires StartsLine(rest) && forall h :: h in hs ==> IsName(h.name)
    ensures StartsLine(Lines(hs) + rest)
  {
    if hs != [] {
      var h := hs[0];
      assert h.name[0] in h.name;
      assert (Lines(hs) + rest)[0] == h.name[0];
    }
  }

  /** The machine after header lines, once another line has started. */
  function LinesDone(s: Machine, hs: seq<Header>): Machine
    decreases |hs|
  {
    if hs == [] || hs[0].name == "" then s else LinesDone(LineDone(s, hs[0]), hs[1..])
  }

  lemma LinesCons(s: Machine, hs: seq<Header>, log: seq<Event>)
    requires hs != [] && hs[0].name != ""
    ensures Lines(hs) == LineText(hs[0]) + Lines(hs[1..]) && LinesDone(s, hs) == LinesDone(LineDone(s, hs[0]), hs[1..])
    ensures log + LineEvents([hs[0]]) + LineEvents(hs[1..]) == log + LineEvents(hs)
  {
    hide LineText, LineDone;
    assert [hs[0]][1..] == [] && LineEvents([]) == [];
  }

  lemma NoLines(cfg: Config, s: Machine, hs: seq<Header>, rest: string)
    requires hs == []
    ensures Leads(cfg, s, Lines(hs), s, rest) && Lines(hs) == "" && LinesDone(s, hs) == s
        && s.log + LineEvents(hs) == s.log
  {
    assert "" + rest == rest;
    hide Fold;
  }

  lemma PlainNames(cfg: Config, hs: seq<Header>)
    requires AllPlain(cfg, hs) && hs != []
    ensures forall x :: x in hs ==> IsName(x.name)
    ensures hs[0].name != "" && NameState(LowerName(hs[0].name)).General? && IsPlain(cfg, hs[0])
  {
    hide LowerName, NameState;
    assert hs[0] in hs;
  }

  lemma {:induction false} ReadLines(cfg: Config, s: Machine, hs: seq<Header>, rest: string) returns (n: Machine)
    requires s.f.state.HeaderFieldStart? && !LastIs(s.log, Field) && AllPlain(cfg, hs) && StartsLine(rest)
    ensures LinesLead(cfg, s, hs, n, rest) && n == LinesDone(s, hs)
    decreases |hs|
  {
    hide Fold, IsPlain, LineText, IsName, StartsLine, LowerName, NameState, IsValue, Leads, LineDone, LineEvents,
      Lines, LinesDone, LastIs;
    if hs == [] {
      n := s;
      NoLines(cfg, s, hs, rest);
    } else {
      var h, tail := hs[0], hs[1..];
      PlainNames(cfg, hs);
      LinesStart(tail, rest);
      ReadLine(cfg, s, h, Lines(tail) + rest);
      LineClosed(s, h);
      var m := LineDone(s, h);
      LineEndsLog(s.log, h);
      n := ReadLines(cfg, m, tail, rest);
      LinesCons(s, hs, s.log);
      LeadsThen(cfg, s, LineText(h), m, Lines(tail), n, rest);
    }
  }

  lemma LineEndsLog(log: seq<Event>, h: Header)
    ensures !LastIs(log + LineEvents([h]), Field)
  {
    assert LineEvents([h]) == [Data(Field, h.name), Data(Value, Whole(h))];
  }
}
