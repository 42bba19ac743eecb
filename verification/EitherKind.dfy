/** A parser of both kinds takes a message for a request or a response by its first two bytes. */
module EitherKind {
  import opened Chars
  import opened Numbers
  import opened ParserState
  import opened ByteTransition
  import opened StepMachine
  import opened Stepping
  import opened Reading
  import opened Refusals
  import opened RequestLines

  function AsRequest(m: Machine): Machine { m.(f := m.f.(state := StartReq, m := m.f.m.(kind := Request))) }

  function AsResponse(m: Machine): Machine { m.(f := m.f.(state := StartRes, m := m.f.m.(kind := Response))) }

  lemma OtherLetters(cfg: Config, f: Fields, c: char)
    requires f.state.StartReqOrRes? && c != '\r' && c != '\n' && c != 'H'
    ensures Transition(cfg, f, c) == Transition(cfg, f.(state := StartReq, m := f.m.(kind := Request)), c)
  {
    hide StartReqStep;
  }

  /** The fields after a first H and after one more letter. */
  lemma AfterH(cfg: Config, f: Fields, c: char)
    requires f.state.StartReqOrRes?
    ensures Transition(cfg, f, 'H') == Do(Fresh(f).(state := ResOrRespH), [Notify(MessageBegin)])
    ensures Transition(cfg, Fresh(f).(state := ResOrRespH), c) ==
        if c == 'T' then Do(Fresh(f).(state := ResHT, m := Fresh(f).m.(kind := Response)), [])
        else if c == 'E' then
          Do(Fresh(f).(state := ReqMethod, index := 2, m := Fresh(f).m.(kind := Request, verb := HEAD)), [])
        else Fail(InvalidConstant)
  {
  }

  lemma AfterRequestH(cfg: Config, f: Fields, c: char)
    requires f.state.StartReq?
    ensures Transition(cfg, f, 'H')
        == Do(Fresh(f).(state := ReqMethod, index := 1, m := Fresh(f).m.(verb := HEAD)), [Notify(MessageBegin)])
    ensures Transition(cfg, Fresh(f).(state := ReqMethod, index := 1, m := Fresh(f).m.(verb := HEAD)), 'E')
        == Do(Fresh(f).(state := ReqMethod, index := 2, m := Fresh(f).m.(verb := HEAD)), [])
  {
  }

  lemma AfterResponseH(cfg: Config, f: Fields, c: char)
    requires f.state.StartRes?
    ensures Transition(cfg, f, 'H') == Do(Fresh(f).(state := ResH), [Notify(MessageBegin)])
    ensures Transition(cfg, Fresh(f).(state := ResH), 'T') == Do(Fresh(f).(state := ResHT), [])
  {
  }

  /** Two bytes, the first of which begins a message. */
  lemma TwoBytes(cfg: Config, m: Machine, t: string, g: Fields, h: Fields)
    requires |t| >= 2 && StartKind(m.f.state).None? && StartKind(g.state).None? && Counts(m)
    requires !g.state.ChunkSizeStart? && ParsingHeader(m.f.state) && ParsingHeader(g.state)
    requires Transition(cfg, m.f, t[0]) == Do(g, [Notify(MessageBegin)]) && Transition(cfg, g, t[1]) == Do(h, [])
    ensures Fold(cfg, m, t, 0) == Fold(cfg, Machine(h, m.nread + 2, m.log + [Note(MessageBegin)]), t, 2)
  {
    hide Transition, Step, ParsingHeader, StartKind;
    StepNotify(cfg, m, t[0], MessageBegin);
    var n := Machine(g, m.nread + 1, m.log + [Note(MessageBegin)]);
    Quiet(cfg, n, t[1], h);
    FoldGo(cfg, m, t, 0, n);
    FoldGo(cfg, n, t, 1, Machine(h, m.nread + 2, m.log + [Note(MessageBegin)]));
  }

  /** The same outcome, but for what a first byte that is refused leaves. */
  predicate SameResult(a: Result, b: Result) { a.end == b.end && (a.end.Failed? || a == b) }

  lemma FirstSame(cfg: Config, m: Machine, n: Machine, t: string)
    requires t != "" && m.nread == n.nread && m.log == n.log && StartKind(m.f.state).None? && StartKind(n.f.state).None?
    requires Counts(m) && Counts(n) && ParsingHeader(m.f.state) && ParsingHeader(n.f.state)
    requires !m.f.state.ChunkSizeStart? && !n.f.state.ChunkSizeStart?
    requires Transition(cfg, m.f, t[0]) == Transition(cfg, n.f, t[0])
    ensures SameResult(Fold(cfg, m, t, 0), Fold(cfg, n, t, 0))
  {
    hide Transition, Perform, Leftover, ParsingHeader, StartKind;
  }

  lemma StartStates()
    ensures StartKind(StartReqOrRes).None? && StartKind(StartReq).None? && StartKind(StartRes).None?
        && StartKind(ResOrRespH).None? && StartKind(ReqMethod).None? && StartKind(ResH).None?
    ensures ParsingHeader(StartReqOrRes) && ParsingHeader(StartReq) && ParsingHeader(StartRes)
        && ParsingHeader(ResOrRespH) && ParsingHeader(ReqMethod) && ParsingHeader(ResH)
  {
  }

  lemma SameFresh(f: Fields, s: State, k: MessageType)
    ensures Fresh(f.(state := s, m := f.m.(kind := k))) == Fresh(f).(state := s, m := Fresh(f).m.(kind := k))
  {
  }

  /** HE is read as a request. */
  lemma HeadRead(cfg: Config, m: Machine, t: string)
    requires m.f.state.StartReqOrRes? && |t| >= 2 && t[0] == 'H' && t[1] == 'E'
    ensures Fold(cfg, m, t, 0) == Fold(cfg, AsRequest(m), t, 0)
  {
    hide Transition, Step, Fold, Fresh, ParsingHeader, StartKind;
    StartStates();
    SameFresh(m.f, StartReq, Request);
    var r := AsRequest(m);
    var h := Fresh(m.f).(state := ReqMethod, index := 2, m := Fresh(m.f).m.(kind := Request, verb := HEAD));
    AfterH(cfg, m.f, 'E');
    AfterRequestH(cfg, r.f, 'E');
    TwoBytes(cfg, m, t, Fresh(m.f).(state := ResOrRespH), h);
    TwoBytes(cfg, r, t, Fresh(r.f).(state := ReqMethod, index := 1, m := Fresh(r.f).m.(verb := HEAD)), h);
  }

  /** HT is read as a response. */
  lemma ProtocolRead(cfg: Config, m: Machine, t: string)
    requires m.f.state.StartReqOrRes? && |t| >= 2 && t[0] == 'H' && t[1] == 'T'
    ensures Fold(cfg, m, t, 0) == Fold(cfg, AsResponse(m), t, 0)
  {
    hide Transition, Step, Fold, Fresh, ParsingHeader, StartKind;
    StartStates();
    SameFresh(m.f, StartRes, Response);
    var r := AsResponse(m);
    var h := Fresh(m.f).(state := ResHT, m := Fresh(m.f).m.(kind := Response));
    AfterH(cfg, m.f, 'T');
    AfterResponseH(cfg, r.f, 'T');
    TwoBytes(cfg, m, t, Fresh(m.f).(state := ResOrRespH), h);
    TwoBytes(cfg, r, t, Fresh(r.f).(state := ResH), h);
  }

  lemma NeitherRead(cfg: Config, m: Machine, t: string)
    requires m.f.state.StartReqOrRes? && |t| >= 2 && t[0] == 'H' && t[1] != 'E' && t[1] != 'T'
    ensures Fold(cfg, m, t, 0).end == Failed(InvalidConstant)
  {
    hide Transition, Step, Fold, Fresh, ParsingHeader, StartKind;
    StartStates();
    AfterH(cfg, m.f, t[1]);
    StepNotify(cfg, m, 'H', MessageBegin);
    var n := Machine(Fresh(m.f).(state := ResOrRespH), m.nread + 1, m.log + [Note(MessageBegin)]);
    FoldGo(cfg, m, t, 0, n);
    StepFail(cfg, n, t[1], InvalidConstant);
    FoldStuck(cfg, n, t, 1, InvalidConstant);
  }

  /** A message that starts with HT is read as a response, one that starts with HE or another letter as a request,
      and H with anything else behind it is refused. */
  lemma EitherExact(cfg: Config, m: Machine, t: string)
    requires m.f.state.StartReqOrRes? && t != "" && t[0] != '\r' && t[0] != '\n'
    ensures t[0] != 'H' || (|t| >= 2 && t[1] == 'E') ==>
        SameResult(Fold(cfg, m, t, 0), Fold(cfg, AsRequest(m), t, 0))
    ensures |t| >= 2 && t[0] == 'H' && t[1] == 'T' ==>
        SameResult(Fold(cfg, m, t, 0), Fold(cfg, AsResponse(m), t, 0))
    ensures |t| >= 2 && t[0] == 'H' && t[1] != 'E' && t[1] != 'T' ==>
        Fold(cfg, m, t, 0).end == Failed(InvalidConstant)
  {
    hide Transition, Fold, ParsingHeader, StartKind;
    if t[0] != 'H' {
      StartStates();
      OtherLetters(cfg, m.f, t[0]);
      FirstSame(cfg, m, AsRequest(m), t);
    } else if |t| >= 2 {
      if t[1] == 'E' { HeadRead(cfg, m, t); }
      else if t[1] == 'T' { ProtocolRead(cfg, m, t); }
      else { NeitherRead(cfg, m, t); }
    }
  }
}
