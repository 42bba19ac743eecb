/** A body of a known length: its last byte, and no other, completes the message. */
module IdentityBody {
  import opened Numbers
  import opened ParserState
  import opened ByteTransition
  import opened StepMachine
  import opened ParserInvariant
  import opened LogInvariant
  import opened Calls
  import opened Stepping
  import opened Reading

  /** The fields once the last byte is read. */
  function BodyDone(f: Fields): Fields { f.(state := MessageDone, length := 0) }

  lemma BodyTransition(cfg: Config, f: Fields, c: char)
    requires f.state.BodyIdentity? && 0 < f.length < ULLONG_MAX
    ensures f.length > 1 ==> Transition(cfg, f, c) == Do(f.(length := f.length - 1), [Mark(Body)])
    ensures f.length == 1 ==>
              Transition(cfg, f, c) == Out(f.(state := NewMessage(BodyDone(f)), length := 0),
                [Mark(Body), Flush(Body, true), Notify(MessageComplete(ShouldKeepAlive(BodyDone(f))))], false,
                  f.m.upgrade)
  {
    if f.length == 1 {
      var g := BodyDone(f);
      var done := g.(state := NewMessage(g));
      assert ShouldKeepAlive(done) == ShouldKeepAlive(g);
      assert [Mark(Body), Flush(Body, true)] + [Notify(MessageComplete(ShouldKeepAlive(g)))]
          == [Mark(Body), Flush(Body, true), Notify(MessageComplete(ShouldKeepAlive(g)))];
    }
  }

  /** The machine in the middle of a body. */
  function PartRead(m: Machine, part: string): Machine
    requires |part| <= m.f.length
  {
    Machine(m.f.(length := m.f.length - |part|), m.nread, if part == "" then m.log else Emit(m.log, Data(Body, part)))
  }

  lemma {:induction false} ReadInBody(cfg: Config, m: Machine, part: string)
    requires m.f.state.BodyIdentity? && |part| < m.f.length < ULLONG_MAX
    ensures Reads(cfg, m, part, PartRead(m, part))
    decreases |part|
  {
    hide Transition, Step, Reads, Emit;
    if part == "" {
      ReadNothing(cfg, m);
    } else {
      var c, init := part[|part| - 1], part[..|part| - 1];
      assert part == init + [c];
      ReadInBody(cfg, m, init);
      var n := PartRead(m, init);
      BodyTransition(cfg, n.f, c);
      Sets(cfg, n, c, n.f.(length := n.f.length - 1), Body);
      if init != "" { Grow(m.log, Body, init, c); } else { assert part == [c]; }
      ReadBytes(cfg, m, init, n, c, PartRead(m, part));
    }
  }

  /** The machine after a body. */
  function WholeRead(m: Machine, body: string): Machine {
    var g := BodyDone(m.f);
    Machine(m.f.(state := NewMessage(g), length := 0), m.nread,
            m.log + [Data(Body, body), Note(MessageComplete(ShouldKeepAlive(g)))])
  }

  /** The last byte of a body completes the message. */
  lemma LastByte(cfg: Config, m: Machine, body: string)
    requires m.f.state.BodyIdentity? && |body| == m.f.length < ULLONG_MAX && body != "" && !LastIs(m.log, Body)
        && !m.f.m.upgrade
    ensures var g := BodyDone(m.f);
            Step(cfg, PartRead(m, body[..|body| - 1]), body[|body| - 1]) == Went(WholeRead(m, body), false)
  {
    hide Transition, Step;
    var c, init := body[|body| - 1], body[..|body| - 1];
    assert body == init + [c];
    var (n, g) := (PartRead(m, init), BodyDone(m.f));
    BodyTransition(cfg, n.f, c);
    assert BodyDone(n.f) == g;
    StepBodyEnd(cfg, n, c, MessageComplete(ShouldKeepAlive(g)));
    if init != "" { Grow(m.log, Body, init, c); } else { assert body == [c]; }
    assert m.log + [Data(Body, body)] + [Note(MessageComplete(ShouldKeepAlive(g)))]
        == m.log + [Data(Body, body), Note(MessageComplete(ShouldKeepAlive(g)))];
  }
}
