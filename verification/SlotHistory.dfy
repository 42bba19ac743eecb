/** The callback slots of the connections, along the runs of the scheduler: what a run does to one
    connection is a history that the slot is made for. */
module SlotHistory {
  import opened ErrorHandling
  import opened Scheduler
  import opened SchedulerInvariant
  import opened SchedulerSteps
  import opened SchedulerResults
  import T = HttpContent

  /** What an event of the scheduler is to the slot of connection `h`. */
  function Happening(h: Handle, e: Event): seq<T.Event> {
    match e
    case RunStart(g) => if g == h then [T.Start] else []
    case RunCancel(g, report) => if g == h then [T.End(report.ec)] else []
    case Complete(g, report) => if g == h then [T.End(report.ec)] else []
    case _ => []
  }

  function History(h: Handle, es: seq<Event>): seq<T.Event> {
    if es == [] then [] else Happening(h, es[0]) + History(h, es[1..])
  }

  /** The starts and ends of a history, without the heads and body bytes that come in between. */
  function Bare(xs: seq<T.Event>): seq<T.Event> {
    if xs == [] then []
    else Bare(xs[..|xs| - 1]) + if xs[|xs| - 1].Start? || xs[|xs| - 1].End? then [xs[|xs| - 1]] else []
  }

  /** How often the run handled a report of connection `h`. */
  function Handled(st: Settings, w: World, es: seq<Event>, h: Handle): nat
    decreases |es|
  {
    if es == [] || !Enabled(w, es[0]) then 0
    else One(es[0].RunDone? && w.posts.done[es[0].k].handle == h) + Handled(st, Next(st, w, es[0]), es[1..], h)
  }

  // ----- one event -----

  lemma {:induction false} CancelArms(w: World, token: nat, i: nat)
    requires i <= |w.table|
    ensures var v := CancelFrom(w, token, i); v.armed == w.armed && v.posts.done == w.posts.done
    decreases |w.table| - i
  {
    if i < |w.table| {
      if w.table[i].token < token { CancelArms(w, token, i + 1); }
      else { CancelArms(CancelOne(w, i), token, if w.table[i].phase.InProgress? then i + 1 else i); }
    }
  }

  /** The reports of a connection waiting to be handled grow by the calls of its slot, and shrink by what is
      handled. */
  predicate Matches(w: World, v: World, h: Handle, s: T.Slot, t: T.Slot, handled: nat) {
    && t.armed == (h in v.armed)
    && |t.calls| + CountDone(w.posts.done, h) == |s.calls| + CountDone(v.posts.done, h) + handled
  }

  lemma EventSlot(st: Settings, w: World, e: Event, h: Handle, s: T.Slot)
    requires Inv(st, w) && Enabled(w, e) && s.armed == (h in w.armed)
    ensures T.WellUsed(s, Happening(h, e))
    ensures Matches(w, Next(st, w, e), h, s, T.Run(s, Happening(h, e)),
        One(e.RunDone? && w.posts.done[e.k].handle == h))
  {
    hide Inv, CountDone, CancelFrom, ExecuteWaiting, Done, CompleteSlot, IsFirst, IsFound, T.Run, T.WellUsed;
    OneUsed(s, T.Start);
    NoneUsed(s);
    match e {
      case RunStart(g) => RunStartKept(st, w, g);
      case RunCancel(g, report) =>
        EndSlot(w.(posts := w.posts.(cancels := w.posts.cancels - multiset{g})), g, report, h, s);
      case Complete(g, report) => EndSlot(w, g, report, h, s);
      case RunCancelAll(token) =>
        CancelArms(w.(posts := w.posts.(cancelAlls := w.posts.cancelAlls - multiset{token})), token, 0);
      case RunDone(k, found) =>
        DoneArms(st, w, k, found);
        CountDoneAt(w.posts.done, k, h);
      case RunSubmit(id, first) => StartArms(st, Inserted(w, id), first);
      case RunWakeup(first) => StartArms(st, w.(posts := w.posts.(wakeups := w.posts.wakeups - 1)), first);
      case _ =>
    }
  }

  lemma StartArms(st: Settings, w: World, i: nat)
    ensures var v := ExecuteWaiting(st, w, i); v.armed == w.armed && v.posts.done == w.posts.done
  {
    hide Active, Acquire;
  }

  lemma DoneArms(st: Settings, w: World, k: nat, found: nat)
    requires Enabled(w, RunDone(k, found))
    ensures var v := Done(st, w, k, found); v.armed == w.armed && v.posts.done == Without(w.posts.done, k)
  {
    hide Release, ProcessErrors, IsFound;
  }

  lemma OneUsed(s: T.Slot, e: T.Event)
    ensures T.Run(s, [e]) == T.Step(s, e) && (T.WellUsed(s, [e]) <==> e.Start? ==> !s.armed)
  {
    T.RunOne(s, e);
    assert [e][..0] == [] && T.Run(s, [e][..0]) == s;
    hide T.Step;
  }

  lemma NoneUsed(s: T.Slot)
    ensures T.Run(s, []) == s && T.WellUsed(s, [])
  {
  }

  lemma EndSlot(w: World, g: Handle, report: Report, h: Handle, s: T.Slot)
    requires s.armed == (h in w.armed)
    ensures var (v, e) := (CompleteSlot(w, g, report), T.End(report.ec));
            && (g == h ==> T.WellUsed(s, [e]) && Matches(w, v, h, s, T.Run(s, [e]), 0))
            && (g != h ==> Matches(w, v, h, s, s, 0))
  {
    hide CountDone;
    OneUsed(s, T.End(report.ec));
    CountDoneConcat(w.posts.done, [Completion(g, report)], h);
    CountDoneSingle(Completion(g, report), h);
    hide T.Run, T.WellUsed;
  }

  // ----- runs -----

  lemma {:induction false} UsedThen(s: T.Slot, x: seq<T.Event>, y: seq<T.Event>)
    requires T.WellUsed(s, x) && T.WellUsed(T.Run(s, x), y)
    ensures T.WellUsed(s, x + y)
    decreases |y|
  {
    hide T.Run;
    if y == [] {
      assert x + y == x;
    } else {
      var so := y[..|y| - 1];
      assert (x + y)[..|x + y| - 1] == x + so;
      UsedThen(s, x, so);
      T.RunConcat(s, x, so);
    }
  }

  lemma {:induction false} RunMatches(st: Settings, w: World, es: seq<Event>, v: World, h: Handle, s: T.Slot)
    requires Inv(st, w) && IsRun(st, w, es, v) && s.armed == (h in w.armed)
    ensures T.WellUsed(s, History(h, es)) && Matches(w, v, h, s, T.Run(s, History(h, es)), Handled(st, w, es, h))
    decreases |es|
  {
    hide Inv, Enabled, Next, CountDone, T.Run, T.WellUsed, Happening;
    if es == [] {
      NoneUsed(s);
    } else {
      var (n, x, y) := (Next(st, w, es[0]), Happening(h, es[0]), History(h, es[1..]));
      EventKept(st, w, es[0]);
      EventSlot(st, w, es[0], h, s);
      RunMatches(st, n, es[1..], v, h, T.Run(s, x));
      UsedThen(s, x, y);
      T.RunConcat(s, x, y);
    }
  }

  /** Heads and body bytes change nothing of when the slot is set and how often it is called. */
  lemma {:induction false} BareSame(s: T.Slot, xs: seq<T.Event>)
    ensures T.WellUsed(s, xs) <==> T.WellUsed(s, Bare(xs))
    ensures T.Run(s, xs).armed == T.Run(s, Bare(xs)).armed && |T.Run(s, xs).calls| == |T.Run(s, Bare(xs)).calls|
  {
    if xs != [] {
      var (so, e) := (xs[..|xs| - 1], xs[|xs| - 1]);
      BareSame(s, so);
      if e.Start? || e.End? {
        assert Bare(xs) == Bare(so) + [e] && (Bare(so) + [e])[..|Bare(so)|] == Bare(so);
      } else {
        assert Bare(xs) == Bare(so) + [] == Bare(so);
      }
    }
  }

  /** Whatever is received in between, a run of the scheduler uses the slot of every connection as it is
      meant to be used, so all that is proved of such histories holds of every connection.  The slot is set
      when the scheduler has it armed, and its callback has run once for every report that waits or was
      handled. */
  lemma SlotsOfRun(st: Settings, es: seq<Event>, v: World, h: Handle, xs: seq<T.Event>)
    requires IsRun(st, INITIALLY, es, v) && Bare(xs) == History(h, es)
    ensures T.WellUsed(T.UNUSED, xs)
    ensures var t := T.Run(T.UNUSED, xs);
            && t.armed == (h in v.armed)
            && |t.calls| == CountDone(v.posts.done, h) + Handled(st, INITIALLY, es, h)
  {
    hide Inv, T.Run, T.WellUsed, IsRun, Handled, Bare, History;
    InitiallyOk(st);
    RunMatches(st, INITIALLY, es, v, h, T.UNUSED);
    BareSame(T.UNUSED, xs);
  }
}
