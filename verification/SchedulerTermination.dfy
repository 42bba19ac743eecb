/** Runs end: every event but the user's calls makes a measure smaller. */
module SchedulerTermination {
  import opened Url
  import opened ErrorHandling
  import opened Scheduler
  import opened SchedulerInvariant
  import opened SchedulerSteps

  /** What an entry can still cause: five steps for each attempt left, and this attempt's. */
  function EntryWeight(st: Settings, r: Request): int {
    5 * (st.maxAttempts - r.retries) + (if r.phase.InProgress? then 1 else 5)
  }

  function TableWeight(st: Settings, t: seq<Request>): int {
    if t == [] then 0 else EntryWeight(st, t[0]) + TableWeight(st, t[1..])
  }

  function CancelWeight(st: Settings, n: nat): nat { (st.maxParallel + 1) * n }

  function SubmitWeight(st: Settings, n: nat): nat { (6 + 5 * st.maxAttempts) * n }

  lemma WeightMore(st: Settings, n: nat)
    ensures CancelWeight(st, n + 1) == CancelWeight(st, n) + st.maxParallel + 1
    ensures SubmitWeight(st, n + 1) == SubmitWeight(st, n) + 6 + 5 * st.maxAttempts
  {
  }

  function PostWeight(st: Settings, p: Posts): nat {
    3 * |p.starts| + |p.done| + p.wakeups + |p.cancels| + CancelWeight(st, |p.cancelAlls|)
      + SubmitWeight(st, |p.submits|)
  }

  function Measure(st: Settings, w: World): int { TableWeight(st, w.table) + PostWeight(st, w.posts) + 2 * |w.armed| }

  /** What a call of the user adds, and the step it is. */
  function Cost(st: Settings, e: Event): nat {
    match e
    case Execute(_, _, _) => 7 + 5 * st.maxAttempts
    case Cancel(_) => st.maxParallel + 2
    case _ => 0
  }

  lemma {:induction false} WeightConcat(st: Settings, a: seq<Request>, b: seq<Request>)
    ensures TableWeight(st, a + b) == TableWeight(st, a) + TableWeight(st, b)
  {
    hide EntryWeight;
    if a == [] {
      assert a + b == b;
    } else {
      assert (a + b)[1..] == a[1..] + b;
      WeightConcat(st, a[1..], b);
    }
  }

  lemma WeightSingle(st: Settings, r: Request)
    ensures TableWeight(st, [r]) == EntryWeight(st, r)
  {
    assert [r][1..] == [];
  }

  lemma WeightAt(st: Settings, t: seq<Request>, i: nat)
    requires i < |t|
    ensures TableWeight(st, t) == TableWeight(st, Without(t, i)) + EntryWeight(st, t[i])
  {
    hide EntryWeight, TableWeight;
    var a, b := t[..i], t[i + 1..];
    assert t == a + [t[i]] + b;
    WeightConcat(st, a + [t[i]], b);
    WeightConcat(st, a, [t[i]]);
    WeightConcat(st, a, b);
    WeightSingle(st, t[i]);
  }

  lemma WeightUpdate(st: Settings, t: seq<Request>, i: nat, r: Request)
    requires i < |t|
    ensures TableWeight(st, t[i := r]) == TableWeight(st, t) - EntryWeight(st, t[i]) + EntryWeight(st, r)
  {
    hide EntryWeight, TableWeight;
    WeightAt(st, t, i);
    WeightAt(st, t[i := r], i);
    assert Without(t[i := r], i) == Without(t, i);
  }

  lemma {:induction false} WeightNat(st: Settings, t: seq<Request>)
    requires forall i :: 0 <= i < |t| ==> t[i].retries <= st.maxAttempts
    ensures TableWeight(st, t) >= |t|
  {
    if t != [] { WeightNat(st, t[1..]); }
  }

  lemma MeasureNat(st: Settings, w: World)
    requires Inv(st, w)
    ensures Measure(st, w) >= 0
  {
    forall i | 0 <= i < |w.table| ensures w.table[i].retries <= st.maxAttempts {
      assert RequestOk(st, w.pool, w.table[i]);
    }
    hide TableWeight, Inv, PostWeight;
    WeightNat(st, w.table);
  }

  lemma ExecuteMeasure(st: Settings, w: World, i: nat)
    ensures Measure(st, ExecuteWaiting(st, w, i)) <= Measure(st, w)
  {
    hide TableWeight, Acquire, Active;
    if MayStart(st, w, i) {
      var h := Acquire(w.pool, w.table[i].target).1;
      WeightUpdate(st, w.table, i, w.table[i].(phase := InProgress(h), started := w.table[i].started + 1));
    }
  }

  lemma FinishedMeasure(st: Settings, w: World, i: nat)
    requires i < |w.table| && w.table[i].retries <= st.maxAttempts
    ensures Measure(st, Finished(w, i)) <= Measure(st, w)
  {
    WeightAt(st, w.table, i);
    hide TableWeight;
  }

  lemma ConnMeasure(st: Settings, w: World, i: nat)
    requires i < |w.table| && w.table[i].phase.InProgress?
    ensures Measure(st, CancelOne(w, i)) == Measure(st, w) + 1
  {
    hide TableWeight, CancelWeight, SubmitWeight;
  }

  lemma EntryOk(st: Settings, w: World, i: nat)
    requires Inv(st, w) && i < |w.table|
    ensures RequestOk(st, w.pool, w.table[i])
  {
  }

  /** The cancel loop posts at most one cancellation for each request in progress. */
  lemma {:induction false} CancelMeasure(st: Settings, w: World, token: nat, i: nat)
    requires Inv(st, w) && i <= |w.table|
    ensures Measure(st, CancelFrom(w, token, i)) <= Measure(st, w) + Active(w.table[i..])
    decreases |w.table| - i
  {
    hide Inv, Measure, Active;
    if i < |w.table| {
      assert w.table[i..] == [w.table[i]] + w.table[i + 1..];
      CountConcat([w.table[i]], w.table[i + 1..], 0, 0);
      CountSingle(w.table[i], 0, 0);
      if w.table[i].token < token {
        CancelMeasure(st, w, token, i + 1);
      } else if w.table[i].phase.InProgress? {
        CancelOneKept(st, w, i);
        CancelMeasure(st, CancelOne(w, i), token, i + 1);
        ConnMeasure(st, w, i);
      } else {
        CancelOneKept(st, w, i);
        EntryOk(st, w, i);
        FinishedMeasure(st, w, i);
        assert Finished(w, i).table[i..] == w.table[i + 1..];
        CancelMeasure(st, CancelOne(w, i), token, i);
      }
    }
  }

  lemma DoneMeasure(st: Settings, w: World, k: nat, found: nat)
    requires Inv(st, w) && Enabled(w, RunDone(k, found))
    ensures Measure(st, Done(st, w, k, found)) < Measure(st, w)
  {
    AlwaysFound(w, k, found);
    var r, c := w.table[found], w.posts.done[k];
    assert RequestOk(st, w.pool, r);
    hide Inv, TableWeight, Release, ProcessErrors;
    WeightUpdate(st, w.table, found, Again(r, ProcessErrors(c.report)));
    WeightAt(st, w.table, found);
  }

  lemma CallMeasure(st: Settings, w: World, e: Event)
    requires Inv(st, w) && e.Execute?
    ensures Measure(st, Next(st, w, e)) + 1 <= Measure(st, w) + Cost(st, e)
  {
    assert IdLaw(w, w.next);
    assert w.next !in w.posts.submits;
    hide Inv, TableWeight, CancelWeight, SubmitWeight, CountId;
    WeightMore(st, |w.posts.submits|);
  }

  lemma InsertedMeasure(st: Settings, w: World, id: Id)
    requires id in w.posts.submits && w.posts.submits[id].retries == 0 && w.posts.submits[id].phase.Waiting?
    ensures Measure(st, Inserted(w, id)) + 1 == Measure(st, w)
  {
    hide TableWeight, CancelWeight, SubmitWeight;
    var (r, v) := (w.posts.submits[id], Inserted(w, id));
    WeightConcat(st, w.table, [r]);
    WeightSingle(st, r);
    WeightMore(st, |v.posts.submits|);
    assert |v.posts.submits| + 1 == |w.posts.submits| by { assert w.posts.submits == v.posts.submits[id := r]; }
  }

  lemma SubmitMeasure(st: Settings, w: World, id: Id, first: nat)
    requires Inv(st, w) && Enabled(w, RunSubmit(id, first))
    ensures Measure(st, Next(st, w, RunSubmit(id, first))) + 1 <= Measure(st, w)
  {
    hide TableWeight, ExecuteWaiting, Inserted, IsFirst, Measure, Laws;
    InsertedMeasure(st, w, id);
    ExecuteMeasure(st, Inserted(w, id), first);
  }

  lemma CancelAllMeasure(st: Settings, w: World, e: Event)
    requires Inv(st, w) && Enabled(w, e) && (e.Cancel? || e.RunCancelAll?)
    ensures Measure(st, Next(st, w, e)) + 1 <= Measure(st, w) + Cost(st, e)
  {
    assert Active(w.table) <= st.maxParallel;
    hide TableWeight, CancelFrom, CancelWeight, SubmitWeight, Inv;
    if e.Cancel? {
      WeightMore(st, |w.posts.cancelAlls|);
    } else {
      var v := w.(posts := w.posts.(cancelAlls := w.posts.cancelAlls - multiset{e.token}));
      CancelsKept(st, w, v);
      CancelMeasure(st, v, e.token, 0);
      WeightMore(st, |v.posts.cancelAlls|);
      assert v.table[0..] == v.table;
      assert |v.posts.cancelAlls| + 1 == |w.posts.cancelAlls|;
      MeasureFrom(st, w, v);
    }
  }

  lemma MeasureFrom(st: Settings, w: World, v: World)
    requires v == w.(posts := w.posts.(cancelAlls := v.posts.cancelAlls))
    ensures Measure(st, w) - Measure(st, v)
        == CancelWeight(st, |w.posts.cancelAlls|) - CancelWeight(st, |v.posts.cancelAlls|)
  {
    hide TableWeight, CancelWeight, SubmitWeight;
  }

  /** Every event is paid for: by the measure, or by the user's call. */
  lemma EventMeasure(st: Settings, w: World, e: Event)
    requires Inv(st, w) && Enabled(w, e)
    ensures Measure(st, Next(st, w, e)) + 1 <= Measure(st, w) + Cost(st, e)
  {
    hide TableWeight, ExecuteWaiting, Done, CancelFrom, IsFirst, IsFound, Inv, CancelWeight, SubmitWeight;
    match e {
      case Execute(created, token, target) => CallMeasure(st, w, e);
      case RunSubmit(id, first) => SubmitMeasure(st, w, id, first);
      case Cancel(token) => CancelAllMeasure(st, w, e);
      case RunCancelAll(token) => CancelAllMeasure(st, w, e);
      case RunWakeup(first) => ExecuteMeasure(st, w.(posts := w.posts.(wakeups := w.posts.wakeups - 1)), first);
      case RunStart(h) => StartMeasure(st, w, h);
      case RunCancel(h, report) =>
        SlotMeasure(st, w.(posts := w.posts.(cancels := w.posts.cancels - multiset{h})), h, report);
      case Complete(h, report) => SlotMeasure(st, w, h, report);
      case RunDone(k, found) => DoneMeasure(st, w, k, found);
    }
  }

  lemma StartMeasure(st: Settings, w: World, h: Handle)
    requires Inv(st, w) && h in w.posts.starts
    ensures Measure(st, Next(st, w, RunStart(h))) < Measure(st, w)
  {
    RunStartKept(st, w, h);
    hide Inv, TableWeight, CancelWeight, SubmitWeight;
  }

  lemma SlotMeasure(st: Settings, w: World, h: Handle, report: Report)
    ensures Measure(st, CompleteSlot(w, h, report)) == Measure(st, w) - One(h in w.armed)
  {
    hide TableWeight, CancelWeight, SubmitWeight;
  }

  function Costs(st: Settings, es: seq<Event>): nat { if es == [] then 0 else Cost(st, es[0]) + Costs(st, es[1..]) }

  /** No run is longer than what the user's calls pay for. */
  lemma {:induction false} RunBounded(st: Settings, w: World, es: seq<Event>, v: World)
    requires Inv(st, w) && IsRun(st, w, es, v)
    ensures |es| + Measure(st, v) <= Measure(st, w) + Costs(st, es) && 0 <= Measure(st, v)
    decreases |es|
  {
    hide Inv, Enabled, Next, Measure, Cost;
    MeasureNat(st, w);
    if es != [] {
      EventKept(st, w, es[0]);
      EventMeasure(st, w, es[0]);
      RunBounded(st, Next(st, w, es[0]), es[1..], v);
    }
  }
}
