/** The invariant holds at the start and across every event, so in every reachable state. */
module SchedulerSteps {
  import opened Url
  import opened ErrorHandling
  import opened Scheduler
  import opened SchedulerInvariant

  /** The invariant but for the wake-ups. */
  ghost predicate Most(st: Settings, w: World) {
    && Laws(w) && Active(w.table) == InUse(w) + |w.stuck| && Active(w.table) <= st.maxParallel
    && TableOk(st, w) && SubmitsOk(w) && PoolOk(w.pool)
  }

  lemma InitiallyOk(st: Settings)
    ensures Inv(st, INITIALLY)
  {
  }

  /** The three laws at one request and one connection. */
  predicate LawsAt(w: World, id: Id, h: Handle) { IdLaw(w, id) && HandleLaw(w, h) && ConnLaw(w, h) }

  lemma LawsFrom(w: World)
    requires forall id, h :: LawsAt(w, id, h)
    ensures Laws(w)
  {
    forall id ensures IdLaw(w, id) { assert LawsAt(w, id, 0); }
    forall h ensures HandleLaw(w, h) && ConnLaw(w, h) { assert LawsAt(w, 0, h); }
  }

  lemma LawsGive(w: World, id: Id, h: Handle)
    requires Laws(w)
    ensures IdLaw(w, id) && HandleLaw(w, h) && ConnLaw(w, h)
  {
  }

  // ----- execute_waiting_requests -----

  lemma ExecuteLaws(st: Settings, w: World, i: nat, id: Id, h: Handle)
    requires MayStart(st, w, i) && PoolOk(w.pool) && Laws(w)
    ensures LawsAt(ExecuteWaiting(st, w, i), id, h)
  {
    hide Laws, Acquire, IdleCount, CountDone, PoolOk, CountId, CountConn, Active;
    LawsGive(w, id, h);
    var r := w.table[i];
    DroppedMade(w);
    AcquireKept(w.pool, r.target, h);
    var (pool, x) := Acquire(w.pool, r.target);
    CountUpdate(w.table, i, r.(phase := InProgress(x), started := r.started + 1), id, h);
  }

  lemma ExecuteTable(st: Settings, w: World, i: nat)
    requires MayStart(st, w, i) && PoolOk(w.pool) && Laws(w) && TableOk(st, w)
    ensures var v := ExecuteWaiting(st, w, i);
            TableOk(st, v) && PoolOk(v.pool) && Active(v.table) == Active(w.table) + 1
  {
    hide Acquire, PoolOk, Active, Laws, CountId, CountConn, TableOk, Out;
    var r := w.table[i];
    DroppedMade(w);
    AcquireKept(w.pool, r.target, 0);
    var (pool, x) := Acquire(w.pool, r.target);
    CountUpdate(w.table, i, r.(phase := InProgress(x), started := r.started + 1), 0, 0);
    var v := ExecuteWaiting(st, w, i);
    TableUpdate(st, w, i, v);
  }

  /** A table in which one entry changed, over a pool that may have grown. */
  lemma TableUpdate(st: Settings, w: World, i: nat, v: World)
    requires TableOk(st, w) && i < |w.table| && |v.table| == |w.table| && v.table == w.table[i := v.table[i]]
    requires w.pool.hostOf <= v.pool.hostOf
    requires RequestOk(st, w.pool, w.table[i]) ==> RequestOk(st, v.pool, v.table[i])
    ensures TableOk(st, v)
  {
    forall j | 0 <= j < |v.table| ensures RequestOk(st, v.pool, v.table[j]) {
      assert RequestOk(st, w.pool, w.table[j]) && RequestOk(st, w.pool, w.table[i]);
    }
  }

  lemma ExecuteMost(st: Settings, w: World, i: nat)
    requires Most(st, w)
    ensures Most(st, ExecuteWaiting(st, w, i))
  {
    if MayStart(st, w, i) {
      var v := ExecuteWaiting(st, w, i);
      ExecuteTable(st, w, i);
      forall id, h ensures LawsAt(v, id, h) { ExecuteLaws(st, w, i, id, h); }
      LawsFrom(v);
    }
    hide Laws, TableOk, PoolOk, Active, Acquire;
  }

  lemma {:induction false} AllActive(t: seq<Request>)
    requires forall j :: 0 <= j < |t| ==> t[j].phase.InProgress?
    ensures Active(t) == |t|
  {
    if t != [] { AllActive(t[1..]); }
  }

  /** If the first in the state index is in progress, all are. */
  lemma FirstActive(t: seq<Request>, i: nat)
    requires IsFirst(t, i) && t[i].phase.InProgress?
    ensures Active(t) == |t|
  {
    forall j | 0 <= j < |t| ensures t[j].phase.InProgress? { assert Before(t[i], t[j]); }
    AllActive(t);
  }

  /** A wake-up spent is a place filled, or there was none to fill. */
  lemma ExecuteWoken(st: Settings, w: World, i: nat)
    requires Most(st, w) && (w.table != [] ==> IsFirst(w.table, i))
    requires w.posts.wakeups + 1 >= Min(st.maxParallel - Active(w.table), |w.table| - Active(w.table))
    ensures Woken(st, ExecuteWaiting(st, w, i))
  {
    hide Active, Acquire, IsFirst, Laws, TableOk, PoolOk, SubmitsOk, InUse;
    ActiveBound(w.table);
    if MayStart(st, w, i) {
      ExecuteTable(st, w, i);
    } else if w.table != [] {
      FirstInside(w.table, i);
      if w.table[i].phase.InProgress? { FirstActive(w.table, i); }
    }
  }

  lemma FirstInside(t: seq<Request>, i: nat)
    requires IsFirst(t, i)
    ensures i < |t|
  {
  }

  lemma SameTable(st: Settings, w: World, v: World)
    requires TableOk(st, w) && v.table == w.table && v.pool.hostOf == w.pool.hostOf
    ensures TableOk(st, v)
  {
    forall i | 0 <= i < |v.table| ensures RequestOk(st, v.pool, v.table[i]) {
      assert RequestOk(st, w.pool, w.table[i]);
    }
  }

  lemma SameWoken(st: Settings, w: World, v: World)
    requires Woken(st, w) && v.table == w.table && v.posts.wakeups == w.posts.wakeups
    ensures Woken(st, v)
  {
  }

  lemma SameSubmits(w: World, v: World)
    requires SubmitsOk(w) && v.posts.submits == w.posts.submits
    ensures SubmitsOk(v)
  {
  }

  lemma BusySame(w: World, v: World, h: Handle)
    requires v.posts.starts == w.posts.starts && v.posts.done == w.posts.done && v.armed == w.armed
    ensures Busy(v, h) == Busy(w, h)
  {
  }

  // ----- submission -----

  lemma SubmittedKept(st: Settings, w: World, created: nat, token: nat, target: Host)
    requires Inv(st, w)
    ensures Inv(st, Submitted(w, created, token, target))
  {
    hide CountId, CountConn, CountDone, Active, IdleCount, PoolOk, TableOk, Woken;
    var v := Submitted(w, created, token, target);
    assert IdLaw(w, w.next);
    forall id, h ensures LawsAt(v, id, h) { assert IdLaw(w, id) && HandleLaw(w, h) && ConnLaw(w, h); }
    LawsFrom(v);
    SameTable(st, w, v);
    SameWoken(st, w, v);
  }

  lemma InsertedMost(st: Settings, w: World, id: Id)
    requires Most(st, w) && id in w.posts.submits
    ensures var v := Inserted(w, id); Most(st, v) && Active(v.table) == Active(w.table) && |v.table| == |w.table| + 1
  {
    hide CountId, CountConn, CountDone, Active, IdleCount, PoolOk;
    var (v, r) := (Inserted(w, id), w.posts.submits[id]);
    assert r.id == id && r.phase.Waiting? && r.retries == 0 == r.started;
    forall x, h ensures LawsAt(v, x, h) {
      assert IdLaw(w, x) && HandleLaw(w, h) && ConnLaw(w, h);
      CountAppend(w.table, r, x, h);
    }
    LawsFrom(v);
    CountAppend(w.table, r, 0, 0);
    forall j | 0 <= j < |v.table| ensures RequestOk(st, v.pool, v.table[j]) {
      if j < |w.table| { assert RequestOk(st, w.pool, w.table[j]); }
    }
  }

  lemma RunSubmitKept(st: Settings, w: World, id: Id, first: nat)
    requires Inv(st, w) && Enabled(w, RunSubmit(id, first))
    ensures Inv(st, Next(st, w, RunSubmit(id, first)))
  {
    hide Laws, TableOk, SubmitsOk, PoolOk, Active, ExecuteWaiting, IsFirst, InUse;
    InsertedMost(st, w, id);
    var v := Inserted(w, id);
    ExecuteMost(st, v, first);
    ExecuteWoken(st, v, first);
  }

  lemma WakeupMost(st: Settings, w: World)
    requires Most(st, w) && w.posts.wakeups > 0
    ensures Most(st, w.(posts := w.posts.(wakeups := w.posts.wakeups - 1)))
  {
    hide CountId, CountConn, CountDone, Active, IdleCount, PoolOk;
    var v := w.(posts := w.posts.(wakeups := w.posts.wakeups - 1));
    forall id, h ensures LawsAt(v, id, h) { assert IdLaw(w, id) && HandleLaw(w, h) && ConnLaw(w, h); }
    LawsFrom(v);
  }

  lemma RunWakeupKept(st: Settings, w: World, first: nat)
    requires Inv(st, w) && Enabled(w, RunWakeup(first))
    ensures Inv(st, Next(st, w, RunWakeup(first)))
  {
    hide Laws, TableOk, SubmitsOk, PoolOk, Active, ExecuteWaiting, IsFirst, InUse;
    var v := w.(posts := w.posts.(wakeups := w.posts.wakeups - 1));
    WakeupMost(st, w);
    ExecuteMost(st, v, first);
    ExecuteWoken(st, v, first);
  }

  // ----- completion -----

  lemma FinishedLaws(w: World, i: nat, id: Id, h: Handle)
    requires i < |w.table|
    ensures var v := Finished(w, i);
            && (IdLaw(w, id) ==> IdLaw(v, id)) && (HandleLaw(w, h) ==> HandleLaw(v, h))
            && CountConn(w.table, h) == CountConn(v.table, h) + One(Holds(w.table[i], h)) && Busy(v, h) == Busy(w, h)
              && v.stuck == w.stuck
            && Active(w.table) == Active(v.table) + One(w.table[i].phase.InProgress?)
  {
    CountAt(w.table, i, id, h);
    hide CountId, CountConn, CountDone, Active, IdleCount;
  }

  lemma WithoutOk(st: Settings, w: World, i: nat)
    requires i < |w.table| && TableOk(st, w)
    ensures TableOk(st, Finished(w, i))
  {
    var v := Finished(w, i);
    forall j | 0 <= j < |v.table| ensures RequestOk(st, v.pool, v.table[j]) {
      assert RequestOk(st, w.pool, w.table[if j < i then j else j + 1]);
    }
  }

  /** `on_request_completed` past the release: one busy connection less. */
  function Released(w: World, k: nat): World
    requires k < |w.posts.done| && w.posts.done[k].handle < |w.pool.hostOf|
  {
    var c := w.posts.done[k];
    w.(pool := Release(w.pool, c.handle, !c.report.ec.NoError?), posts := w.posts.(done := Without(w.posts.done, k)))
  }

  lemma ReleasedLaws(w: World, k: nat, id: Id, h: Handle)
    requires Laws(w) && PoolOk(w.pool) && k < |w.posts.done| && w.posts.done[k].handle < |w.pool.hostOf|
    ensures var (v, c) := (Released(w, k), w.posts.done[k]);
            && IdLaw(v, id) && HandleLaw(v, h) && PoolOk(v.pool) && v.pool.hostOf == w.pool.hostOf
            && CountConn(v.table, h) == Busy(v, h) + v.stuck[h] + One(h == c.handle)
  {
    var c := w.posts.done[k];
    assert IdLaw(w, id) && HandleLaw(w, h) && ConnLaw(w, h) && HandleLaw(w, c.handle);
    hide Laws, CountId, CountConn, CountDone, Release, PoolOk, IdleCount;
    CountDoneAt(w.posts.done, k, h);
    CountDoneAt(w.posts.done, k, c.handle);
    ReleaseKept(w.pool, c.handle, !c.report.ec.NoError?, h);
  }

  /** The entry of a completed connection is always found. */
  lemma AlwaysFound(w: World, k: nat, found: nat)
    requires Laws(w) && k < |w.posts.done| && IsFound(w.table, w.posts.done[k].handle, found)
    ensures found < |w.table| && w.posts.done[k].handle < |w.pool.hostOf|
  {
    var h := w.posts.done[k].handle;
    assert HandleLaw(w, h) && ConnLaw(w, h);
    CountDoneAt(w.posts.done, k, h);
    hide Laws, CountConn, CountDone, IdleCount;
    if found == |w.table| { NoneFound(w.table, h); }
  }

  lemma CompletedLaws(st: Settings, w: World, c: Completion, i: nat, id: Id, h: Handle)
    requires i < |w.table| && Holds(w.table[i], c.handle) && IdLaw(w, id) && HandleLaw(w, h)
    requires CountConn(w.table, h) == Busy(w, h) + w.stuck[h] + One(h == c.handle)
    ensures LawsAt(Completed(st, w, c, i), id, h)
  {
    hide CountId, CountConn, CountDone, IdleCount, ProcessErrors, Active, Finished;
    var d := ProcessErrors(c.report);
    var v := Completed(st, w, c, i);
    if d.Throws? {
    } else if !d.Finish? && w.table[i].retries < st.maxAttempts {
      hide Busy;
      var r := Again(w.table[i], d);
      CountUpdate(w.table, i, r, id, h);
      BusySame(w, v, h);
    } else {
      hide Busy;
      FinishedLaws(w, i, id, h);
    }
  }

  lemma CompletedTable(st: Settings, w: World, c: Completion, i: nat)
    requires i < |w.table| && Holds(w.table[i], c.handle) && TableOk(st, w)
    ensures var v := Completed(st, w, c, i);
            && TableOk(st, v) && v.pool == w.pool && v.posts.submits == w.posts.submits && InUse(v) == InUse(w)
            && |v.stuck| + One(Active(v.table) != Active(w.table)) == |w.stuck| + 1
            && Active(v.table) <= Active(w.table) <= Active(v.table) + 1
            && (if Active(v.table) == Active(w.table) then |v.table| == |w.table| && v.posts.wakeups == w.posts.wakeups
                else |v.table| <= |w.table| && v.posts.wakeups == w.posts.wakeups + 1)
  {
    var d := ProcessErrors(c.report);
    var r := Again(w.table[i], d);
    WithoutOk(st, w, i);
    CountAt(w.table, i, 0, 0);
    CountUpdate(w.table, i, r, 0, 0);
    assert RequestOk(st, w.pool, w.table[i]);
    hide ProcessErrors, Active, CountId, CountConn;
    if !d.Throws? && !d.Finish? && w.table[i].retries < st.maxAttempts {
      TableUpdate(st, w, i, Completed(st, w, c, i));
    } else if d.Throws? {
      SameTable(st, w, Completed(st, w, c, i));
    }
  }

  lemma RunDoneKept(st: Settings, w: World, k: nat, found: nat)
    requires Inv(st, w) && Enabled(w, RunDone(k, found))
    ensures Inv(st, Next(st, w, RunDone(k, found)))
  {
    hide Laws, PoolOk, Release, IdLaw, HandleLaw, CountConn, Busy, Completed, TableOk, Active, SubmitsOk;
    AlwaysFound(w, k, found);
    var (u, c) := (Released(w, k), w.posts.done[k]);
    var v := Completed(st, u, c, found);
    assert v == Next(st, w, RunDone(k, found));
    ReleasedLaws(w, k, 0, 0);
    SameTable(st, w, u);
    CompletedTable(st, u, c, found);
    forall id, h ensures LawsAt(v, id, h) {
      ReleasedLaws(w, k, id, h);
      CompletedLaws(st, u, c, found, id, h);
    }
    LawsFrom(v);
    SameSubmits(w, u);
    SameSubmits(u, v);
    ActiveBound(w.table);
  }

  // ----- cancellation -----

  lemma CancelOneKept(st: Settings, w: World, i: nat)
    requires Inv(st, w) && i < |w.table|
    ensures Inv(st, CancelOne(w, i))
  {
    hide CountId, CountConn, CountDone, Active, IdleCount, PoolOk, TableOk;
    var v := CancelOne(w, i);
    WithoutOk(st, w, i);
    FinishedLaws(w, i, 0, 0);
    ActiveBound(w.table);
    forall id, h ensures LawsAt(v, id, h) {
      assert IdLaw(w, id) && HandleLaw(w, h) && ConnLaw(w, h);
      FinishedLaws(w, i, id, h);
    }
    LawsFrom(v);
    if w.table[i].phase.InProgress? { SameTable(st, w, v); }
  }

  lemma {:induction false} CancelFromKept(st: Settings, w: World, token: nat, i: nat)
    requires Inv(st, w) && i <= |w.table|
    ensures Inv(st, CancelFrom(w, token, i))
    decreases |w.table| - i
  {
    hide Inv;
    if i < |w.table| {
      if w.table[i].token < token {
        CancelFromKept(st, w, token, i + 1);
      } else {
        CancelOneKept(st, w, i);
        CancelFromKept(st, CancelOne(w, i), token, if w.table[i].phase.InProgress? then i + 1 else i);
      }
    }
  }

  /** A change of the posted cancellations alone. */
  lemma CancelsKept(st: Settings, w: World, v: World)
    requires Inv(st, w) && v == w.(posts := w.posts.(cancelAlls := v.posts.cancelAlls, cancels := v.posts.cancels))
    ensures Inv(st, v)
  {
    forall id, h ensures LawsAt(v, id, h) { assert IdLaw(w, id) && HandleLaw(w, h) && ConnLaw(w, h); }
    LawsFrom(v);
    hide Active, IdleCount, CountId, CountConn, CountDone;
  }

  // ----- the slots -----

  lemma BusyOnce(w: World, h: Handle)
    requires Laws(w)
    ensures Busy(w, h) <= 1
  {
    assert HandleLaw(w, h);
    hide CountDone, IdleCount;
  }

  lemma RunStartKept(st: Settings, w: World, h: Handle)
    requires Inv(st, w) && h in w.posts.starts
    ensures Inv(st, Next(st, w, RunStart(h))) && h !in w.armed
  {
    hide CountId, CountConn, CountDone, Active, IdleCount, PoolOk;
    BusyOnce(w, h);
    var v := Next(st, w, RunStart(h));
    forall id, x ensures LawsAt(v, id, x) { assert IdLaw(w, id) && HandleLaw(w, x) && ConnLaw(w, x); }
    LawsFrom(v);
  }

  lemma CompleteSlotKept(st: Settings, w: World, h: Handle, report: Report)
    requires Inv(st, w)
    ensures Inv(st, CompleteSlot(w, h, report))
  {
    hide CountId, CountConn, CountDone, Active, IdleCount, PoolOk;
    if h in w.armed {
      var v := CompleteSlot(w, h, report);
      forall id, x ensures LawsAt(v, id, x) {
        assert IdLaw(w, id) && HandleLaw(w, x) && ConnLaw(w, x);
        CountDoneConcat(w.posts.done, [Completion(h, report)], x);
        CountDoneSingle(Completion(h, report), x);
      }
      LawsFrom(v);
    }
  }

  // ----- every event, every run -----

  lemma EventKept(st: Settings, w: World, e: Event)
    requires Inv(st, w) && Enabled(w, e)
    ensures Inv(st, Next(st, w, e))
  {
    hide Inv, CancelFrom, ExecuteWaiting, CompleteSlot, Done, Submitted;
    match e {
      case Execute(created, token, target) => SubmittedKept(st, w, created, token, target);
      case Cancel(token) => CancelsKept(st, w, Next(st, w, e));
      case RunSubmit(id, first) => RunSubmitKept(st, w, id, first);
      case RunCancelAll(token) =>
        var v := w.(posts := w.posts.(cancelAlls := w.posts.cancelAlls - multiset{token}));
        CancelsKept(st, w, v);
        CancelFromKept(st, v, token, 0);
      case RunWakeup(first) => RunWakeupKept(st, w, first);
      case RunStart(h) => RunStartKept(st, w, h);
      case RunCancel(h, report) =>
        var v := w.(posts := w.posts.(cancels := w.posts.cancels - multiset{h}));
        CancelsKept(st, w, v);
        CompleteSlotKept(st, v, h, report);
      case Complete(h, report) => CompleteSlotKept(st, w, h, report);
      case RunDone(k, found) => RunDoneKept(st, w, k, found);
    }
  }

  /** The invariant holds after every run, whatever happens in whatever order. */
  lemma {:induction false} RunKept(st: Settings, w: World, es: seq<Event>, v: World)
    requires Inv(st, w) && IsRun(st, w, es, v)
    ensures Inv(st, v)
    decreases |es|
  {
    hide Inv, Enabled, Next;
    if es != [] {
      EventKept(st, w, es[0]);
      RunKept(st, Next(st, w, es[0]), es[1..], v);
    }
  }
}
