/** What the events of the scheduler do, said of the entries, the posts and the connections themselves. */
module SchedulerEffects {
  import opened Url
  import opened ErrorHandling
  import opened Scheduler
  import opened SchedulerInvariant
  import opened SchedulerSteps
  import opened SchedulerResults
  import opened PoolEffects

  // ----- which request is started -----

  /** The requests in progress are counted one by one. */
  lemma {:induction false} ActiveIs(t: seq<Request>)
    ensures Active(t) == |set i: nat | i < |t| && t[i].phase.InProgress?|
  {
    var s := set i: nat | i < |t| && t[i].phase.InProgress?;
    if t == [] {
      assert s == {};
    } else {
      var so, n := t[..|t| - 1], |t| - 1;
      var p := set i: nat | i < |so| && so[i].phase.InProgress?;
      ActiveIs(so);
      assert t == so + [t[n]];
      CountAppend(so, t[n], 0, 0);
      assert s == if t[n].phase.InProgress? then p + {n} else p;
    }
  }

  /** The waiting entry that goes first: one to be retried before any other, and of the same kind the oldest. */
  predicate Oldest(t: seq<Request>, i: nat) {
    && i < |t| && !t[i].phase.InProgress?
    && forall j :: 0 <= j < |t| && !t[j].phase.InProgress? ==>
      || (t[i].phase.WaitingRetry? && t[j].phase.Waiting?)
      || (t[i].phase == t[j].phase && t[i].created <= t[j].created)
  }

  /** Entry `i` is handed a connection of its host. */
  ghost predicate StartsEntry(w: World, v: World, i: nat) {
    && i < |w.table| && |v.table| == |w.table| && v.table[i].phase.InProgress?
    && var (r, h) := (w.table[i], v.table[i].phase.conn);
       && Gets(w.pool, r.target, v.pool, h)
       && v == w.(table := w.table[i := r.(phase := InProgress(h), started := r.started + 1)], pool := v.pool,
         posts := w.posts.(starts := w.posts.starts + multiset{h}))
  }

  /** If there is a free place and a waiting entry, the one that goes first is started; else nothing happens. */
  ghost predicate StartsOldest(st: Settings, w: World, v: World) {
    if Active(w.table) < st.maxParallel && exists i :: 0 <= i < |w.table| && !w.table[i].phase.InProgress?
    then exists i: nat :: Oldest(w.table, i) && StartsEntry(w, v, i)
    else v == w
  }

  lemma FirstIsOldest(t: seq<Request>, i: nat)
    requires IsFirst(t, i)
    ensures !t[i].phase.InProgress? ==> Oldest(t, i)
    ensures t[i].phase.InProgress? ==> forall j :: 0 <= j < |t| ==> t[j].phase.InProgress?
  {
    forall j | 0 <= j < |t| ensures t[i].phase.InProgress? ==> t[j].phase.InProgress? { assert Before(t[i], t[j]); }
  }

  lemma ExecuteExact(st: Settings, w: World, i: nat)
    requires w.table != [] ==> IsFirst(w.table, i)
    ensures StartsOldest(st, w, ExecuteWaiting(st, w, i))
  {
    hide Acquire, Gets, Active, IsFirst, Oldest;
    if w.table != [] {
      FirstInside(w.table, i);
      FirstIsOldest(w.table, i);
      AcquireExact(w.pool, w.table[i].target);
      if MayStart(st, w, i) { assert StartsEntry(w, ExecuteWaiting(st, w, i), i); }
    }
  }

  /** A wake-up that runs starts the entry that goes first. */
  lemma WakeupExact(st: Settings, w: World, first: nat)
    requires Enabled(w, RunWakeup(first))
    ensures StartsOldest(st, w.(posts := w.posts.(wakeups := w.posts.wakeups - 1)), Next(st, w, RunWakeup(first)))
  {
    hide StartsOldest, ExecuteWaiting, IsFirst;
    ExecuteExact(st, w.(posts := w.posts.(wakeups := w.posts.wakeups - 1)), first);
  }

  /** So does a request that enters the table, which may be the one. */
  lemma SubmitExact(st: Settings, w: World, id: Id, first: nat)
    requires Enabled(w, RunSubmit(id, first))
    ensures StartsOldest(st,
        w.(table := w.table + [w.posts.submits[id]], posts := w.posts.(submits := w.posts.submits - {id})),
        Next(st, w, RunSubmit(id, first)))
  {
    hide StartsOldest, ExecuteWaiting, IsFirst;
    ExecuteExact(st, Inserted(w, id), first);
  }

  /** A user's request is posted as it was given, to wait with no retries spent. */
  lemma ExecutePosts(st: Settings, w: World, created: nat, token: nat, target: Host)
    ensures var (v, id) := (Next(st, w, Execute(created, token, target)), w.next);
            && id in v.posts.submits && v.next == id + 1 && v.posts.submits[id].id == id
            && v.posts.submits[id].phase.Waiting? && v.posts.submits[id].retries == v.posts.submits[id].started == 0
            && v.posts.submits[id].created == created && v.posts.submits[id].token == token
            && v.posts.submits[id].target == target
            && v == w.(next := v.next, posts := w.posts.(submits := v.posts.submits))
            && v.posts.submits - {id} == w.posts.submits - {id}
  {
  }

  // ----- what a cancellation does -----

  /** The token has entries to cancel: any for the empty one, else those that have it. */
  predicate Hits(t: seq<Request>, token: nat) { token == 0 || exists i :: 0 <= i < |t| && t[i].token == token }

  /** If the token is found, the loop runs over the whole index from there; else nothing is cancelled. */
  predicate Cancels(w: World, v: World, token: nat) {
    if Hits(w.table, token) then CancelDid(w, v, token, 0) else v == w
  }

  lemma CancelExact(w: World, token: nat)
    ensures Cancels(w, CancelAll(w, token), token)
  {
    CancelEffect(w, token, 0);
    hide CancelDid, CancelFrom;
  }

  lemma RunCancelExact(st: Settings, w: World, token: nat)
    requires Enabled(w, RunCancelAll(token))
    ensures Cancels(w.(posts := w.posts.(cancelAlls := w.posts.cancelAlls - multiset{token})),
        Next(st, w, RunCancelAll(token)), token)
  {
    hide Cancels, CancelAll;
    CancelExact(w.(posts := w.posts.(cancelAlls := w.posts.cancelAlls - multiset{token})), token);
  }

  /** The entry is finished by a cancellation: it waits, under this token or a greater one. */
  predicate Finishes(r: Request, token: nat) { token <= r.token && !r.phase.InProgress? }

  lemma {:induction false} KeptIs(t: seq<Request>, token: nat, r: Request)
    ensures r in Kept(t, token) <==> r in t && !Finishes(r, token)
    ensures |Kept(t, token)| + |HitIds(t, token)| == |t|
  {
    if t != [] { KeptIs(t[1..], token, r); }
  }

  lemma {:induction false} HitIdsAre(t: seq<Request>, token: nat, id: Id)
    ensures HitIds(t, token)[id] <= CountId(t, id)
    ensures (exists r :: r in t && r.id == id && Finishes(r, token)) <==> HitIds(t, token)[id] > 0
  {
    if t != [] {
      HitIdsAre(t[1..], token, id);
      if r :| r in t && r.id == id && Finishes(r, token) { assert r == t[0] || r in t[1..]; }
      if r :| r in t[1..] && r.id == id && Finishes(r, token) { assert r in t; }
      assert t[0] in t;
    }
  }

  lemma {:induction false} HitConnsAre(t: seq<Request>, token: nat, h: Handle)
    ensures (exists r :: r in t && token <= r.token && Holds(r, h)) <==> HitConns(t, token)[h] > 0
    ensures HitConns(t, token)[h] <= CountConn(t, h)
  {
    if t != [] {
      HitConnsAre(t[1..], token, h);
      if r :| r in t && token <= r.token && Holds(r, h) { assert r == t[0] || r in t[1..]; }
      if r :| r in t[1..] && token <= r.token && Holds(r, h) { assert r in t; }
      assert t[0] in t;
    }
  }

  /** Entry by entry, in every reachable world: a waiting one under this token or a greater one is gone and its
      handler was invoked, every other one stays and its handler was not; a connection is asked to cancel if
      and only if an entry under one of these tokens is in progress on it. */
  lemma CancelledEntries(st: Settings, w: World, token: nat, i: nat, h: Handle)
    requires Reachable(st, w) && Enabled(w, RunCancelAll(token)) && Hits(w.table, token) && i < |w.table|
    ensures var (v, r) := (Next(st, w, RunCancelAll(token)), w.table[i]);
            && (Finishes(r, token) ==> r !in v.table && v.calls[r.id] == 1)
            && (!Finishes(r, token) ==> r in v.table && v.calls[r.id] == 0)
            && (v.posts.cancels[h] > w.posts.cancels[h]
              <==> exists x :: x in w.table && token <= x.token && Holds(x, h))
            && v.posts.wakeups - w.posts.wakeups == |w.table| - |v.table|
  {
    hide Kept, HitIds, HitConns, CountConn, CountId, Hits, Laws;
    ReachableOk(st, w);
    var r := w.table[i];
    LawsGive(w, r.id, h);
    InTable(w.table, r);
    RunCancelExact(st, w, token);
    assert w.table[0..] == w.table;
    KeptIs(w.table, token, r);
    HitIdsAre(w.table, token, r.id);
    HitConnsAre(w.table, token, h);
    if !Finishes(r, token) { OnlyOne(w.table, i); }
  }

  /** Where an id is in the table once, no other entry has it. */
  lemma OnlyOne(t: seq<Request>, i: nat)
    requires i < |t| && CountId(t, t[i].id) == 1
    ensures forall r :: r in t && r.id == t[i].id ==> r == t[i]
  {
    CountAt(t, i, t[i].id, 0);
    var u := Without(t, i);
    forall r | r in t && r.id == t[i].id ensures r == t[i] {
      var j :| 0 <= j < |t| && t[j] == r;
      if j != i {
        assert u[if j < i then j else j - 1] == r;
        InTable(u, r);
      }
    }
    hide CountId;
  }

  // ----- connections along a run -----

  lemma AfterPool(st: Settings, w: World, c: Completion, i: nat)
    ensures AfterRelease(st, w, c, i).pool == w.pool
  {
    hide ProcessErrors;
  }

  /** A completion gives its connection back, or drops it with the idle ones of its host after an error. */
  lemma DoneExact(st: Settings, w: World, k: nat, found: nat)
    requires Enabled(w, RunDone(k, found))
    ensures var c := w.posts.done[k];
            GivesBack(w.pool, c.handle, !c.report.ec.NoError?, Next(st, w, RunDone(k, found)).pool)
  {
    var c := w.posts.done[k];
    var pool := Release(w.pool, c.handle, !c.report.ec.NoError?);
    ReleaseExact(w.pool, c.handle, !c.report.ec.NoError?);
    AfterPool(st, w.(pool := pool, posts := w.posts.(done := Without(w.posts.done, k))), c, found);
    hide Release, AfterRelease, GivesBack, IsFound;
  }

  /** The table that an event which starts requests looks at. */
  function Queue(w: World, e: Event): seq<Request>
    requires Enabled(w, e)
  {
    if e.RunSubmit? then w.table + [w.posts.submits[e.id]] else w.table
  }

  /** The event starts a request to `host`. */
  predicate StartsFor(st: Settings, w: World, e: Event, host: Host)
    requires Enabled(w, e)
  {
    && (e.RunSubmit? || e.RunWakeup?) && Active(Queue(w, e)) < st.maxParallel && e.first < |Queue(w, e)|
    && !Queue(w, e)[e.first].phase.InProgress? && Queue(w, e)[e.first].target == host
  }

  /** The event gives a connection of `host` back. */
  predicate EndsFor(w: World, e: Event, host: Host)
    requires Enabled(w, e)
  {
    e.RunDone? && w.pool.hostOf[w.posts.done[e.k].handle] == host
  }

  /** No event of the run starts a request to `host` or gives one of its connections back. */
  predicate Leaves(st: Settings, w: World, es: seq<Event>, host: Host)
    decreases |es|
  {
    es == [] || (Enabled(w, es[0]) && !StartsFor(st, w, es[0], host) && !EndsFor(w, es[0], host)
      && Leaves(st, Next(st, w, es[0]), es[1..], host))
  }

  lemma StartKeeps(st: Settings, w: World, i: nat, host: Host)
    ensures var p := ExecuteWaiting(st, w, i).pool;
            && w.pool.hostOf <= p.hostOf
            && ((MayStart(st, w, i) && w.table[i].target == host) || IdleAt(p, host) == IdleAt(w.pool, host))
  {
    if MayStart(st, w, i) { AcquireExact(w.pool, w.table[i].target); }
    hide Acquire, Active;
  }

  lemma EventKeeps(st: Settings, w: World, e: Event, host: Host)
    requires Enabled(w, e) && !StartsFor(st, w, e, host) && !EndsFor(w, e, host)
    ensures IdleAt(Next(st, w, e).pool, host) == IdleAt(w.pool, host)
  {
    hide IdleAt, ExecuteWaiting, CancelFrom, IsFirst, IsFound, AfterRelease, Release, Active, GivesBack;
    match e {
      case RunSubmit(id, first) => StartKeeps(st, Inserted(w, id), first, host);
      case RunWakeup(first) => StartKeeps(st, w.(posts := w.posts.(wakeups := w.posts.wakeups - 1)), first, host);
      case RunCancelAll(token) =>
        CancelPool(w.(posts := w.posts.(cancelAlls := w.posts.cancelAlls - multiset{token})), token, 0);
      case RunDone(k, found) =>
        DoneExact(st, w, k, found);
        BackOther(w.pool, w.posts.done[k].handle, !w.posts.done[k].report.ec.NoError?,
          Next(st, w, RunDone(k, found)).pool, host);
      case _ =>
    }
  }

  lemma BackOther(p: Pool, h: Handle, cleanUp: bool, q: Pool, host: Host)
    requires GivesBack(p, h, cleanUp, q) && p.hostOf[h] != host
    ensures IdleAt(q, host) == IdleAt(p, host)
  {
    hide IdleAt;
  }

  lemma {:induction false} LeavesIdle(st: Settings, w: World, es: seq<Event>, v: World, host: Host)
    requires IsRun(st, w, es, v) && Leaves(st, w, es, host)
    ensures IdleAt(v.pool, host) == IdleAt(w.pool, host)
    decreases |es|
  {
    hide Enabled, Next, IdleAt, StartsFor, EndsFor;
    if es != [] {
      EventKeeps(st, w, es[0], host);
      LeavesIdle(st, Next(st, w, es[0]), es[1..], v, host);
    }
  }

  /** A request that is started goes out on the last idle connection of its host. */
  lemma StartUses(st: Settings, w: World, e: Event, host: Host)
    requires Enabled(w, e) && StartsFor(st, w, e, host)
    ensures var (v, s) := (Next(st, w, e), IdleAt(w.pool, host));
            && e.first < |v.table| && v.table[e.first].phase.InProgress?
            && v.table[e.first].id == Queue(w, e)[e.first].id
            && (s != [] <==> v.pool.hostOf == w.pool.hostOf)
            && (s != [] ==> v.table[e.first].phase.conn == s[|s| - 1])
  {
    AcquireExact(w.pool, host);
    hide Acquire, Active, IsFirst, IdleAt, OthersKept;
  }

  /** A connection that completes without an error is the one that the next request to its host goes out on,
      whatever happens to other hosts in between; no connection is made for it. */
  lemma ReusedNext(st: Settings, w: World, k: nat, found: nat, es: seq<Event>, v: World, e: Event)
    requires Enabled(w, RunDone(k, found)) && w.posts.done[k].report.ec.NoError?
    requires var host := w.pool.hostOf[w.posts.done[k].handle];
             && IsRun(st, Next(st, w, RunDone(k, found)), es, v) && Leaves(st, Next(st, w, RunDone(k, found)), es, host)
             && Enabled(v, e) && StartsFor(st, v, e, host)
    ensures var u := Next(st, v, e);
            && e.first < |u.table| && u.table[e.first].phase == InProgress(w.posts.done[k].handle)
            && u.pool.hostOf == v.pool.hostOf
  {
    var h := w.posts.done[k].handle;
    hide Enabled, Next, IdleAt, StartsFor, EndsFor, Leaves, IsRun, OthersKept;
    DoneExact(st, w, k, found);
    LeavesIdle(st, Next(st, w, RunDone(k, found)), es, v, w.pool.hostOf[h]);
    StartUses(st, v, e, w.pool.hostOf[h]);
  }

  // ----- reports -----

  /** Some connection reported this in the run. */
  predicate Reported(es: seq<Event>, c: Completion) {
    Complete(c.handle, c.report) in es || RunCancel(c.handle, c.report) in es
  }

  lemma EventReports(st: Settings, w: World, e: Event, c: Completion)
    requires Enabled(w, e) && c in Next(st, w, e).posts.done
    ensures c in w.posts.done || e == Complete(c.handle, c.report) || e == RunCancel(c.handle, c.report)
  {
    hide CancelFrom, ExecuteWaiting, IsFirst, IsFound, ProcessErrors, Release;
    match e {
      case RunSubmit(id, first) => StartPosts(st, Inserted(w, id), first);
      case RunWakeup(first) => StartPosts(st, w.(posts := w.posts.(wakeups := w.posts.wakeups - 1)), first);
      case RunCancelAll(token) =>
        var u := w.(posts := w.posts.(cancelAlls := w.posts.cancelAlls - multiset{token}));
        CancelEffect(u, token, 0);
      case _ =>
    }
  }

  lemma StartPosts(st: Settings, w: World, i: nat)
    ensures ExecuteWaiting(st, w, i).posts.done == w.posts.done
  {
    hide Acquire, Active;
  }

  /** No report is made up: what is still to be handled was reported by its connection. */
  lemma {:induction false} DoneReports(st: Settings, w: World, es: seq<Event>, v: World, c: Completion)
    requires IsRun(st, w, es, v) && c in v.posts.done
    ensures c in w.posts.done || Reported(es, c)
    decreases |es|
  {
    hide Enabled, Next;
    if es != [] {
      var n := Next(st, w, es[0]);
      DoneReports(st, n, es[1..], v, c);
      assert forall e :: e in es[1..] ==> e in es;
      if c in n.posts.done { EventReports(st, w, es[0], c); }
    }
  }
}
