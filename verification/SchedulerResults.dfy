/** What the scheduler guarantees in every reachable state, and where its runs end. */
module SchedulerResults {
  import opened Url
  import opened ErrorHandling
  import opened Scheduler
  import opened SchedulerInvariant
  import opened SchedulerSteps
  import opened SchedulerTermination

  /** The worlds that runs from the start get to. */
  ghost predicate Reachable(st: Settings, w: World) { exists es :: IsRun(st, INITIALLY, es, w) }

  lemma ReachableOk(st: Settings, w: World)
    requires Reachable(st, w)
    ensures Inv(st, w)
  {
    var es :| IsRun(st, INITIALLY, es, w);
    InitiallyOk(st);
    RunKept(st, INITIALLY, es, w);
  }

  // ----- bounds -----

  /** In-progress requests stay within the limit, enough wake-ups are pending to fill the free places
      with waiting requests, and no request is started more than `max_attempts + 1` times. */
  lemma Bounds(st: Settings, w: World)
    requires Reachable(st, w)
    ensures Active(w.table) <= st.maxParallel
    ensures w.posts.wakeups >= Min(st.maxParallel - Active(w.table), |w.table| - Active(w.table))
    ensures forall r :: r in w.table ==> r.started <= st.maxAttempts + 1
  {
    ReachableOk(st, w);
    forall r | r in w.table ensures r.started <= st.maxAttempts + 1 {
      var i :| 0 <= i < |w.table| && w.table[i] == r;
      assert RequestOk(st, w.pool, w.table[i]);
    }
  }

  // ----- handlers -----

  /** Whatever happens, a handler is invoked at most once, and only for a submitted request that is
      gone from the table. */
  lemma AtMostOnce(st: Settings, w: World, id: Id)
    requires Reachable(st, w)
    ensures w.calls[id] <= 1
    ensures w.calls[id] == 1 ==> id < w.next && id !in w.posts.submits && forall r :: r in w.table ==> r.id != id
  {
    ReachableOk(st, w);
    assert IdLaw(w, id);
    hide Inv;
    if w.calls[id] == 1 {
      forall r | r in w.table ensures r.id != id { InTable(w.table, r); }
    }
  }

  lemma {:induction false} InTable(t: seq<Request>, r: Request)
    requires r in t
    ensures CountId(t, r.id) >= 1
  {
    if t[0] != r { InTable(t[1..], r); }
  }

  // ----- connections -----

  /** Entry `i` has a connection of its own: it is in use, once, neither idle nor dropped, of the right
      host, and under no other entry. */
  predicate Owns(w: World, i: nat)
    requires i < |w.table| && w.table[i].phase.InProgress?
  {
    var h := w.table[i].phase.conn;
    && Busy(w, h) == 1 && h !in w.pool.dropped && h !in IdleAt(w.pool, w.table[i].target)
    && h < |w.pool.hostOf| && w.pool.hostOf[h] == w.table[i].target
    && forall j :: 0 <= j < |w.table| && Holds(w.table[j], h) ==> j == i
  }

  /** Entries in progress and connections in use are in bijection. */
  predicate Owned(w: World) { forall i: nat :: i < |w.table| && w.table[i].phase.InProgress? ==> Owns(w, i) }

  lemma OwnsAlone(st: Settings, w: World, i: nat)
    requires Inv(st, w) && w.stuck == multiset{} && i < |w.table| && w.table[i].phase.InProgress?
    ensures Owns(w, i)
  {
    var h := w.table[i].phase.conn;
    assert HandleLaw(w, h) && ConnLaw(w, h) && RequestOk(st, w.pool, w.table[i]);
    hide Inv, CountDone;
    CountAt(w.table, i, 0, h);
    forall j | 0 <= j < |w.table| && Holds(w.table[j], h) ensures j == i {
      if j != i { CountTwo(w.table, i, j, h); }
    }
  }

  lemma CountTwo(t: seq<Request>, i: nat, j: nat, h: Handle)
    requires i < |t| && j < |t| && i != j && Holds(t[i], h) && Holds(t[j], h)
    ensures CountConn(t, h) >= 2
  {
    CountAt(t, i, 0, h);
    var k := if j < i then j else j - 1;
    assert Without(t, i)[k] == t[j];
    CountAt(Without(t, i), k, 0, h);
    hide CountConn;
  }

  /** A connection with an entry too many is no longer any entry's own. */
  lemma StuckShares(st: Settings, w: World, h: Handle)
    requires Inv(st, w) && h in w.stuck
    ensures !Owned(w)
  {
    assert HandleLaw(w, h) && ConnLaw(w, h);
    hide Inv, CountDone;
    if forall j :: 0 <= j < |w.table| ==> !Holds(w.table[j], h) { NoneFound(w.table, h); }
    var i: nat :| i < |w.table| && Holds(w.table[i], h);
    if Owns(w, i) {
      CountAt(w.table, i, 0, h);
      var t := Without(w.table, i);
      forall k | 0 <= k < |t| ensures !Holds(t[k], h) { assert t[k] == w.table[if k < i then k else k + 1]; }
      NoneFound(t, h);
    }
  }

  /** After every run, the entries in progress and their connections are in bijection, and none of
      these is idle or dropped, if and only if no redirect threw on the way. */
  lemma Ownership(st: Settings, es: seq<Event>, w: World)
    requires IsRun(st, INITIALLY, es, w)
    ensures Owned(w) <==> Thrown(st, INITIALLY, es) == 0
  {
    InitiallyOk(st);
    RunKept(st, INITIALLY, es, w);
    StuckByThrows(st, INITIALLY, es, w);
    hide Inv, Owns, Thrown;
    if w.stuck == multiset{} {
      forall i: nat | i < |w.table| && w.table[i].phase.InProgress? ensures Owns(w, i) { OwnsAlone(st, w, i); }
    } else {
      var h :| h in w.stuck;
      StuckShares(st, w, h);
    }
  }

  /** Every busy connection has an entry, which its completion will find. */
  lemma BusyFound(st: Settings, w: World, h: Handle)
    requires Reachable(st, w) && Busy(w, h) > 0
    ensures Busy(w, h) == 1 && exists i :: 0 <= i < |w.table| && Holds(w.table[i], h)
  {
    ReachableOk(st, w);
    assert HandleLaw(w, h) && ConnLaw(w, h);
    hide Inv, CountDone, IdleCount;
    if forall j :: 0 <= j < |w.table| ==> !Holds(w.table[j], h) { NoneFound(w.table, h); }
  }

  /** Idle connections are distinct, not in use, and sit under their own host. */
  lemma IdleDistinct(st: Settings, w: World, host: Host, i: nat)
    requires Reachable(st, w) && i < |IdleAt(w.pool, host)|
    ensures var h := IdleAt(w.pool, host)[i];
            && h < |w.pool.hostOf| && w.pool.hostOf[h] == host && Busy(w, h) == 0 && h !in w.pool.dropped
            && forall j :: 0 <= j < |IdleAt(w.pool, host)| && IdleAt(w.pool, host)[j] == h ==> j == i
  {
    ReachableOk(st, w);
    var s := IdleAt(w.pool, host);
    var h := s[i];
    IdleIn(w.pool, host, h);
    assert HandleLaw(w, h);
    hide Inv, CountDone;
    forall j | 0 <= j < |s| && s[j] == h ensures j == i {
      if j != i { TwoIn(s, if i < j then i else j, if i < j then j else i); }
    }
  }

  lemma TwoIn<T>(s: seq<T>, i: nat, j: nat)
    requires i < j < |s| && s[i] == s[j]
    ensures multiset(s)[s[i]] >= 2
  {
    assert s == s[..j] + s[j..];
    assert s[..j][i] == s[i] && s[j..][0] == s[j];
    assert s[i] in multiset(s[..j]) && s[j] in multiset(s[j..]);
  }

  lemma DropsErrors(st: Settings, w: World, e: Event)
    requires Enabled(w, e)
    ensures w.pool.dropped <= Next(st, w, e).pool.dropped
    ensures e.RunDone? && !w.posts.done[e.k].report.ec.NoError? ==>
        w.posts.done[e.k].handle in Next(st, w, e).pool.dropped
  {
    hide CancelFrom, Active, ProcessErrors, IsFirst, IsFound;
    if e.RunCancelAll? {
      CancelPool(w.(posts := w.posts.(cancelAlls := w.posts.cancelAlls - multiset{e.token})), e.token, 0);
    }
  }

  lemma {:induction false} CancelPool(w: World, token: nat, i: nat)
    requires i <= |w.table|
    ensures CancelFrom(w, token, i).pool == w.pool
    decreases |w.table| - i
  {
    if i < |w.table| {
      if w.table[i].token < token { CancelPool(w, token, i + 1); }
      else { CancelPool(CancelOne(w, i), token, if w.table[i].phase.InProgress? then i + 1 else i); }
    }
  }

  lemma {:induction false} StaysDropped(st: Settings, w: World, es: seq<Event>, v: World)
    requires IsRun(st, w, es, v)
    ensures w.pool.dropped <= v.pool.dropped
    decreases |es|
  {
    hide Enabled, Next;
    if es != [] {
      DropsErrors(st, w, es[0]);
      StaysDropped(st, Next(st, w, es[0]), es[1..], v);
    }
  }

  /** A connection that completed with an error is never handed out again: whatever happens next, it
      is not started, not at work, and not idle under any host. */
  lemma DroppedForGood(st: Settings, w: World, k: nat, found: nat, es: seq<Event>, v: World, host: Host)
    requires Reachable(st, w) && Enabled(w, RunDone(k, found)) && !w.posts.done[k].report.ec.NoError?
    requires IsRun(st, Next(st, w, RunDone(k, found)), es, v)
    ensures var h := w.posts.done[k].handle;
            && h in v.pool.dropped && h !in v.posts.starts && h !in v.armed && h !in IdleAt(v.pool, host)
            && forall i :: 0 <= i < |v.posts.done| ==> v.posts.done[i].handle != h
  {
    ReachableOk(st, w);
    hide Inv, Enabled, Next, CountDone;
    var (e, h) := (RunDone(k, found), w.posts.done[k].handle);
    EventKept(st, w, e);
    DropsErrors(st, w, e);
    StaysDropped(st, Next(st, w, e), es, v);
    RunKept(st, Next(st, w, e), es, v);
    InvGives(st, v, h);
    if h in IdleAt(v.pool, host) { IdleIn(v.pool, host, h); }
    forall i | 0 <= i < |v.posts.done| ensures v.posts.done[i].handle != h { CountDoneAt(v.posts.done, i, h); }
  }

  lemma InvGives(st: Settings, w: World, h: Handle)
    requires Inv(st, w)
    ensures HandleLaw(w, h) && PoolOk(w.pool)
  {
    hide Busy, IdleCount, PoolOk;
  }

  function Below(n: nat): (s: set<nat>)
    ensures |s| == n && forall x: nat :: x in s <==> x < n
  {
    if n == 0 then {} else Below(n - 1) + {n - 1}
  }

  function Made(w: World): set<Handle> { Below(|w.pool.hostOf|) }

  function Used(w: World): set<Handle> { set h | h in Made(w) && Busy(w, h) > 0 }

  function Idle(w: World): set<Handle> { set h | h in Made(w) && IdleCount(w.pool, h) > 0 }

  lemma PlaceOf(st: Settings, w: World, h: Handle)
    requires Inv(st, w)
    ensures h in Made(w) <==> h in Used(w) || h in Idle(w) || h in w.pool.dropped
    ensures One(h in Used(w)) + One(h in Idle(w)) + One(h in w.pool.dropped) <= 1
  {
    assert HandleLaw(w, h);
    hide Busy, IdleCount, Inv, Below;
    assert h in Made(w) <==> h < |w.pool.hostOf|;
  }

  /** The connections ever made are those in use, idle and dropped, and none is two of these. */
  lemma Conservation(st: Settings, w: World)
    requires Reachable(st, w)
    ensures |w.pool.hostOf| == |Used(w)| + |Idle(w)| + |w.pool.dropped|
    ensures Used(w) !! Idle(w) !! w.pool.dropped && Made(w) == Used(w) + Idle(w) + w.pool.dropped
  {
    ReachableOk(st, w);
    hide Inv, Used, Idle, Below;
    var (u, i, d) := (Used(w), Idle(w), w.pool.dropped);
    forall h: Handle ensures (h in Made(w) <==> h in u + i + d) && One(h in u) + One(h in i) + One(h in d) <= 1 {
      PlaceOf(st, w, h);
    }
    Disjoint3(u, i, d);
    assert Made(w) == u + i + d;
  }

  lemma Disjoint3(a: set<Handle>, b: set<Handle>, c: set<Handle>)
    requires forall h :: One(h in a) + One(h in b) + One(h in c) <= 1
    ensures a !! b !! c && |a + b + c| == |a| + |b| + |c|
  {
    forall h | h in a ensures h !in b && h !in c { assert One(h in a) + One(h in b) + One(h in c) <= 1; }
    forall h | h in b ensures h !in c { assert One(h in a) + One(h in b) + One(h in c) <= 1; }
  }

  // ----- what a cancellation touches -----

  function Kept(t: seq<Request>, token: nat): seq<Request> {
    if t == [] then []
    else (if t[0].token < token || t[0].phase.InProgress? then [t[0]] else []) + Kept(t[1..], token)
  }

  function HitConns(t: seq<Request>, token: nat): multiset<Handle> {
    if t == [] then multiset{}
    else
      (if token <= t[0].token && t[0].phase.InProgress? then multiset{t[0].phase.conn} else multiset{})
      + HitConns(t[1..], token)
  }

  function HitIds(t: seq<Request>, token: nat): multiset<Id> {
    if t == [] then multiset{}
    else
      (if token <= t[0].token && !t[0].phase.InProgress? then multiset{t[0].id} else multiset{})
      + HitIds(t[1..], token)
  }

  /** `v` is `w` with the loop run over the entries from `i` on. */
  predicate CancelDid(w: World, v: World, token: nat, i: nat)
    requires i <= |w.table|
  {
    var t := w.table[i..];
    && v.table == w.table[..i] + Kept(t, token)
    && v.posts == w.posts.(cancels := w.posts.cancels + HitConns(t, token),
      wakeups := w.posts.wakeups + |HitIds(t, token)|)
    && v == w.(table := v.table, posts := v.posts, calls := w.calls + HitIds(t, token))
  }

  lemma DidSkip(w: World, v: World, token: nat, i: nat)
    requires i < |w.table| && w.table[i].token < token && CancelDid(w, v, token, i + 1)
    ensures CancelDid(w, v, token, i)
  {
    var t := w.table[i..];
    assert t[1..] == w.table[i + 1..];
    assert w.table[..i + 1] + Kept(t[1..], token) == w.table[..i] + Kept(t, token);
    assert HitIds(t, token) == HitIds(t[1..], token) && HitConns(t, token) == HitConns(t[1..], token);
    hide Kept, HitIds, HitConns;
  }

  lemma DidConn(w: World, v: World, token: nat, i: nat)
    requires i < |w.table| && token <= w.table[i].token && w.table[i].phase.InProgress?
        && CancelDid(CancelOne(w, i), v, token, i + 1)
    ensures CancelDid(w, v, token, i)
  {
    var t := w.table[i..];
    assert t[1..] == w.table[i + 1..];
    assert w.table[..i + 1] + Kept(t[1..], token) == w.table[..i] + Kept(t, token);
    assert HitIds(t, token) == HitIds(t[1..], token)
      && HitConns(t, token) == multiset{w.table[i].phase.conn} + HitConns(t[1..], token);
    hide Kept, HitIds, HitConns;
    assert w.posts.cancels + multiset{w.table[i].phase.conn} + HitConns(t[1..], token)
      == w.posts.cancels + HitConns(t, token);
  }

  lemma DidFinish(w: World, v: World, token: nat, i: nat)
    requires i < |w.table| && token <= w.table[i].token && !w.table[i].phase.InProgress?
        && CancelDid(CancelOne(w, i), v, token, i)
    ensures CancelDid(w, v, token, i)
  {
    var t, u := w.table[i..], CancelOne(w, i);
    assert u.table[i..] == t[1..] == w.table[i + 1..] && u.table[..i] == w.table[..i];
    assert Kept(t, token) == Kept(t[1..], token) && HitConns(t, token) == HitConns(t[1..], token);
    assert HitIds(t, token) == multiset{w.table[i].id} + HitIds(t[1..], token);
    hide Kept, HitIds, HitConns;
    assert w.calls + multiset{w.table[i].id} + HitIds(t[1..], token) == w.calls + HitIds(t, token);
  }

  /** Once the token is found, every waiting entry with this or any greater token is finished, and every
      connection in progress under one is asked to cancel; nothing else changes. */
  lemma {:induction false} CancelEffect(w: World, token: nat, i: nat)
    requires i <= |w.table|
    ensures CancelDid(w, CancelFrom(w, token, i), token, i)
    decreases |w.table| - i
  {
    if i == |w.table| {
      assert w.table[i..] == [] && w.table[..i] == w.table;
    } else if w.table[i].token < token {
      hide CancelDid;
      CancelEffect(w, token, i + 1);
      DidSkip(w, CancelFrom(w, token, i), token, i);
    } else if w.table[i].phase.InProgress? {
      hide CancelDid;
      CancelEffect(CancelOne(w, i), token, i + 1);
      DidConn(w, CancelFrom(w, token, i), token, i);
    } else {
      hide CancelDid;
      CancelEffect(CancelOne(w, i), token, i);
      DidFinish(w, CancelFrom(w, token, i), token, i);
    }
  }

  // ----- redirects that threw -----

  /** How many completions in a run reached a redirect that threw. */
  function Thrown(st: Settings, w: World, es: seq<Event>): nat
    decreases |es|
  {
    if es == [] || !Enabled(w, es[0]) then 0
    else
      One(es[0].RunDone? && ProcessErrors(w.posts.done[es[0].k].report).Throws?)
        + Thrown(st, Next(st, w, es[0]), es[1..])
  }

  lemma EventStuck(st: Settings, w: World, e: Event)
    requires Inv(st, w) && Enabled(w, e)
    ensures |Next(st, w, e).stuck| == |w.stuck| + One(e.RunDone? && ProcessErrors(w.posts.done[e.k].report).Throws?)
  {
    if e.RunDone? { AlwaysFound(w, e.k, e.found); }
    hide CancelFrom, Active, ProcessErrors, IsFirst, IsFound, Inv, Release, Acquire;
    if e.RunCancelAll? {
      CancelStuck(w.(posts := w.posts.(cancelAlls := w.posts.cancelAlls - multiset{e.token})), e.token, 0);
    }
  }

  lemma {:induction false} CancelStuck(w: World, token: nat, i: nat)
    requires i <= |w.table|
    ensures CancelFrom(w, token, i).stuck == w.stuck
    decreases |w.table| - i
  {
    if i < |w.table| {
      if w.table[i].token < token { CancelStuck(w, token, i + 1); }
      else { CancelStuck(CancelOne(w, i), token, if w.table[i].phase.InProgress? then i + 1 else i); }
    }
  }

  /** Entries are stranded exactly by the redirects that threw. */
  lemma {:induction false} StuckByThrows(st: Settings, w: World, es: seq<Event>, v: World)
    requires Inv(st, w) && IsRun(st, w, es, v)
    ensures |v.stuck| == |w.stuck| + Thrown(st, w, es)
    decreases |es|
  {
    hide Inv, Enabled, Next, ProcessErrors;
    if es != [] {
      EventKept(st, w, es[0]);
      EventStuck(st, w, es[0]);
      StuckByThrows(st, Next(st, w, es[0]), es[1..], v);
    }
  }

  // ----- the end -----

  /** Nothing is posted and no connection is at work. */
  predicate Quiet(w: World) {
    && w.posts == Posts(map[], multiset{}, 0, multiset{}, multiset{}, []) && w.armed == {}
  }

  /** Unless all is quiet, something can happen without the user. */
  lemma Progress(st: Settings, w: World) returns (e: Event)
    requires Reachable(st, w) && !Quiet(w)
    ensures Enabled(w, e) && !e.Execute? && !e.Cancel?
  {
    ReachableOk(st, w);
    hide CountConn, CountDone, IdleCount, CountId, Active;
    var any := Report(Aborted, 0, []);
    if id :| id in w.posts.submits {
      var i := FirstExists(w.table + [w.posts.submits[id]]);
      e := RunSubmit(id, i);
    } else if token :| token in w.posts.cancelAlls {
      e := RunCancelAll(token);
    } else if w.posts.wakeups > 0 {
      var i := 0;
      if w.table != [] { i := FirstExists(w.table); }
      e := RunWakeup(i);
    } else if h :| h in w.posts.starts {
      e := RunStart(h);
    } else if h :| h in w.posts.cancels {
      e := RunCancel(h, any);
    } else if h :| h in w.armed {
      e := Complete(h, any);
    } else {
      if w.posts.done == [] {
        QuietIf(w);
        assert false;
      }
      var i := FoundExists(w.table, w.posts.done[0].handle);
      AlwaysFound(w, 0, i);
      e := RunDone(0, i);
    }
  }

  lemma QuietIf(w: World)
    requires w.posts.submits.Keys == {} && (forall t :: t !in w.posts.cancelAlls) && w.posts.wakeups == 0
    requires (forall h :: h !in w.posts.starts) && (forall h :: h !in w.posts.cancels) && w.posts.done == []
        && w.armed == {}
    ensures Quiet(w)
  {
    assert w.posts.cancelAlls == multiset{} && w.posts.starts == multiset{} && w.posts.cancels == multiset{};
    assert w.posts.submits == map[];
  }

  lemma {:induction false} FirstExists(t: seq<Request>) returns (i: nat)
    requires t != []
    ensures IsFirst(t, i)
  {
    var init, r := t[..|t| - 1], t[|t| - 1];
    assert t == init + [r];
    if init == [] {
      i := 0;
    } else {
      i := FirstExists(init);
      if !Before(init[i], r) { i := |t| - 1; }
    }
  }

  lemma {:induction false} FoundExists(t: seq<Request>, h: Handle) returns (i: nat)
    ensures IsFound(t, h, i)
  {
    if j :| 0 <= j < |t| && Holds(t[j], h) { i := j; } else { i := |t|; }
  }

  /** Where a run ends with nothing left to happen, every submitted request has had its handler
      invoked exactly once and the table is empty, if and only if no redirect threw.  Each redirect
      that threw leaves an entry in progress for good; as long as these leave a place free, no other
      entry is left. */
  lemma ExactlyOnce(st: Settings, es: seq<Event>, w: World)
    requires IsRun(st, INITIALLY, es, w) && Quiet(w) && st.maxParallel >= 1
    ensures var n := Thrown(st, INITIALLY, es);
            && (n == 0 <==> w.table == [])
            && (n == 0 <==> forall id: Id :: id < w.next ==> w.calls[id] == 1)
            && Active(w.table) == n <= st.maxParallel && (n < st.maxParallel ==> |w.table| == n)
  {
    InitiallyOk(st);
    RunKept(st, INITIALLY, es, w);
    StuckByThrows(st, INITIALLY, es, w);
    ActiveBound(w.table);
    assert Active(w.table) == |w.stuck|;
    hide Active, CountConn, CountDone, IdleCount, Thrown;
    if w.table == [] {
      forall id: Id | id < w.next ensures w.calls[id] == 1 { assert IdLaw(w, id); }
    } else {
      var id := w.table[0].id;
      assert IdLaw(w, id);
      InTable(w.table, w.table[0]);
      assert id < w.next && w.calls[id] != 1;
    }
  }

  /** Every run is finite, paid for by the user's calls, and can only stop where all is quiet. */
  lemma Terminates(st: Settings, es: seq<Event>, w: World)
    requires IsRun(st, INITIALLY, es, w)
    ensures |es| <= Costs(st, es)
    ensures (forall e: Event :: !Enabled(w, e) || e.Execute? || e.Cancel?) ==> Quiet(w)
  {
    InitiallyOk(st);
    RunBounded(st, INITIALLY, es, w);
    assert Measure(st, INITIALLY) == 0;
    hide Inv, Measure, Enabled;
    if !Quiet(w) {
      assert Reachable(st, w);
      var e := Progress(st, w);
    }
  }
}
