/** What every event of the scheduler keeps. */
module SchedulerInvariant {
  import opened Url
  import opened ErrorHandling
  import opened Scheduler

  // ----- the laws -----

  function One(b: bool): nat { if b then 1 else 0 }

  function CountDone(done: seq<Completion>, h: Handle): nat {
    if done == [] then 0 else One(done[0].handle == h) + CountDone(done[1..], h)
  }

  /** How often a connection is on its way through a request: to be started, armed, or completed. */
  function Busy(w: World, h: Handle): nat { w.posts.starts[h] + One(h in w.armed) + CountDone(w.posts.done, h) }

  function IdleCount(p: Pool, h: Handle): nat {
    if h < |p.hostOf| then multiset(IdleAt(p, p.hostOf[h]))[h] else 0
  }

  /** Every submitted request is posted, or in the table, or its handler was invoked: once. */
  predicate IdLaw(w: World, id: Id) {
    One(id in w.posts.submits) + CountId(w.table, id) + w.calls[id] == One(id < w.next)
  }

  /** Every connection ever made is busy, idle or dropped: once. */
  predicate HandleLaw(w: World, h: Handle) {
    Busy(w, h) + IdleCount(w.pool, h) + One(h in w.pool.dropped) == One(h < |w.pool.hostOf|)
  }

  /** The entries in progress on a connection, against its use and the redirects that threw. */
  predicate ConnLaw(w: World, h: Handle) { CountConn(w.table, h) == Busy(w, h) + w.stuck[h] }

  function InUse(w: World): nat { |w.posts.starts| + |w.armed| + |w.posts.done| }

  function Min(a: int, b: int): int { if a <= b then a else b }

  /** No lost wake-up: enough posts are pending to fill the free places. */
  predicate Woken(st: Settings, w: World) {
    Active(w.table) <= st.maxParallel
    && w.posts.wakeups >= Min(st.maxParallel - Active(w.table), |w.table| - Active(w.table))
  }

  predicate RequestOk(st: Settings, p: Pool, r: Request) {
    && r.retries <= st.maxAttempts && r.started == r.retries + One(r.phase.InProgress?)
    && (r.phase.InProgress? ==> r.phase.conn < |p.hostOf| && p.hostOf[r.phase.conn] == r.target)
  }

  predicate TableOk(st: Settings, w: World) { forall i :: 0 <= i < |w.table| ==> RequestOk(st, w.pool, w.table[i]) }

  predicate SubmitsOk(w: World) {
    forall id :: id in w.posts.submits ==> w.posts.submits[id].id == id && w.posts.submits[id].phase.Waiting?
                                           && w.posts.submits[id].retries == 0 == w.posts.submits[id].started
  }

  /** Idle connections sit under their own host. */
  predicate PoolOk(p: Pool) {
    forall host, i :: host in p.idle && 0 <= i < |p.idle[host]| ==>
      p.idle[host][i] < |p.hostOf| && p.hostOf[p.idle[host][i]] == host
  }

  ghost predicate Laws(w: World) {
    && (forall id :: IdLaw(w, id)) && (forall h :: HandleLaw(w, h)) && (forall h :: ConnLaw(w, h))
  }

  ghost predicate Inv(st: Settings, w: World) {
    && Laws(w) && Active(w.table) == InUse(w) + |w.stuck|
    && Woken(st, w) && TableOk(st, w) && SubmitsOk(w) && PoolOk(w.pool)
  }

  // ----- counting -----

  lemma {:induction false} CountConcat(a: seq<Request>, b: seq<Request>, id: Id, h: Handle)
    ensures CountId(a + b, id) == CountId(a, id) + CountId(b, id)
    ensures CountConn(a + b, h) == CountConn(a, h) + CountConn(b, h)
    ensures Active(a + b) == Active(a) + Active(b)
  {
    if a == [] {
      assert a + b == b;
    } else {
      assert (a + b)[1..] == a[1..] + b;
      CountConcat(a[1..], b, id, h);
    }
  }

  lemma CountSingle(r: Request, id: Id, h: Handle)
    ensures CountId([r], id) == One(r.id == id) && CountConn([r], h) == One(Holds(r, h))
        && Active([r]) == One(r.phase.InProgress?)
  {
    assert [r][1..] == [];
  }

  lemma CountAppend(t: seq<Request>, r: Request, id: Id, h: Handle)
    ensures CountId(t + [r], id) == CountId(t, id) + One(r.id == id)
    ensures CountConn(t + [r], h) == CountConn(t, h) + One(Holds(r, h))
    ensures Active(t + [r]) == Active(t) + One(r.phase.InProgress?)
  {
    CountConcat(t, [r], id, h);
    CountSingle(r, id, h);
  }

  lemma CountAt(t: seq<Request>, i: nat, id: Id, h: Handle)
    requires i < |t|
    ensures CountId(t, id) == CountId(Without(t, i), id) + One(t[i].id == id)
    ensures CountConn(t, h) == CountConn(Without(t, i), h) + One(Holds(t[i], h))
    ensures Active(t) == Active(Without(t, i)) + One(t[i].phase.InProgress?)
  {
    var a, b := t[..i], t[i + 1..];
    assert t == a + [t[i]] + b;
    CountConcat(a + [t[i]], b, id, h);
    CountConcat(a, [t[i]], id, h);
    CountConcat(a, b, id, h);
    CountSingle(t[i], id, h);
  }

  lemma CountUpdate(t: seq<Request>, i: nat, r: Request, id: Id, h: Handle)
    requires i < |t|
    ensures CountId(t[i := r], id) + One(t[i].id == id) == CountId(t, id) + One(r.id == id)
    ensures CountConn(t[i := r], h) + One(Holds(t[i], h)) == CountConn(t, h) + One(Holds(r, h))
    ensures Active(t[i := r]) + One(t[i].phase.InProgress?) == Active(t) + One(r.phase.InProgress?)
  {
    CountAt(t, i, id, h);
    CountAt(t[i := r], i, id, h);
    assert Without(t[i := r], i) == Without(t, i);
  }

  lemma {:induction false} CountDoneConcat(a: seq<Completion>, b: seq<Completion>, h: Handle)
    ensures CountDone(a + b, h) == CountDone(a, h) + CountDone(b, h)
  {
    if a == [] {
      assert a + b == b;
    } else {
      assert (a + b)[1..] == a[1..] + b;
      CountDoneConcat(a[1..], b, h);
    }
  }

  lemma CountDoneSingle(c: Completion, h: Handle)
    ensures CountDone([c], h) == One(c.handle == h)
  {
    assert [c][1..] == [];
  }

  lemma CountDoneAt(d: seq<Completion>, k: nat, h: Handle)
    requires k < |d|
    ensures CountDone(d, h) == CountDone(Without(d, k), h) + One(d[k].handle == h)
  {
    var a, b := d[..k], d[k + 1..];
    assert d == a + [d[k]] + b;
    CountDoneConcat(a + [d[k]], b, h);
    CountDoneConcat(a, [d[k]], h);
    CountDoneConcat(a, b, h);
    CountDoneSingle(d[k], h);
  }

  lemma {:induction false} ActiveBound(t: seq<Request>)
    ensures Active(t) <= |t|
  {
    if t != [] { ActiveBound(t[1..]); }
  }

  lemma {:induction false} NoneFound(t: seq<Request>, h: Handle)
    requires forall j :: 0 <= j < |t| ==> !Holds(t[j], h)
    ensures CountConn(t, h) == 0
  {
    if t != [] { NoneFound(t[1..], h); }
  }

  // ----- the pool -----

  /** Connections that are neither idle nor dropped. */
  function Out(p: Pool, h: Handle): int { One(h < |p.hostOf|) - IdleCount(p, h) - One(h in p.dropped) }

  lemma LastOut<T>(s: seq<T>, x: T)
    requires s != []
    ensures multiset(s)[x] == multiset(s[..|s| - 1])[x] + (if s[|s| - 1] == x then 1 else 0)
  {
    assert s == s[..|s| - 1] + [s[|s| - 1]];
  }

  lemma AcquireKept(p: Pool, host: Host, x: Handle)
    requires PoolOk(p) && forall h :: h in p.dropped ==> h < |p.hostOf|
    ensures var (q, h) := Acquire(p, host);
            && PoolOk(q) && p.hostOf <= q.hostOf && h < |q.hostOf| && q.hostOf[h] == host
            && q.dropped == p.dropped && Out(q, x) == Out(p, x) + One(x == h)
  {
    var s := IdleAt(p, host);
    if s != [] {
      LastOut(s, x);
      assert host in p.idle && p.idle[host][|s| - 1] == s[|s| - 1];
      assert forall i :: 0 <= i < |s| - 1 ==> s[..|s| - 1][i] == p.idle[host][i];
    }
  }

  lemma IdleIn(p: Pool, host: Host, x: Handle)
    requires PoolOk(p) && x in IdleAt(p, host)
    ensures x < |p.hostOf| && p.hostOf[x] == host && IdleCount(p, x) > 0
  {
    var i :| 0 <= i < |IdleAt(p, host)| && IdleAt(p, host)[i] == x;
    assert host in p.idle && p.idle[host][i] == x;
  }

  lemma ReleaseKept(p: Pool, h: Handle, cleanUp: bool, x: Handle)
    requires PoolOk(p) && h < |p.hostOf| && Out(p, h) == 1 && 0 <= Out(p, x)
    ensures var q := Release(p, h, cleanUp);
            PoolOk(q) && q.hostOf == p.hostOf && Out(q, x) == Out(p, x) - One(x == h)
  {
    if cleanUp { ReleaseDrops(p, h, x); } else { ReleasePushes(p, h, x); }
    hide Release, PoolOk, Out;
  }

  lemma ReleaseDrops(p: Pool, h: Handle, x: Handle)
    requires PoolOk(p) && h < |p.hostOf| && Out(p, h) == 1 && 0 <= Out(p, x)
    ensures var q := Release(p, h, true);
            PoolOk(q) && q.hostOf == p.hostOf && Out(q, x) == Out(p, x) - One(x == h)
  {
    var host := p.hostOf[h];
    if x in IdleAt(p, host) { IdleIn(p, host, x); }
  }

  lemma ReleasePushes(p: Pool, h: Handle, x: Handle)
    requires PoolOk(p) && h < |p.hostOf|
    ensures var q := Release(p, h, false);
            PoolOk(q) && q.hostOf == p.hostOf && Out(q, x) == Out(p, x) - One(x == h)
  {
    var host := p.hostOf[h];
    var s := IdleAt(p, host);
    assert multiset(s + [h]) == multiset(s) + multiset{h};
    forall i | 0 <= i < |s + [h]| ensures (s + [h])[i] < |p.hostOf| && p.hostOf[(s + [h])[i]] == host {
      if i < |s| { assert p.idle[host][i] == s[i]; }
    }
  }

  lemma DroppedMade(w: World)
    requires Laws(w)
    ensures forall h :: h in w.pool.dropped ==> h < |w.pool.hostOf|
  {
    forall h | h in w.pool.dropped ensures h < |w.pool.hostOf| { assert HandleLaw(w, h); }
  }
}
