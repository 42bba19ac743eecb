/** What `get_connection` and `release_connection` do to the pool, said of the stacks themselves. */
module PoolEffects {
  import opened Scheduler

  /** All stacks but that of one host are as they were. */
  ghost predicate OthersKept(p: Pool, host: Host, q: Pool) {
    forall other :: other != host ==> IdleAt(q, other) == IdleAt(p, other)
  }

  /** A connection for `host`: the last one released, which leaves the stack, or a new one, if and only if
      none is idle under that host. */
  ghost predicate Gets(p: Pool, host: Host, q: Pool, h: Handle) {
    var s := IdleAt(p, host);
    && OthersKept(p, host, q) && q.dropped == p.dropped
    && (s != [] <==> q.hostOf == p.hostOf)
    && (s != [] ==> h == s[|s| - 1] && s == IdleAt(q, host) + [h])
    && (s == [] ==> h == |p.hostOf| && q.hostOf == p.hostOf + [host] && IdleAt(q, host) == [])
  }

  /** A connection given back: on top of its host's stack, or dropped with all that are idle there. */
  ghost predicate GivesBack(p: Pool, h: Handle, cleanUp: bool, q: Pool) {
    h < |p.hostOf| &&
    var host := p.hostOf[h];
    && OthersKept(p, host, q) && q.hostOf == p.hostOf
    && (cleanUp ==>
      && IdleAt(q, host) == []
      && forall x :: x in q.dropped <==> x in p.dropped || x == h || x in IdleAt(p, host))
    && (!cleanUp ==> IdleAt(q, host) == IdleAt(p, host) + [h] && q.dropped == p.dropped)
  }

  lemma AcquireExact(p: Pool, host: Host)
    ensures Gets(p, host, Acquire(p, host).0, Acquire(p, host).1)
  {
    var s := IdleAt(p, host);
    if s == [] {
      var other := p.hostOf + [host];
      assert |other| != |p.hostOf|;
    } else {
      assert s == s[..|s| - 1] + [s[|s| - 1]];
    }
  }

  lemma ReleaseExact(p: Pool, h: Handle, cleanUp: bool)
    requires h < |p.hostOf|
    ensures GivesBack(p, h, cleanUp, Release(p, h, cleanUp))
  {
  }

  /** A connection that was given back without an error is the next one for its host. */
  lemma LastInFirstOut(p: Pool, h: Handle, q: Pool, r: Pool, x: Handle)
    requires GivesBack(p, h, false, q) && Gets(q, p.hostOf[h], r, x)
    ensures x == h && IdleAt(r, p.hostOf[h]) == IdleAt(p, p.hostOf[h]) && r.hostOf == q.hostOf
  {
    var host := p.hostOf[h];
    var (s, t) := (IdleAt(p, host), IdleAt(r, host));
    assert (s + [h])[..|s|] == s && (t + [x])[..|t|] == t;
    hide OthersKept;
  }
}
