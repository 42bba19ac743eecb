/** The request manager as an object, proved against the transition system. */
module RequestManager {
  import opened Url
  import opened ErrorHandling
  import opened Scheduler
  import opened SchedulerEffects
  import P = ConnectionPool

  class RequestManager {
    const st: Settings
    const pool: P.ConnectionPool
    var table: seq<Request>
    /** Handlers posted and not yet run, connections with a callback, and the users' calls. */
    var posts: Posts
    var armed: set<Handle>
    var next: Id
    var calls: multiset<Id>
    var stuck: multiset<Handle>

    ghost function View(): World reads this, pool { World(table, pool.View(), posts, armed, stuck, next, calls) }

    ghost predicate Valid() reads this, pool { pool.Valid() }

    constructor (settings: Settings)
      ensures Valid() && View() == INITIALLY && st == settings && fresh(pool)
    {
      st := settings;
      pool := new P.ConnectionPool();
      table, posts, armed := [], Posts(map[], multiset{}, 0, multiset{}, multiset{}, []), {};
      next, calls, stuck := 0, multiset{}, multiset{};
    }

    /** `execute_request`. */
    method ExecuteRequest(r: Request) returns (ghost first: nat)
      requires Valid()
      modifies this, pool
      ensures Valid() && IsFirst(old(table) + [r], first)
      ensures View() == ExecuteWaiting(st, old(View()).(table := old(table) + [r]), first)
      ensures StartsOldest(st, old(View()).(table := old(table) + [r]), View())
    {
      table := table + [r];
      first := ExecuteWaitingRequests();
    }

    /** The first entry of the state index. */
    method FirstInIndex() returns (i: nat)
      requires table != []
      ensures IsFirst(table, i)
    {
      i := 0;
      var j := 1;
      while j < |table|
        invariant i < j <= |table| && forall k :: 0 <= k < j ==> Before(table[i], table[k])
      {
        if !Before(table[i], table[j]) { i := j; }
        j := j + 1;
      }
    }

    /** `index.count(request_state::in_progress)`. */
    method CountInProgress() returns (n: nat)
      ensures n == Active(table)
    {
      n := 0;
      var i := |table|;
      while i > 0
        invariant 0 <= i <= |table| && n == Active(table[i..])
      {
        i := i - 1;
        assert table[i..][1..] == table[i + 1..];
        if table[i].phase.InProgress? { n := n + 1; }
      }
      assert table[0..] == table;
    }

    /** `execute_waiting_requests`. */
    method ExecuteWaitingRequests() returns (first: nat)
      requires Valid()
      modifies this, pool
      ensures Valid() && (old(table) != [] ==> IsFirst(old(table), first))
      ensures View() == ExecuteWaiting(st, old(View()), first) && StartsOldest(st, old(View()), View())
    {
      hide StartsOldest;
      first := 0;
      if |table| != 0 { first := FirstInIndex(); }
      var active := CountInProgress();
      if active < st.maxParallel && |table| != 0 && !table[first].phase.InProgress? {
        var r := table[first];
        var h := pool.GetConnection(r.target);
        table := table[first := r.(phase := InProgress(h), started := r.started + 1)];
        posts := posts.(starts := posts.starts + multiset{h});
      }
      ExecuteExact(st, old(View()), first);
    }

    /** `handle_completed_request`. */
    method HandleCompletedRequest(i: nat)
      requires i < |table|
      modifies this
      ensures View() == Finished(old(View()), i)
    {
      calls := calls + multiset{table[i].id};
      table := table[..i] + table[i + 1..];
      posts := posts.(wakeups := posts.wakeups + 1);
    }

    /** `index.find(token)`, or the start of the index for the empty token. */
    method FindToken(token: nat) returns (found: bool)
      ensures found == Found(table, token)
    {
      found := token == 0;
      var i := 0;
      while i < |table| && !found
        invariant i <= |table| && (found ==> Found(table, token))
        invariant !found ==> token != 0 && forall k :: 0 <= k < i ==> table[k].token != token
      {
        if table[i].token == token { found := true; }
        i := i + 1;
      }
    }

    /** `cancel_requests`. */
    method CancelRequests(token: nat)
      modifies this
      ensures View() == CancelAll(old(View()), token) && Cancels(old(View()), View(), token)
    {
      CancelExact(View(), token);
      hide Cancels;
      var found := FindToken(token);
      if !found { return; }
      var i := 0;
      while i < |table|
        invariant i <= |table|
        invariant CancelFrom(View(), token, i) == CancelFrom(old(View()), token, 0)
        decreases |table| - i
      {
        if table[i].token < token {
          i := i + 1;
        } else if table[i].phase.InProgress? {
          posts := posts.(cancels := posts.cancels + multiset{table[i].phase.conn});
          i := i + 1;
        } else {
          HandleCompletedRequest(i);
        }
      }
    }

    /** `index.find(handle)`. */
    method FindConnection(h: Handle) returns (i: nat)
      ensures IsFound(table, h, i)
    {
      i := 0;
      while i < |table| && table[i].phase != InProgress(h)
        invariant i <= |table| && forall k :: 0 <= k < i ==> !Holds(table[k], h)
      {
        i := i + 1;
      }
    }

    /** `on_request_completed`; `found` is the entry that the index search ends at. */
    method OnRequestCompleted(c: Completion) returns (found: nat)
      requires Valid() && c.handle < |pool.hostOf|
      modifies this, pool
      ensures Valid() && IsFound(old(table), c.handle, found)
      ensures View()
          == AfterRelease(st, old(View()).(pool := Release(old(pool.View()), c.handle, !c.report.ec.NoError?)), c,
            found)
    {
      hide ProcessErrors, Release;
      pool.ReleaseConnection(c.handle, !c.report.ec.NoError?);
      found := FindConnection(c.handle);
      if found == |table| { return; }
      var d := ProcessErrors(c.report);
      if d.Throws? {
        stuck := stuck + multiset{c.handle};
      } else if !d.Finish? && table[found].retries < st.maxAttempts {
        table := table[found := Again(table[found], d)];
        posts := posts.(wakeups := posts.wakeups + 1);
      } else {
        HandleCompletedRequest(found);
      }
    }
  }
}
