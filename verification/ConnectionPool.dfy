/** The connection pool as an object: a map from hosts to stacks of idle connections. */
module ConnectionPool {
  import opened Scheduler
  import opened PoolEffects

  class ConnectionPool {
    var idle: map<Host, seq<Handle>>
    /** The host of every connection made, by connection. */
    var hostOf: seq<Host>
    var allocations: nat
    /** The connections given up. */
    ghost var dropped: set<Handle>

    ghost function View(): Pool reads this { Pool(idle, hostOf, dropped) }

    ghost predicate Valid() reads this { allocations == |hostOf| }

    constructor ()
      ensures Valid() && View() == Pool(map[], [], {})
    {
      idle, hostOf, allocations, dropped := map[], [], 0, {};
    }

    /** `get_connection`; a new connection is named by its number. */
    method GetConnection(host: Host) returns (h: Handle)
      requires Valid()
      modifies this
      ensures Valid() && (View(), h) == Acquire(old(View()), host) && Gets(old(View()), host, View(), h)
    {
      AcquireExact(View(), host);
      if host !in idle { idle := idle[host := []]; }
      var stack := idle[host];
      if |stack| == 0 {
        assert idle == old(idle)[host := []];
        h := |hostOf|;
        hostOf := hostOf + [host];
        allocations := allocations + 1;
      } else {
        h := stack[|stack| - 1];
        idle := idle[host := stack[..|stack| - 1]];
      }
    }

    /** `release_connection`. */
    method ReleaseConnection(h: Handle, cleanUp: bool)
      requires Valid() && h < |hostOf|
      modifies this
      ensures Valid() && View() == Release(old(View()), h, cleanUp) && GivesBack(old(View()), h, cleanUp, View())
    {
      ReleaseExact(View(), h, cleanUp);
      var host := hostOf[h];
      if host !in idle { idle := idle[host := []]; }
      ghost var stack := idle[host];
      if cleanUp {
        dropped := dropped + {h} + (set x | x in stack);
        idle := idle[host := []];
      } else {
        idle := idle[host := idle[host] + [h]];
      }
    }
  }
}
