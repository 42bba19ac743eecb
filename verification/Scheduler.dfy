/** The request scheduler: the request table, the connection pool, the callback slot of every
    connection, and the handlers posted to the strands, as a transition system. */
module Scheduler {
  import opened Url
  import opened ErrorHandling

  type Id = nat
  type Handle = nat

  datatype Host = Host(name: string, port: nat)

  /** `request_state`; a connection is held exactly while in progress. */
  datatype Phase = WaitingRetry | Waiting | InProgress(conn: Handle)

  /** `request_data`.  A cancellation token stands for its place in the order of strings, 0 for the
      empty one; `started` counts how often the request was handed to a connection. */
  datatype Request = Request(id: Id, phase: Phase, created: nat, token: nat, target: Host, retries: nat, started: nat)

  /** A posted `on_request_completed`. */
  datatype Completion = Completion(handle: Handle, report: Report)

  datatype Settings = Settings(maxParallel: nat, maxAttempts: nat)

  /** `connection_pool`: per host a stack whose top is its last element, the host of every
      connection made, and the connections dropped. */
  datatype Pool = Pool(idle: map<Host, seq<Handle>>, hostOf: seq<Host>, dropped: set<Handle>)

  /** The posted handlers, by kind: those of one kind that cannot be told apart are counted. */
  datatype Posts = Posts(
    submits: map<Id, Request>,       // execute_request
    cancelAlls: multiset<nat>,       // cancel_requests
    wakeups: nat,                    // execute_waiting_requests
    starts: multiset<Handle>,        // http_content::start
    cancels: multiset<Handle>,       // http_content::cancel
    done: seq<Completion>)           // on_request_completed

  /** `armed`: connections whose `m_completed_request_callback` is set.  `stuck`: one entry for each
      time a redirect threw.  `calls`: how often the handler of each request was invoked. */
  datatype World = World(table: seq<Request>, pool: Pool, posts: Posts, armed: set<Handle>,
                         stuck: multiset<Handle>, next: Id, calls: multiset<Id>)

  // ----- the request table -----

  function CountId(table: seq<Request>, id: Id): nat {
    if table == [] then 0 else (if table[0].id == id then 1 else 0) + CountId(table[1..], id)
  }

  predicate Holds(r: Request, h: Handle) { r.phase == InProgress(h) }

  function CountConn(table: seq<Request>, h: Handle): nat {
    if table == [] then 0 else (if Holds(table[0], h) then 1 else 0) + CountConn(table[1..], h)
  }

  /** `index.count(request_state::in_progress)` */
  function Active(table: seq<Request>): nat {
    if table == [] then 0 else (if table[0].phase.InProgress? then 1 else 0) + Active(table[1..])
  }

  function Rank(p: Phase): nat { match p case WaitingRetry => 0 case Waiting => 1 case InProgress(_) => 2 }

  /** The order of the state index: by state, then by creation time. */
  predicate Before(a: Request, b: Request) {
    Rank(a.phase) < Rank(b.phase) || (Rank(a.phase) == Rank(b.phase) && a.created <= b.created)
  }

  predicate IsFirst(table: seq<Request>, i: nat) {
    i < |table| && forall j :: 0 <= j < |table| ==> Before(table[i], table[j])
  }

  function Without<T>(s: seq<T>, i: nat): seq<T>
    requires i < |s|
  {
    s[..i] + s[i + 1..]
  }

  // ----- the pool -----

  function IdleAt(p: Pool, host: Host): seq<Handle> { if host in p.idle then p.idle[host] else [] }

  /** `get_connection`: the top of the host's stack, or a new connection. */
  function Acquire(p: Pool, host: Host): (Pool, Handle) {
    var s := IdleAt(p, host);
    if s == [] then (p.(idle := p.idle[host := []], hostOf := p.hostOf + [host]), |p.hostOf|)
    else (p.(idle := p.idle[host := s[..|s| - 1]]), s[|s| - 1])
  }

  /** `release_connection`: after an error the connection and all idle ones of its host go. */
  function Release(p: Pool, h: Handle, cleanUp: bool): Pool
    requires h < |p.hostOf|
  {
    var host := p.hostOf[h];
    var s := IdleAt(p, host);
    if cleanUp then p.(idle := p.idle[host := []], dropped := p.dropped + {h} + (set x | x in s))
    else p.(idle := p.idle[host := s + [h]])
  }

  // ----- the handlers -----

  /** The guard of `execute_waiting_requests`. */
  predicate MayStart(st: Settings, w: World, i: nat) {
    Active(w.table) < st.maxParallel && i < |w.table| && !w.table[i].phase.InProgress?
  }

  /** `execute_waiting_requests`, with `i` first in the state index. */
  function ExecuteWaiting(st: Settings, w: World, i: nat): World {
    if !MayStart(st, w, i) then w
    else
      var r := w.table[i];
      var (pool, h) := Acquire(w.pool, r.target);
      w.(table := w.table[i := r.(phase := InProgress(h), started := r.started + 1)], pool := pool,
         posts := w.posts.(starts := w.posts.starts + multiset{h}))
  }

  /** `handle_completed_request`: invoke the handler, erase the entry, post a wake-up. */
  function Finished(w: World, i: nat): World
    requires i < |w.table|
  {
    w.(calls := w.calls + multiset{w.table[i].id}, table := Without(w.table, i),
       posts := w.posts.(wakeups := w.posts.wakeups + 1))
  }

  /** What becomes of an entry to retry. */
  function Again(r: Request, d: Decision): Request {
    r.(phase := WaitingRetry, retries := r.retries + 1,
       target := if d.Redirect? then Host(d.target.host, d.target.port) else r.target)
  }

  /** `on_request_completed` past the release, for the entry `i` found under the connection. */
  function Completed(st: Settings, w: World, c: Completion, i: nat): World
    requires i < |w.table|
  {
    var d := ProcessErrors(c.report);
    if d.Throws? then w.(stuck := w.stuck + multiset{c.handle})
    else if !d.Finish? && w.table[i].retries < st.maxAttempts then
      w.(table := w.table[i := Again(w.table[i], d)], posts := w.posts.(wakeups := w.posts.wakeups + 1))
    else Finished(w, i)
  }

  /** `on_request_completed` past the release, whether or not an entry is found. */
  function AfterRelease(st: Settings, w: World, c: Completion, i: nat): World {
    if i < |w.table| then Completed(st, w, c, i) else w
  }

  // ----- cancel_requests -----

  /** One turn of the loop, over entry `i`. */
  function CancelOne(w: World, i: nat): World
    requires i < |w.table|
  {
    match w.table[i].phase
    case InProgress(h) => w.(posts := w.posts.(cancels := w.posts.cancels + multiset{h}))
    case _ => Finished(w, i)
  }

  /** The loop, which goes from the first entry with the token to the end of the token index: it
      visits every entry whose token is not smaller. */
  function CancelFrom(w: World, token: nat, i: nat): World
    requires i <= |w.table|
    decreases |w.table| - i
  {
    if i == |w.table| then w
    else if w.table[i].token < token then CancelFrom(w, token, i + 1)
    else if w.table[i].phase.InProgress? then CancelFrom(CancelOne(w, i), token, i + 1)
    else CancelFrom(CancelOne(w, i), token, i)
  }

  predicate Found(table: seq<Request>, token: nat) {
    token == 0 || exists i :: 0 <= i < |table| && table[i].token == token
  }

  function CancelAll(w: World, token: nat): World {
    if Found(w.table, token) then CancelFrom(w, token, 0) else w
  }

  // ----- the slot of a connection -----

  /** `complete_request`: the callback runs once and is cleared. */
  function CompleteSlot(w: World, h: Handle, report: Report): World {
    if h !in w.armed then w
    else w.(armed := w.armed - {h}, posts := w.posts.(done := w.posts.done + [Completion(h, report)]))
  }

  // ----- the transitions -----

  /** What may happen next: the user's two calls, the posted handlers of the manager and of the
      connections, and whatever ends the request on a connection. */
  datatype Event =
    | Execute(created: nat, token: nat, target: Host)
    | Cancel(token: nat)
    | RunSubmit(id: Id, first: nat)
    | RunCancelAll(token: nat)
    | RunWakeup(first: nat)
    | RunStart(handle: Handle)
    | RunCancel(handle: Handle, report: Report)
    | Complete(handle: Handle, report: Report)
    | RunDone(k: nat, found: nat)

  /** `index.find(handle)`: an entry under this connection, or the end. */
  predicate IsFound(table: seq<Request>, h: Handle, i: nat) {
    if i < |table| then Holds(table[i], h) else i == |table| && forall j :: 0 <= j < |table| ==> !Holds(table[j], h)
  }

  predicate Enabled(w: World, e: Event) {
    match e
    case Execute(_, _, _) => true
    case Cancel(_) => true
    case RunSubmit(id, first) => id in w.posts.submits && IsFirst(w.table + [w.posts.submits[id]], first)
    case RunCancelAll(token) => token in w.posts.cancelAlls
    case RunWakeup(first) => w.posts.wakeups > 0 && (w.table != [] ==> IsFirst(w.table, first))
    case RunStart(h) => h in w.posts.starts
    case RunCancel(h, report) => h in w.posts.cancels && report.ec.Aborted?
    case Complete(h, _) => h in w.armed
    case RunDone(k, found) =>
      k < |w.posts.done| && w.posts.done[k].handle < |w.pool.hostOf| && IsFound(w.table, w.posts.done[k].handle, found)
  }

  function Submitted(w: World, created: nat, token: nat, target: Host): World {
    w.(next := w.next + 1,
       posts := w.posts.(submits := w.posts.submits[w.next := Request(w.next, Waiting, created, token, target, 0, 0)]))
  }

  /** `execute_request`. */
  function Inserted(w: World, id: Id): World
    requires id in w.posts.submits
  {
    w.(table := w.table + [w.posts.submits[id]], posts := w.posts.(submits := w.posts.submits - {id}))
  }

  /** `on_request_completed`. */
  function Done(st: Settings, w: World, k: nat, found: nat): World
    requires Enabled(w, RunDone(k, found))
  {
    var c := w.posts.done[k];
    AfterRelease(st,
      w.(pool := Release(w.pool, c.handle, !c.report.ec.NoError?), posts := w.posts.(done := Without(w.posts.done, k))),
                 c, found)
  }

  function Next(st: Settings, w: World, e: Event): World
    requires Enabled(w, e)
  {
    match e
    case Execute(created, token, target) => Submitted(w, created, token, target)
    case Cancel(token) => w.(posts := w.posts.(cancelAlls := w.posts.cancelAlls + multiset{token}))
    case RunSubmit(id, first) => ExecuteWaiting(st, Inserted(w, id), first)
    case RunCancelAll(token) =>
      CancelAll(w.(posts := w.posts.(cancelAlls := w.posts.cancelAlls - multiset{token})), token)
    case RunWakeup(first) => ExecuteWaiting(st, w.(posts := w.posts.(wakeups := w.posts.wakeups - 1)), first)
    case RunStart(h) => w.(armed := w.armed + {h}, posts := w.posts.(starts := w.posts.starts - multiset{h}))
    case RunCancel(h, report) =>
      CompleteSlot(w.(posts := w.posts.(cancels := w.posts.cancels - multiset{h})), h, report)
    case Complete(h, report) => CompleteSlot(w, h, report)
    case RunDone(k, found) => Done(st, w, k, found)
  }

  const INITIALLY := World([], Pool(map[], [], {}), Posts(map[], multiset{}, 0, multiset{}, multiset{}, []), {},
    multiset{}, 0, multiset{})

  /** A run: each event enabled where it happens. */
  predicate IsRun(st: Settings, w: World, es: seq<Event>, v: World)
    decreases |es|
  {
    if es == [] then v == w else Enabled(w, es[0]) && IsRun(st, Next(st, w, es[0]), es[1..], v)
  }
}
