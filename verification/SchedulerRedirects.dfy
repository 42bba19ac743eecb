/** What a completed attempt leads to, and what redirects that throw do to the rest of a run. */
module SchedulerRedirects {
  import opened Headers
  import opened Numbers
  import opened Url
  import opened ErrorHandling
  import opened Scheduler
  import opened SchedulerInvariant
  import opened SchedulerSteps
  import opened SchedulerTermination
  import opened SchedulerResults

  // ----- one completion -----

  /** The entry waits for its next attempt, and its handler has not been invoked. */
  predicate WaitsAgain(w: World, v: World, i: nat)
    requires i < |w.table|
  {
    && |v.table| == |w.table| && v.table == w.table[i := v.table[i]] && v.calls == w.calls && v.stuck == w.stuck
    && v.table[i] == w.table[i].(phase := WaitingRetry, retries := w.table[i].retries + 1, target := v.table[i].target)
    && v.posts.wakeups == w.posts.wakeups + 1
  }

  /** The handler of the entry is invoked, and the entry is gone. */
  predicate GivenBack(w: World, v: World, i: nat)
    requires i < |w.table|
  {
    && v.calls == w.calls + multiset{w.table[i].id} && v.table == Without(w.table, i) && v.stuck == w.stuck
    && v.posts.wakeups == w.posts.wakeups + 1
  }

  /** The exception leaves the entry as it is; nothing is posted. */
  predicate Stranded(w: World, v: World, h: Handle) {
    v.table == w.table && v.calls == w.calls && v.stuck == w.stuck + multiset{h} && v.posts.wakeups == w.posts.wakeups
  }

  /** What becomes of a request whose connection reports, whatever it reports: a further attempt, if and
      only if one is left and the error is transient or the report redirects to a URL; an exception, if
      and only if it redirects to what is no URL, with or without attempts left; else its handler. */
  lemma CompletionExact(st: Settings, w: World, k: nat, found: nat)
    requires Reachable(st, w) && Enabled(w, RunDone(k, found))
    ensures found < |w.table|
    ensures var (v, r) := (Next(st, w, RunDone(k, found)), w.posts.done[k].report);
            var (l, more) := (GetHeader(r.headers, "Location"), w.table[found].retries < st.maxAttempts);
            && (WaitsAgain(w, v, found) <==> more && (IsTransient(r.ec) || (Redirecting(r) && IsUrl(l))))
            && (Stranded(w, v, w.posts.done[k].handle) <==> Redirecting(r) && !IsUrl(l))
            && (GivenBack(w, v, found) <==> if IsTransient(r.ec) then !more else Redirecting(r) ==> IsUrl(l) && !more)
            && (WaitsAgain(w, v, found) && Redirecting(r) ==>
              v.table[found].target == Host(Parse(l).value.host, Parse(l).value.port))
            && (WaitsAgain(w, v, found) && !Redirecting(r) ==> v.table[found].target == w.table[found].target)
  {
    ReachableOk(st, w);
    AlwaysFound(w, k, found);
    hide Inv, Release, IsUrl, ProcessErrors, Redirecting, IsTransient, Parse, GetHeader;
    var r := w.posts.done[k].report;
    DecisionBy(r);
    RedirectTarget(r);
    NotTransient(r);
    WithoutShorter(w.table, found);
  }

  lemma RedirectTarget(r: Report)
    ensures ProcessErrors(r).Redirect? ==>
              var p := Parse(GetHeader(r.headers, "Location")); p.Some? && ProcessErrors(r).target == p.value
  {
    hide Parse, GetHeader;
  }

  lemma NotTransient(r: Report)
    ensures Redirecting(r) ==> !IsTransient(r.ec)
  {
  }

  lemma WithoutShorter(t: seq<Request>, i: nat)
    requires i < |t|
    ensures |Without(t, i)| == |t| - 1
  {
  }

  /** So a request that was cancelled on its connection is tried again, if and only if its report
      redirects to a URL and an attempt is left. */
  lemma CancelledExact(st: Settings, w: World, k: nat, found: nat)
    requires Reachable(st, w) && Enabled(w, RunDone(k, found)) && w.posts.done[k].report.ec.Aborted?
    ensures found < |w.table|
    ensures var (v, r) := (Next(st, w, RunDone(k, found)), w.posts.done[k].report);
            var l := GetHeader(r.headers, "Location");
            && (WaitsAgain(w, v, found) <==>
              301 <= r.status <= 308 && l != "" && IsUrl(l) && w.table[found].retries < st.maxAttempts)
            && (Stranded(w, v, w.posts.done[k].handle) <==> 301 <= r.status <= 308 && l != "" && !IsUrl(l))
  {
    CompletionExact(st, w, k, found);
    hide Next, Enabled, WaitsAgain, Stranded, GivenBack, Parse, IsUrl, GetHeader, Reachable;
  }

  /** A request whose connection reports the end of the input, as it does after every body that runs to it,
      is tried again, if and only if an attempt is left; else its handler is invoked with that error. */
  lemma EofExact(st: Settings, w: World, k: nat, found: nat)
    requires Reachable(st, w) && Enabled(w, RunDone(k, found)) && w.posts.done[k].report.ec.Eof?
    ensures found < |w.table|
    ensures var v := Next(st, w, RunDone(k, found));
            && (WaitsAgain(w, v, found) <==> w.table[found].retries < st.maxAttempts)
            && (GivenBack(w, v, found) <==> w.table[found].retries == st.maxAttempts)
            && !Stranded(w, v, w.posts.done[k].handle)
  {
    CompletionExact(st, w, k, found);
    RetriesWithin(st, w, found);
    hide Next, Enabled, WaitsAgain, Stranded, GivenBack, Parse, IsUrl, GetHeader, Reachable;
  }

  lemma RetriesWithin(st: Settings, w: World, i: nat)
    requires Reachable(st, w) && i < |w.table|
    ensures w.table[i].retries <= st.maxAttempts
  {
    ReachableOk(st, w);
    hide Laws, Woken, SubmitsOk, PoolOk, Reachable;
  }

  // ----- two runs -----

  lemma RunThen(st: Settings, w: World, es: seq<Event>, v: World, e: Event)
    requires IsRun(st, w, es, v) && Enabled(v, e)
    ensures IsRun(st, w, es + [e], Next(st, v, e))
    ensures Thrown(st, w, es + [e]) == Thrown(st, w, es) + Thrown(st, v, [e])
    decreases |es|
  {
    hide Enabled, Next, ProcessErrors;
    if es == [] {
      assert es + [e] == [e] && [e][1..] == [];
    } else {
      assert (es + [e])[1..] == es[1..] + [e];
      RunThen(st, Next(st, w, es[0]), es[1..], v, e);
    }
  }

  /** One request, at work on the only connection. */
  function AtWork(target: Host): World {
    World([Request(0, InProgress(0), 0, 0, target, 0, 1)], Pool(map[target := []], [target], {}),
          Posts(map[], multiset{}, 0, multiset{}, multiset{}, []), {0}, multiset{}, 1, multiset{})
  }

  lemma StartSteps(st: Settings, target: Host) returns (w1: World, w2: World)
    requires st.maxParallel >= 1
    ensures Next(st, INITIALLY, Execute(0, 0, target)) == w1
    ensures Enabled(w1, RunSubmit(0, 0)) && Next(st, w1, RunSubmit(0, 0)) == w2
    ensures Enabled(w2, RunStart(0)) && Next(st, w2, RunStart(0)) == AtWork(target)
  {
    var r := Request(0, Waiting, 0, 0, target, 0, 0);
    w1 := Submitted(INITIALLY, 0, 0, target);
    assert w1.posts.submits == map[0 := r] && IsFirst([] + [r], 0);
    w2 := Next(st, w1, RunSubmit(0, 0));
    assert Inserted(w1, 0).table == [r] && Inserted(w1, 0).posts.submits == map[];
    assert Active([r]) == 0 by { CountSingle(r, 0, 0); }
  }

  lemma StartsWork(st: Settings, target: Host) returns (es: seq<Event>)
    requires st.maxParallel >= 1
    ensures IsRun(st, INITIALLY, es, AtWork(target)) && Thrown(st, INITIALLY, es) == 0
  {
    hide Next, Enabled, AtWork;
    var w1, w2 := StartSteps(st, target);
    assert Enabled(INITIALLY, Execute(0, 0, target)) by { AlwaysEnabled(Execute(0, 0, target)); }
    es := [Execute(0, 0, target)];
    assert [] + es == es;
    RunThen(st, INITIALLY, [], INITIALLY, Execute(0, 0, target));
    RunThen(st, INITIALLY, es, w1, RunSubmit(0, 0));
    RunThen(st, INITIALLY, es + [RunSubmit(0, 0)], w2, RunStart(0));
    ThrownOne(st, INITIALLY, Execute(0, 0, target));
    ThrownOne(st, w1, RunSubmit(0, 0));
    ThrownOne(st, w2, RunStart(0));
    es := es + [RunSubmit(0, 0)] + [RunStart(0)];
  }

  lemma AlwaysEnabled(e: Event)
    requires e.Execute? || e.Cancel?
    ensures forall w: World :: Enabled(w, e)
  {
  }

  /** The connection at work has reported. */
  function Reported(target: Host, report: Report): World {
    var w := AtWork(target);
    w.(armed := {}, posts := w.posts.(done := [Completion(0, report)]))
  }

  lemma ReportsDone(st: Settings, target: Host, report: Report)
    ensures Enabled(Reported(target, report), RunDone(0, 0))
    ensures var (w, v) := (Reported(target, report), Next(st, Reported(target, report), RunDone(0, 0)));
            && v.posts.done == [] && v.posts.starts == multiset{} && v.armed == {} && v.posts.cancels == multiset{}
            && (ProcessErrors(report).Throws? ==>
              Quiet(v) && v.table == w.table && v.next == 1 && v.calls == multiset{})
            && (ProcessErrors(report).Redirect? && st.maxAttempts >= 1 ==> WaitsAgain(w, v, 0))
  {
    hide ProcessErrors, Release;
    var w := Reported(target, report);
    assert Without(w.posts.done, 0) == [];
  }

  /** A run that ends with all quiet and a handler that was never invoked: a redirect to a path. */
  lemma StrandedRun(st: Settings) returns (es: seq<Event>, w: World)
    requires st.maxParallel >= 1
    ensures IsRun(st, INITIALLY, es, w) && Quiet(w) && Thrown(st, INITIALLY, es) == 1
    ensures w.next == 1 && w.calls[0] == 0 && |w.table| == 1
  {
    hide Next, Enabled, ProcessErrors;
    var (target, report) := (Host("h", 80), Located(NoError, "/x"));
    TwoReports();
    var u := AtWork(target);
    es := StartsWork(st, target);
    Reports(st, target, report);
    RunThen(st, INITIALLY, es, u, Complete(0, report));
    ReportsDone(st, target, report);
    var v := Reported(target, report);
    RunThen(st, INITIALLY, es + [Complete(0, report)], v, RunDone(0, 0));
    es := es + [Complete(0, report)] + [RunDone(0, 0)];
    w := Next(st, v, RunDone(0, 0));
    ThrownOne(st, u, Complete(0, report));
    ThrownOne(st, v, RunDone(0, 0));
  }

  lemma Reports(st: Settings, target: Host, report: Report)
    ensures Enabled(AtWork(target), Complete(0, report))
        && Next(st, AtWork(target), Complete(0, report)) == Reported(target, report)
  {
  }

  lemma ThrownOne(st: Settings, w: World, e: Event)
    requires Enabled(w, e)
    ensures Thrown(st, w, [e]) == One(e.RunDone? && ProcessErrors(w.posts.done[e.k].report).Throws?)
  {
    hide Next, ProcessErrors;
    assert [e][1..] == [];
  }

  /** A run in which all requests are cancelled, the connection is told so and stops with an abort, and
      yet the request waits for another attempt: the head with its redirect had arrived. */
  lemma CancelledRun(st: Settings) returns (es: seq<Event>, w: World)
    requires st.maxParallel >= 1 && st.maxAttempts >= 1
    ensures IsRun(st, INITIALLY, es, w) && Cancel(0) in es && RunCancel(0, Located(Aborted, "h")) in es
    ensures |w.table| == 1 && w.table[0].phase.WaitingRetry? && w.calls[0] == 0
  {
    hide Next, Enabled, ProcessErrors;
    var (target, report) := (Host("h", 80), Located(Aborted, "h"));
    TwoReports();
    var u := AtWork(target);
    es := StartsWork(st, target);
    CancelSteps(st, target, report);
    var u1 := u.(posts := u.posts.(cancelAlls := multiset{0}));
    var u2 := u.(posts := u.posts.(cancels := multiset{0}));
    RunThen(st, INITIALLY, es, u, Cancel(0));
    RunThen(st, INITIALLY, es + [Cancel(0)], u1, RunCancelAll(0));
    RunThen(st, INITIALLY, es + [Cancel(0)] + [RunCancelAll(0)], u2, RunCancel(0, report));
    var v := Reported(target, report);
    ReportsDone(st, target, report);
    RunThen(st, INITIALLY, es + [Cancel(0)] + [RunCancelAll(0)] + [RunCancel(0, report)], v, RunDone(0, 0));
    es := es + [Cancel(0)] + [RunCancelAll(0)] + [RunCancel(0, report)] + [RunDone(0, 0)];
    w := Next(st, v, RunDone(0, 0));
  }

  lemma CancelSteps(st: Settings, target: Host, report: Report)
    requires report.ec.Aborted?
    ensures var u := AtWork(target);
            var (u1, u2) := (u.(posts := u.posts.(cancelAlls := multiset{0})),
              u.(posts := u.posts.(cancels := multiset{0})));
            && Enabled(u, Cancel(0)) && Next(st, u, Cancel(0)) == u1
            && Enabled(u1, RunCancelAll(0)) && Next(st, u1, RunCancelAll(0)) == u2
            && Enabled(u2, RunCancel(0, report)) && Next(st, u2, RunCancel(0, report)) == Reported(target, report)
  {
    var u := AtWork(target);
    var u0 := u.(posts := u.posts.(cancelAlls := multiset{0} - multiset{0}));
    assert multiset{} + multiset{0} == multiset{0} && multiset{0} - multiset{0} == multiset{};
    var u2 := u.(posts := u.posts.(cancels := multiset{0}));
    assert CancelOne(u0, 0) == u2;
    assert CancelFrom(u0, 0, 0) == CancelFrom(u2, 0, 1) == u2;
  }

  // ----- every place taken -----

  /** No place is left: whatever is still to happen starts nothing. */
  predicate Starved(st: Settings, w: World) { |w.stuck| == st.maxParallel }

  lemma StarvedIdle(st: Settings, w: World)
    requires Inv(st, w) && Starved(st, w)
    ensures Active(w.table) == st.maxParallel && w.posts.starts == multiset{} && w.armed == {} && w.posts.done == []
  {
    hide Active, Laws, TableOk, SubmitsOk, PoolOk;
  }

  /** An event where no place is left: no entry comes to be in progress, and no redirect throws. */
  lemma StarvedStep(st: Settings, w: World, e: Event)
    requires Inv(st, w) && Starved(st, w) && Enabled(w, e)
    ensures Starved(st, Next(st, w, e)) && forall r :: r in Next(st, w, e).table && r.phase.InProgress? ==> r in w.table
  {
    StarvedIdle(st, w);
    EventStuck(st, w, e);
    hide Inv, Active, CancelFrom, ProcessErrors, IsFirst, IsFound, Release, Acquire;
    match e {
      case RunSubmit(id, first) =>
        InvSubmits(st, w);
        CountAppend(w.table, w.posts.submits[id], 0, 0);
      case RunCancelAll(token) =>
        CancelKeeps(w.(posts := w.posts.(cancelAlls := w.posts.cancelAlls - multiset{token})), token, 0);
      case _ =>
    }
  }

  lemma InvSubmits(st: Settings, w: World)
    requires Inv(st, w)
    ensures SubmitsOk(w)
  {
  }

  lemma {:induction false} CancelKeeps(w: World, token: nat, i: nat)
    requires i <= |w.table|
    ensures forall r :: r in CancelFrom(w, token, i).table ==> r in w.table
    decreases |w.table| - i
  {
    if i < |w.table| {
      if w.table[i].token < token { CancelKeeps(w, token, i + 1); }
      else { CancelKeeps(CancelOne(w, i), token, if w.table[i].phase.InProgress? then i + 1 else i); }
    }
  }

  /** Once as many redirects have thrown as there are places, no waiting request is started any more,
      whatever happens: every entry in progress was in progress then, all connections are at rest, and
      no more redirects can throw. */
  lemma {:induction false} NeverStarted(st: Settings, w: World, es: seq<Event>, v: World)
    requires Inv(st, w) && Starved(st, w) && IsRun(st, w, es, v)
    ensures Inv(st, v) && Starved(st, v) && v.posts.starts == multiset{} && v.armed == {}
        && Active(v.table) == st.maxParallel
    ensures forall r :: r in v.table && r.phase.InProgress? ==> r in w.table
    decreases |es|
  {
    hide Inv, Active, Enabled, Next;
    if es == [] {
      StarvedIdle(st, w);
    } else {
      EventKept(st, w, es[0]);
      StarvedStep(st, w, es[0]);
      NeverStarted(st, Next(st, w, es[0]), es[1..], v);
    }
  }

  /** The same from the start of a run: at most `max_parallel_requests` redirects throw in it, and once
      that many have, nothing is started. */
  lemma StarvesAt(st: Settings, es: seq<Event>, w: World, fs: seq<Event>, v: World)
    requires IsRun(st, INITIALLY, es, w) && IsRun(st, w, fs, v)
    ensures Thrown(st, INITIALLY, es) <= st.maxParallel
    ensures Thrown(st, INITIALLY, es) == st.maxParallel ==>
              && v.posts.starts == multiset{} && v.armed == {} && Thrown(st, w, fs) == 0
              && forall r :: r in v.table && r.phase.InProgress? ==> r in w.table
  {
    InitiallyOk(st);
    RunKept(st, INITIALLY, es, w);
    StuckByThrows(st, INITIALLY, es, w);
    StuckByThrows(st, w, fs, v);
    InvStuck(st, w);
    hide Inv, Active, Thrown;
    if Thrown(st, INITIALLY, es) == st.maxParallel { NeverStarted(st, w, fs, v); }
  }

  lemma InvStuck(st: Settings, w: World)
    requires Inv(st, w)
    ensures |w.stuck| <= st.maxParallel
  {
    hide Laws, Active;
  }
}
