/** The top layer of a connection: the one-shot slot that holds the manager's callback, and the
    result that it hands over. */
module HttpContent {
  import opened ErrorHandling
  import opened Numbers
  import opened Headers
  import opened RequestPrinter

  /** `http_result_data`. */
  datatype Result = Result(status: nat, headers: seq<Pair>, data: string)

  const NO_RESULT := Result(0, [], "")

  /** What the callback is given. */
  datatype Call = Call(result: Result, ec: Error)

  /** The slot, what has been received, and the callbacks run since the connection was made. */
  datatype Slot = Slot(armed: bool, result: Result, sink: string, calls: seq<Call>)

  /** `start` replaces the callback and the sink. */
  function Started(s: Slot): Slot { s.(armed := true, sink := "") }

  function Completed(s: Slot, ec: Error): Slot {
    if !s.armed then s
    else Slot(false, NO_RESULT, s.sink, s.calls + [Call(s.result.(data := s.sink), ec)])
  }

  function Headed(s: Slot, status: nat, headers: seq<Pair>): Slot {
    s.(result := s.result.(status := status, headers := headers))
  }

  /** What happens to the top layer. */
  datatype Event = Start | Head(status: nat, headers: seq<Pair>) | Body(at: string) | End(ec: Error)

  function Step(s: Slot, e: Event): Slot {
    match e
    case Start => Started(s)
    case Head(status, headers) => Headed(s, status, headers)
    case Body(at) => s.(sink := s.sink + at)
    case End(ec) => Completed(s, ec)
  }

  function Run(s: Slot, es: seq<Event>): Slot { if es == [] then s else Step(Run(s, es[..|es| - 1]), es[|es| - 1]) }

  lemma {:induction false} RunConcat(s: Slot, x: seq<Event>, y: seq<Event>)
    ensures Run(s, x + y) == Run(Run(s, x), y)
    decreases |y|
  {
    hide Step;
    if y == [] {
      assert x + y == x;
    } else {
      assert (x + y)[..|x + y| - 1] == x + y[..|y| - 1];
      RunConcat(s, x, y[..|y| - 1]);
    }
  }

  lemma RunOne(s: Slot, e: Event)
    ensures Run(s, [e]) == Step(s, e)
  {
    assert [e][..0] == [] && Run(s, [e][..0]) == s;
    hide Step;
  }

  function Starts(es: seq<Event>): nat {
    if es == [] then 0 else Starts(es[..|es| - 1]) + (if es[|es| - 1].Start? then 1 else 0)
  }

  /** The manager starts a connection only when its slot is empty. */
  predicate WellUsed(s: Slot, es: seq<Event>) {
    es == [] || (WellUsed(s, es[..|es| - 1]) && (es[|es| - 1].Start? ==> !Run(s, es[..|es| - 1]).armed))
  }

  /** Errors, completions, timeouts and cancellations in any order: the callback of every start has
      run once, or is still in the slot. */
  lemma {:induction false} OneShot(s: Slot, es: seq<Event>)
    requires WellUsed(s, es)
    ensures var t := Run(s, es);
            |t.calls| + (if t.armed then 1 else 0) == |s.calls| + (if s.armed then 1 else 0) + Starts(es)
    ensures s.calls <= Run(s, es).calls
  {
    if es != [] { OneShot(s, es[..|es| - 1]); }
  }

  function Received(es: seq<Event>): string {
    if es == [] then "" else Received(es[..|es| - 1]) + (if es[|es| - 1].Body? then es[|es| - 1].at else "")
  }

  predicate OnlyBody(es: seq<Event>) { forall e :: e in es ==> e.Body? || e.Head? }

  lemma {:induction false} BodyRun(s: Slot, es: seq<Event>)
    requires OnlyBody(es)
    ensures var t := Run(s, es); t.sink == s.sink + Received(es) && t.calls == s.calls && t.armed == s.armed
  {
    if es != [] {
      assert es[|es| - 1] in es;
      BodyRun(s, es[..|es| - 1]);
    }
  }

  /** The callback is given all the body bytes that came after the start, in order. */
  lemma WholeBody(s: Slot, es: seq<Event>, ec: Error)
    requires OnlyBody(es)
    ensures var t := Completed(Run(Started(s), es), ec);
            |t.calls| == |s.calls| + 1 && t.calls[|s.calls|].result.data == Received(es)
              && t.calls[|s.calls|].ec == ec && !t.armed
  {
    BodyRun(Started(s), es);
    assert "" + Received(es) == Received(es);
    hide Run, Received;
  }

  // ----- whose head a callback is given -----

  /** A new connection; nothing has been received. */
  const UNUSED := Slot(false, NO_RESULT, "", [])

  /** A callback is set: the last start has not been answered. */
  predicate Armed(es: seq<Event>) {
    es != [] && match es[|es| - 1]
      case Start => true
      case End(_) => false
      case _ => Armed(es[..|es| - 1])
  }

  /** The status and headers of a result, with no body. */
  function HeadOf(r: Result): Result { r.(data := "") }

  /** What the last head to arrive since the last start says, while its callback is set. */
  function OwnHead(es: seq<Event>): Option<Result> {
    if es == [] then None
    else match es[|es| - 1]
      case Start => None
      case Head(status, headers) => if Armed(es[..|es| - 1]) then Some(Result(status, headers, "")) else None
      case Body(_) => OwnHead(es[..|es| - 1])
      case End(_) => None
  }

  /** What the last head to arrive while no callback was set says, since a callback last ran. */
  function StrayHead(es: seq<Event>): Option<Result> {
    if es == [] then None
    else
      var so := es[..|es| - 1];
      match es[|es| - 1]
      case Start => StrayHead(so)
      case Head(status, headers) => if Armed(so) then StrayHead(so) else Some(Result(status, headers, ""))
      case Body(_) => StrayHead(so)
      case End(_) => if Armed(so) then None else StrayHead(so)
  }

  /** The body bytes since the last start. */
  function OwnBody(es: seq<Event>): string {
    if es == [] then ""
    else match es[|es| - 1]
      case Start => ""
      case Body(at) => OwnBody(es[..|es| - 1]) + at
      case _ => OwnBody(es[..|es| - 1])
  }

  function Or(o: Option<Result>, other: Result): Result { if o.Some? then o.value else other }

  /** What a callback that runs after `es` should be given: what came for its own request. */
  function OwnResult(es: seq<Event>): Result { Or(OwnHead(es), NO_RESULT).(data := OwnBody(es)) }

  function OwnCalls(es: seq<Event>): seq<Call> {
    if es == [] then []
    else
      var so := es[..|es| - 1];
      OwnCalls(so) + if es[|es| - 1].End? && Armed(so) then [Call(OwnResult(so), es[|es| - 1].ec)] else []
  }

  /** The callback runs before a head of its own, and a head that came before its start is left over. */
  predicate Stale(es: seq<Event>) {
    Armed(es) && OwnHead(es).None? && StrayHead(es).Some? && StrayHead(es).value != NO_RESULT
  }

  /** At no callback. */
  predicate NeverStale(es: seq<Event>) {
    es == [] || (NeverStale(es[..|es| - 1]) && (es[|es| - 1].End? ==> !Stale(es[..|es| - 1])))
  }

  lemma {:induction false} NeverStaleAt(es: seq<Event>)
    ensures NeverStale(es) <==> forall i :: 0 <= i < |es| && es[i].End? ==> !Stale(es[..i])
  {
    hide Stale;
    if es != [] {
      var so := es[..|es| - 1];
      NeverStaleAt(so);
      assert forall i :: 0 <= i < |so| ==> so[i] == es[i] && so[..i] == es[..i];
      assert so == es[..|es| - 1];
      forall i | 0 <= i < |es| && es[i].End? && NeverStale(es) ensures !Stale(es[..i]) {
        if i < |so| { assert so[i].End? && so[..i] == es[..i]; }
      }
    }
  }

  /** What the object holds after any proper use: the own head, or else a left-over one. */
  lemma {:induction false} Holding(es: seq<Event>)
    requires WellUsed(UNUSED, es)
    ensures var t := Run(UNUSED, es);
            && t.armed == Armed(es) && (Armed(es) ==> t.sink == OwnBody(es))
            && HeadOf(t.result) == Or(OwnHead(es), Or(StrayHead(es), NO_RESULT)) && t.result.data == ""
            && (!Armed(es) ==> OwnHead(es).None?)
  {
    if es != [] {
      Holding(es[..|es| - 1]);
    }
  }

  /** Every callback is given the body bytes that came since its start, and the last head that came since
      then, or else one left over. */
  lemma {:induction false} CallIs(es: seq<Event>, i: nat)
    requires WellUsed(UNUSED, es) && i < |es| && es[i].End? && Armed(es[..i])
    ensures |OwnCalls(es[..i])| < |Run(UNUSED, es).calls|
    ensures var k := |OwnCalls(es[..i])|;
            Run(UNUSED, es).calls[k]
              == Call(Or(OwnHead(es[..i]), Or(StrayHead(es[..i]), NO_RESULT)).(data := OwnBody(es[..i])), es[i].ec)
  {
    hide OwnHead, StrayHead, OwnBody, Armed, OwnCalls;
    var so := es[..|es| - 1];
    if i < |so| {
      assert so[..i] == es[..i];
      CallIs(so, i);
    } else {
      Holding(so);
      CallsCount(so);
    }
  }

  lemma {:induction false} CallsCount(es: seq<Event>)
    requires WellUsed(UNUSED, es)
    ensures |Run(UNUSED, es).calls| == |OwnCalls(es)|
  {
    hide OwnHead, StrayHead, OwnBody, Armed, OwnResult;
    if es != [] {
      CallsCount(es[..|es| - 1]);
      Holding(es[..|es| - 1]);
    }
  }

  lemma {:induction false} HeadsOnly(es: seq<Event>)
    ensures OwnHead(es).Some? ==> OwnHead(es).value.data == ""
    ensures StrayHead(es).Some? ==> StrayHead(es).value.data == ""
  {
    hide Armed;
    if es != [] { HeadsOnly(es[..|es| - 1]); }
  }

  lemma StaleExact(es: seq<Event>)
    requires Armed(es)
    ensures Or(OwnHead(es), Or(StrayHead(es), NO_RESULT)).(data := OwnBody(es)) == OwnResult(es) <==> !Stale(es)
  {
    hide OwnHead, StrayHead, OwnBody, Armed;
    HeadsOnly(es);
    if StrayHead(es).Some? {
      var r := StrayHead(es).value;
      assert r.(data := OwnBody(es)) == NO_RESULT.(data := OwnBody(es)) ==> r == NO_RESULT;
    }
  }

  /** So all callbacks are given what came for their own request, if and only if none of them runs before
      a head of its own while one that nobody was waiting for is left over. */
  lemma {:induction false} OwnExact(es: seq<Event>)
    requires WellUsed(UNUSED, es)
    ensures Run(UNUSED, es).calls == OwnCalls(es) <==> NeverStale(es)
  {
    hide OwnHead, StrayHead, OwnBody, Armed, OwnResult;
    if es != [] {
      var so, e := es[..|es| - 1], es[|es| - 1];
      OwnExact(so);
      Holding(so);
      CallsCount(so);
      if e.End? && Armed(so) {
        var (x, y) := (Run(UNUSED, so).calls, OwnCalls(so));
        var held := Or(OwnHead(so), Or(StrayHead(so), NO_RESULT)).(data := OwnBody(so));
        StaleExact(so);
        assert Run(UNUSED, es).calls == x + [Call(held, e.ec)] by { HeldResult(Run(UNUSED, so), so); }
        assert OwnCalls(es) == y + [Call(OwnResult(so), e.ec)];
        SameEnds(x, Call(held, e.ec), y, Call(OwnResult(so), e.ec));
      } else {
        assert !e.End? || !Stale(so);
      }
    }
  }

  lemma HeldResult(t: Slot, es: seq<Event>)
    requires HeadOf(t.result) == Or(OwnHead(es), Or(StrayHead(es), NO_RESULT)) && t.sink == OwnBody(es)
    ensures t.result.(data := t.sink) == Or(OwnHead(es), Or(StrayHead(es), NO_RESULT)).(data := OwnBody(es))
  {
    hide OwnHead, StrayHead, OwnBody;
    assert t.result.(data := t.sink) == HeadOf(t.result).(data := t.sink);
  }

  lemma SameEnds(x: seq<Call>, a: Call, y: seq<Call>, b: Call)
    requires |x| == |y|
    ensures x + [a] == y + [b] <==> x == y && a == b
  {
    assert (x + [a])[..|x|] == x && (y + [b])[..|y|] == y && (x + [a])[|x|] == a && (y + [b])[|y|] == b;
  }

  /** What one more happening does. */
  lemma Then(so: seq<Event>, e: Event, es: seq<Event>)
    requires es == so + [e]
    ensures es != [] && es[..|es| - 1] == so && es[|es| - 1] == e && Run(UNUSED, es) == Step(Run(UNUSED, so), e)
    ensures WellUsed(UNUSED, es) <==> WellUsed(UNUSED, so) && (e.Start? ==> !Run(UNUSED, so).armed)
  {
    assert es[..|es| - 1] == so;
  }

  /** The head of another response arrives after the first is complete; the next request on the
      connection ends before its own head, by a timeout say: it is given that head. */
  lemma StaleHead(headers: seq<Pair>, ec: Error)
    ensures var es := [Start, Head(200, []), End(NoError), Head(302, headers), Start, End(ec)];
            && WellUsed(UNUSED, es) && !NeverStale(es)
            && OwnCalls(es) == [Call(Result(200, [], ""), NoError), Call(NO_RESULT, ec)]
            && Run(UNUSED, es).calls
                 == [Call(Result(200, [], ""), NoError), Call(Result(302, headers, ""), ec)]
  {
    var e1 := [Start];
    var e2 := [Start, Head(200, [])];
    var e3 := [Start, Head(200, []), End(NoError)];
    var e4 := [Start, Head(200, []), End(NoError), Head(302, headers)];
    var e5 := [Start, Head(200, []), End(NoError), Head(302, headers), Start];
    Then([], Start, e1);
    Then(e1, Head(200, []), e2);
    Then(e2, End(NoError), e3);
    Then(e3, Head(302, headers), e4);
    Then(e4, Start, e5);
    var e6 := [Start, Head(200, []), End(NoError), Head(302, headers), Start, End(ec)];
    Then(e5, End(ec), e6);
    assert OwnCalls(e2) == [];
    assert OwnCalls(e3) == [Call(Result(200, [], ""), NoError)];
    assert StrayHead(e4) == Some(Result(302, headers, ""));
    assert OwnResult(e5) == NO_RESULT && OwnCalls(e5) == OwnCalls(e4) == OwnCalls(e3);
  }

  class HttpContent {
    /** `m_completed_request_callback != nullptr`. */
    var armed: bool
    var result: Result
    var sink: string
    var calls: seq<Call>

    function View(): Slot reads this { Slot(armed, result, sink, calls) }

    constructor ()
      ensures View() == UNUSED
    {
      armed, result, sink, calls := false, NO_RESULT, "", [];
    }

    /** `start`; the headers are what `write_headers` is given.  The timer is an event that may end the
        request at any time. */
    method Start(user: seq<Pair>, host: string, body: string) returns (headers: seq<Pair>)
      modifies this
      ensures View() == Step(old(View()), Event.Start)
      ensures headers == user + [Pair("Host", host)]
          + if body == "" then [] else [Pair("Content-Length", DecimalText(|body|))]
    {
      sink := "";
      armed := true;
      headers := user + [Pair("Host", host)];
      if |body| != 0 { headers := headers + [Pair("Content-Length", DecimalText(|body|))]; }
    }

    method CompleteRequest(ec: Error)
      modifies this
      ensures View() == Step(old(View()), End(ec))
    {
      if armed {
        result := result.(data := sink);
        calls := calls + [Call(result, ec)];
        result := NO_RESULT;
        armed := false;
      }
    }

    method OnHeaders(status: nat, headers: seq<Pair>)
      modifies this
      ensures View() == Step(old(View()), Head(status, headers))
    {
      result := result.(status := status, headers := headers);
    }

    method OnBody(at: string)
      modifies this
      ensures View() == Step(old(View()), Body(at))
    {
      sink := sink + at;
    }

    method OnError(ec: Error)
      modifies this
      ensures View() == Step(old(View()), End(ec))
    {
      CompleteRequest(ec);
    }

    method MessageComplete()
      modifies this
      ensures View() == Step(old(View()), End(NoError))
    {
      CompleteRequest(NoError);
    }

    /** `cancel`, but for closing the layer below. */
    method Cancel()
      modifies this
      ensures View() == Step(old(View()), End(Aborted))
    {
      CompleteRequest(Aborted);
    }

    /** Whatever happens to the connection, in the order in which it happens. */
    method Play(es: seq<Event>, user: seq<Pair>, host: string, body: string)
      modifies this
      ensures View() == Run(old(View()), es)
    {
      for i := 0 to |es|
        invariant View() == Run(old(View()), es[..i])
      {
        assert es[..i + 1][..i] == es[..i];
        match es[i] {
          case Start => var _ := Start(user, host, body);
          case Head(status, headers) => OnHeaders(status, headers);
          case Body(at) => OnBody(at);
          case End(NoError) => MessageComplete();
          case End(Aborted) => Cancel();
          case End(ec) => OnError(ec);
        }
      }
      assert es[..|es|] == es;
    }
  }
}
