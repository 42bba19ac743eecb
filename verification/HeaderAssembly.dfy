/** The client's side of the callbacks: `request_buffers`, which puts header fragments together. */
module HeaderAssembly {
  import opened Headers
  import opened ParserState
  import opened StepMachine
  import opened LogInvariant
  import opened HttpParser

  /** What is handed to the upper layer with `on_headers`. */
  datatype Given = Given(status: nat, headers: seq<Pair>)

  /** The header being read, the headers read, the lists handed on, and whether the message is done. */
  datatype Assembly = Assembly(current: Pair, headers: seq<Pair>, given: seq<Given>, done: bool)

  const NO_HEADERS := Assembly(Pair("", ""), [], [], false)

  predicate IsTrimmed(c: char) { c == '\n' || c == '\r' || c == '\t' || c == ' ' }

  /** `s` without the trimmed characters at its end. */
  function TrimEnd(s: string): (r: string)
    ensures r <= s && (r != "" ==> !IsTrimmed(r[|r| - 1]))
    ensures forall i :: |r| <= i < |s| ==> IsTrimmed(s[i])
  {
    if s != "" && IsTrimmed(s[|s| - 1]) then TrimEnd(s[..|s| - 1]) else s
  }

  /** Line ends, tabs and blanks are taken off the end, and nothing else. */
  lemma TrimExact(s: string, r: string)
    ensures r == TrimEnd(s) <==>
        && r <= s && (r != "" ==> r[|r| - 1] !in ['\n', '\r', '\t', ' '])
        && forall i :: |r| <= i < |s| ==> s[i] in ['\n', '\r', '\t', ' ']
  {
    var t := TrimEnd(s);
    if |r| < |t| { assert s[|t| - 1] == t[|t| - 1]; }
    if |t| < |r| && r <= s { assert s[|r| - 1] == r[|r| - 1]; }
  }

  /** `push_current_header`. */
  function Push(a: Assembly): Assembly {
    a.(headers := a.headers + [Pair(a.current.name, TrimEnd(a.current.value))], current := Pair("", ""))
  }

  function OnField(a: Assembly, at: string): Assembly {
    var b := if a.current.value != "" then Push(a) else a;
    b.(current := b.current.(name := b.current.name + at))
  }

  function OnValue(a: Assembly, at: string): Assembly {
    var b := a.(current := a.current.(value := a.current.value + at));
    if b.current.value == "" then Push(b) else b
  }

  function OnHeadersComplete(a: Assembly, status: nat): Assembly {
    var b := if a.current.name != "" then Push(a) else a;
    b.(given := b.given + [Given(status, b.headers)])
  }

  /** One callback. */
  function OnEvent(a: Assembly, e: Event): Assembly {
    match e
    case Data(Field, at) => OnField(a, at)
    case Data(Value, at) => OnValue(a, at)
    case Note(HeadersComplete(status)) => OnHeadersComplete(a, status)
    case Note(MessageComplete(_)) => a.(done := true)
    case _ => a
  }

  /** The callbacks of `log`, in order. */
  function Assemble(a: Assembly, log: seq<Event>): Assembly {
    if log == [] then a else OnEvent(Assemble(a, log[..|log| - 1]), log[|log| - 1])
  }

  lemma {:induction false} AssembleConcat(a: Assembly, x: seq<Event>, y: seq<Event>)
    ensures Assemble(a, x + y) == Assemble(Assemble(a, x), y)
    decreases |y|
  {
    hide OnEvent;
    if y == [] {
      assert x + y == x;
    } else {
      assert (x + y)[..|x + y| - 1] == x + y[..|y| - 1];
      AssembleConcat(a, x, y[..|y| - 1]);
    }
  }

  lemma AssembleMore(a: Assembly, log: seq<Event>, e: Event)
    ensures Assemble(a, log + [e]) == OnEvent(Assemble(a, log), e)
  {
    assert (log + [e])[..|log|] == log;
    hide OnEvent;
  }

  lemma AssembleOne(a: Assembly, e: Event)
    ensures Assemble(a, [e]) == OnEvent(a, e)
  {
    assert [e][..0] == [];
    assert Assemble(a, [e][..0]) == a;
    hide OnEvent;
  }

  // ----- fragments -----

  /** Two fragments in a row do what their concatenation does, unless the first is an empty value. */
  lemma TwoFragments(a: Assembly, k: Kind, x: string, y: string)
    requires k == Value ==> x != ""
    ensures OnEvent(OnEvent(a, Data(k, x)), Data(k, y)) == OnEvent(a, Data(k, x + y))
  {
    if k == Value {
      assert a.current.value + x + y == a.current.value + (x + y);
    } else if k == Field {
      var b := if a.current.value != "" then Push(a) else a;
      assert b.current.name + x + y == b.current.name + (x + y);
    }
    hide Push;
  }

  /** Joining a callback onto the log does what the callback does. */
  lemma AssembleEmit(a: Assembly, log: seq<Event>, e: Event)
    requires e.Data? && e.kind == Value ==> !EndsInEmptyValue(log)
    ensures Assemble(a, Emit(log, e)) == OnEvent(Assemble(a, log), e)
  {
    hide OnEvent;
    if e.Data? && LastIs(log, e.kind) {
      var init, l := log[..|log| - 1], log[|log| - 1];
      var joined := Data(e.kind, l.bytes + e.bytes);
      assert Emit(log, e) == init + [joined] && log == init + [l];
      AssembleConcat(a, init, [joined]);
      AssembleConcat(a, init, [l]);
      AssembleOne(Assemble(a, init), joined);
      AssembleOne(Assemble(a, init), l);
      TwoFragments(Assemble(a, init), e.kind, l.bytes, e.bytes);
    } else {
      AssembleConcat(a, log, [e]);
      AssembleOne(Assemble(a, log), e);
    }
  }

  /** The headers do not depend on how the callbacks were cut up: the parser's callbacks as they
      were made give what the joined log gives. */
  lemma {:induction false} AssembleJoined(a: Assembly, raw: seq<Event>)
    requires RawOk(raw)
    ensures Assemble(a, raw) == Assemble(a, Joined(raw))
  {
    hide OnEvent;
    if raw != [] {
      AssembleJoined(a, raw[..|raw| - 1]);
      AssembleEmit(a, Joined(raw[..|raw| - 1]), raw[|raw| - 1]);
    }
  }

  // ----- whole headers -----

  function FieldEvents(hs: seq<Pair>): seq<Event> {
    if hs == [] then [] else [Data(Field, hs[0].name), Data(Value, hs[0].value)] + FieldEvents(hs[1..])
  }

  function Trimmed(hs: seq<Pair>): seq<Pair> {
    if hs == [] then [] else [Pair(hs[0].name, TrimEnd(hs[0].value))] + Trimmed(hs[1..])
  }

  /** All headers whose values have been read, once the current one is pushed. */
  function Read(a: Assembly): Assembly { if a.current.name != "" then Push(a) else a }

  /** Between two headers: either nothing is held, or a name with a non-empty value. */
  predicate Between(a: Assembly) { a.current == Pair("", "") || (a.current.name != "" && a.current.value != "") }

  lemma OneHeader(a: Assembly, h: Pair)
    requires Between(a) && h.name != ""
    ensures var b := OnEvent(OnEvent(a, Data(Field, h.name)), Data(Value, h.value));
            Between(b) && Read(b) == Push(Read(a).(current := h))
  {
    assert "" + h.name == h.name && "" + h.value == h.value;
    assert TrimEnd("") == "";
  }

  lemma AssembleTwo(a: Assembly, e: Event, f: Event)
    ensures Assemble(a, [e, f]) == OnEvent(OnEvent(a, e), f)
  {
    assert [e, f] == [e] + [f];
    AssembleConcat(a, [e], [f]);
    AssembleOne(a, e);
    AssembleOne(OnEvent(a, e), f);
    hide OnEvent, Assemble;
  }

  /** One more header read. */
  function Plus(a: Assembly, hs: seq<Pair>): Assembly { a.(headers := a.headers + Trimmed(hs)) }

  lemma PlusCons(a: Assembly, h: Pair, rest: seq<Pair>)
    requires a.current == Pair("", "")
    ensures Plus(Push(a.(current := h)), rest) == Plus(a, [h] + rest)
  {
    assert ([h] + rest)[1..] == rest;
    assert a.headers + [Pair(h.name, TrimEnd(h.value))] + Trimmed(rest)
      == a.headers + ([Pair(h.name, TrimEnd(h.value))] + Trimmed(rest));
    hide TrimEnd;
  }

  lemma NoHeaders(a: Assembly, hs: seq<Pair>)
    requires hs == []
    ensures Assemble(a, FieldEvents(hs)) == a && Plus(Read(a), hs) == Read(a)
  {
    assert Read(a).headers + [] == Read(a).headers;
  }

  lemma {:induction false} ManyHeaders(a: Assembly, hs: seq<Pair>)
    requires Between(a) && forall h :: h in hs ==> h.name != ""
    ensures var b := Assemble(a, FieldEvents(hs)); Between(b) && Read(b) == Plus(Read(a), hs)
    decreases |hs|
  {
    assert Read(a).current == Pair("", "");
    hide OnEvent, TrimEnd, Assemble, Between, Read, Plus, Push;
    if hs == [] {
      NoHeaders(a, hs);
    } else {
      var h, rest := hs[0], hs[1..];
      var e, f := Data(Field, h.name), Data(Value, h.value);
      OneHeader(a, h);
      AssembleTwo(a, e, f);
      AssembleConcat(a, [e, f], FieldEvents(rest));
      ManyHeaders(OnEvent(OnEvent(a, e), f), rest);
      PlusCons(Read(a), h, rest);
      assert hs == [h] + rest;
    }
  }

  /** At the end of the head the upper layer gets every name with its value, trimmed at the end, in
      order and with empty values too. */
  lemma HeadGiven(a: Assembly, hs: seq<Pair>, status: nat)
    requires a.current == Pair("", "") && forall h :: h in hs ==> h.name != ""
    ensures Assemble(a, FieldEvents(hs) + [Note(HeadersComplete(status))])
         == a.(headers := a.headers + Trimmed(hs), given := a.given + [Given(status, a.headers + Trimmed(hs))])
  {
    ManyHeaders(a, hs);
    var b := Assemble(a, FieldEvents(hs));
    var e := Note(HeadersComplete(status));
    AssembleConcat(a, FieldEvents(hs), [e]);
    AssembleOne(b, e);
    hide Assemble;
  }

  // ----- the object -----

  /** `find_last_not_of("\n\r\t ") + 1`. */
  method TrimmedLength(s: string) returns (n: nat)
    ensures n <= |s| && s[..n] == TrimEnd(s)
  {
    n := |s|;
    assert s[..n] == s;
    while n > 0 && IsTrimmed(s[n - 1])
      invariant 0 <= n <= |s| && TrimEnd(s[..n]) == TrimEnd(s)
    {
      assert s[..n][..n - 1] == s[..n - 1];
      n := n - 1;
    }
  }

  class RequestBuffers {
    var current: Pair
    var headers: seq<Pair>
    /** The calls of `on_headers` on the upper layer. */
    var given: seq<Given>
    var done: bool

    function View(): Assembly reads this { Assembly(current, headers, given, done) }

    constructor ()
      ensures View() == NO_HEADERS
    {
      current, headers, given, done := Pair("", ""), [], [], false;
    }

    /** `write_headers` assigns a fresh object. */
    method Clear()
      modifies this
      ensures View() == NO_HEADERS
    {
      current, headers, given, done := Pair("", ""), [], [], false;
    }

    method PushCurrentHeader()
      modifies this
      ensures View() == Push(old(View()))
    {
      var n := TrimmedLength(current.value);
      headers := headers + [Pair(current.name, current.value[..n])];
      current := Pair("", "");
    }

    method OnHeaderField(at: string)
      modifies this
      ensures View() == OnField(old(View()), at)
    {
      if current.value != "" { PushCurrentHeader(); }
      current := current.(name := current.name + at);
    }

    method OnHeaderValue(at: string)
      modifies this
      ensures View() == OnValue(old(View()), at)
    {
      current := current.(value := current.value + at);
      if current.value == "" { PushCurrentHeader(); }
    }

    method HeadersComplete(status: nat)
      modifies this
      ensures View() == OnHeadersComplete(old(View()), status)
    {
      if current.name != "" { PushCurrentHeader(); }
      given := given + [Given(status, headers)];
    }

    method Callback(e: Event)
      modifies this
      ensures View() == OnEvent(old(View()), e)
    {
      match e
      case Data(Field, at) => OnHeaderField(at);
      case Data(Value, at) => OnHeaderValue(at);
      case Note(HeadersComplete(status)) => HeadersComplete(status);
      case Note(MessageComplete(_)) => done := true;
      case _ =>
    }
  }
}
