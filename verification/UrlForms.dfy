/** Which authorities, and which texts of a URL, the two automata of the URL splitter let through, as
    grammars. */
module UrlForms {
  import opened Chars
  import opened Numbers
  import opened ParserState
  import opened UrlChar
  import opened UrlFields

  // ----- runs of characters -----

  datatype Class = User | Letter | Address | Zone | Number

  predicate In(c: char, k: Class) {
    match k
    case User => IsUserinfoChar(c)
    case Letter => IsHostChar(c)
    case Address => IsHex(c) || c == ':' || c == '.'
    case Zone => IsAlphaNum(c) || c == '%' || c == '.' || c == '-' || c == '_' || c == '~'
    case Number => IsNum(c)
  }

  predicate All(x: string, k: Class) { forall c :: c in x ==> In(c, k) }

  /** `x` is a run of the class, and what follows starts with none. */
  predicate Cuts(x: string, n: nat, k: Class) { n <= |x| && All(x[..n], k) && (n < |x| ==> !In(x[n], k)) }

  lemma {:induction false} CutExists(x: string, k: Class) returns (n: nat)
    ensures Cuts(x, n, k)
  {
    hide In;
    if x == "" || !In(x[0], k) {
      n := 0;
    } else {
      var i := CutExists(x[1..], k);
      n := i + 1;
      assert x[..n] == [x[0]] + x[1..][..i];
    }
  }

  /** The loop of `http_parse_host` goes through `x` from this state, and may end behind it. */
  predicate Takes(s: HostState, x: string)
    decreases |x|
  {
    if x == "" then Ends(s) else var t := HostChar(s, x[0]); !t.HostDead? && Takes(t, x[1..])
  }

  /** The state that a byte of the class keeps. */
  function Home(k: Class): HostState {
    match k
    case User => UserinfoState
    case Letter => HostName
    case Address => V6
    case Zone => V6Zone
    case Number => PortState
  }

  lemma {:induction false} TakesRun(x: string, n: nat, k: Class)
    requires Cuts(x, n, k)
    ensures Takes(Home(k), x) <==> Takes(Home(k), x[n..])
    decreases n
  {
    hide In, HostChar;
    if n == 0 {
      assert x[0..] == x;
    } else {
      assert x[0] in x[..n] && HostChar(Home(k), x[0]) == Home(k) by { HomeKeeps(k, x[0]); }
      assert x[1..][..n - 1] == x[..n][1..] && forall c :: c in x[..n][1..] ==> c in x[..n];
      assert x[1..][n - 1..] == x[n..];
      TakesRun(x[1..], n - 1, k);
    }
  }

  lemma HomeKeeps(k: Class, c: char)
    ensures In(c, k) ==> HostChar(Home(k), c) == Home(k)
  {
  }

  // ----- authorities -----

  /** A port, with its colon, or none. */
  predicate PortPart(x: string) { x == "" || (x[0] == ':' && IsDigits(x[1..])) }

  /** The zone of an address, with its percent sign, or none. */
  predicate ZonePart(x: string) { x == "" || (x[0] == '%' && x[1..] != "" && All(x[1..], Zone)) }

  /** A name, or an address in brackets. */
  ghost predicate HostPart(x: string) {
    || (x != "" && All(x, Letter))
    || exists a, z :: a != "" && All(a, Address) && ZonePart(z) && x == "[" + a + z + "]"
  }

  ghost predicate HostPort(x: string) { exists h, p :: HostPart(h) && PortPart(p) && x == h + p }

  /** With an at sign, whatever stands before the last one is the user. */
  ghost predicate Authority(x: string, foundAt: bool) {
    if foundAt then exists u, y :: All(u, User) && HostPort(y) && x == u + "@" + y else HostPort(x)
  }

  lemma {:induction false} TakesPort(x: string)
    ensures Takes(PortState, x) <==> All(x, Number)
    ensures Takes(PortStart, x) <==> IsDigits(x)
    ensures Takes(V6End, x) <==> PortPart(x)
  {
    if x != "" {
      TakesPort(x[1..]);
      assert forall c :: c in x <==> c == x[0] || c in x[1..];
    }
  }

  lemma TakesName(x: string, n: nat)
    requires Cuts(x, n, Letter)
    ensures Takes(HostName, x) <==> PortPart(x[n..])
  {
    TakesRun(x, n, Letter);
    var y := x[n..];
    if y != "" { TakesPort(y[1..]); }
    hide IsHostChar;
  }

  lemma TakesZone(x: string, n: nat)
    requires Cuts(x, n, Zone)
    ensures Takes(V6Zone, x) <==> n < |x| && x[n] == ']' && PortPart(x[n + 1..])
    ensures Takes(V6ZoneStart, x) <==> n > 0 && Takes(V6Zone, x)
  {
    TakesRun(x, n, Zone);
    if n < |x| {
      assert x[n..][0] == x[n] && x[n..][1..] == x[n + 1..];
      TakesPort(x[n + 1..]);
    }
    if n > 0 { assert x[0] in x[..n]; }
    hide IsAlphaNum;
  }

  /** What may follow the digits of an address. */
  predicate AfterAddress(y: string) {
    y != "" && ((y[0] == ']' && PortPart(y[1..])) || (y[0] == '%' && Takes(V6ZoneStart, y[1..])))
  }

  lemma TakesAddress(x: string, n: nat)
    requires Cuts(x, n, Address)
    ensures Takes(V6, x) <==> n < |x| && AfterAddress(x[n..])
    ensures Takes(V6Start, x) <==> n > 0 && Takes(V6, x)
  {
    TakesRun(x, n, Address);
    if n < |x| {
      assert x[n..][0] == x[n] && x[n..][1..] == x[n + 1..];
      TakesPort(x[n + 1..]);
    }
    if n > 0 { assert x[0] in x[..n]; }
    hide IsHex;
  }

  lemma TakesUser(x: string, n: nat)
    requires Cuts(x, n, User)
    ensures Takes(UserinfoState, x) <==> n < |x| && x[n] == '@' && Takes(HostStart, x[n + 1..])
    ensures Takes(UserinfoStart, x) <==> Takes(UserinfoState, x)
  {
    TakesRun(x, n, User);
    if n < |x| { assert x[n..][0] == x[n] && x[n..][1..] == x[n + 1..]; }
    hide IsUserinfoChar;
  }

  /** The bytes that end a run. */
  lemma Stops(c: char)
    ensures c == ':' || c == '[' || c == ']' || c == '@' ==> !In(c, Letter)
    ensures c == ']' || c == '%' ==> !In(c, Address)
    ensures c == ']' || c == '@' ==> !In(c, Zone) && !In(c, User)
  {
  }

  lemma CutsAt(a: string, b: string, k: Class)
    requires All(a, k) && (b != "" ==> !In(b[0], k))
    ensures Cuts(a + b, |a|, k) && (a + b)[|a|..] == b
  {
    assert (a + b)[..|a|] == a;
    hide In;
  }

  lemma NameTaken(h: string, p: string)
    requires h != "" && All(h, Letter) && PortPart(p)
    ensures Takes(HostStart, h + p)
  {
    if p != "" { Stops(p[0]); }
    CutsAt(h, p, Letter);
    TakesName(h + p, |h|);
    assert h[0] in h && (h + p)[0] == h[0];
    Stops(h[0]);
    hide All, Cuts, PortPart;
  }

  lemma ZoneTaken(z: string, p: string)
    requires ZonePart(z) && PortPart(p)
    ensures AfterAddress(z + ("]" + p)) && !In((z + ("]" + p))[0], Address)
  {
    Stops(']');
    Stops('%');
    var tail := "]" + p;
    assert tail[1..] == p;
    if z == "" {
      assert z + tail == tail;
    } else {
      assert (z + tail)[1..] == z[1..] + tail;
      CutsAt(z[1..], tail, Zone);
      TakesZone(z[1..] + tail, |z| - 1);
      assert (z[1..] + tail)[|z| - 1] == ']' && (z[1..] + tail)[|z|..] == p;
    }
    hide All, Cuts, PortPart, Takes, In;
  }

  lemma AddressTaken(a: string, z: string, p: string)
    requires a != "" && All(a, Address) && ZonePart(z) && PortPart(p)
    ensures Takes(HostStart, "[" + a + z + "]" + p)
  {
    var rest := z + ("]" + p);
    var x := "[" + a + z + "]" + p;
    assert x == "[" + (a + rest) && x[0] == '[' && x[1..] == a + rest;
    hide All, Cuts, PortPart, In, AfterAddress, ZonePart;
    ZoneTaken(z, p);
    CutsAt(a, rest, Address);
    TakesAddress(a + rest, |a|);
  }

  lemma HostPortTaken(x: string)
    requires HostPort(x)
    ensures Takes(HostStart, x)
  {
    var h, p :| HostPart(h) && PortPart(p) && x == h + p;
    if h != "" && All(h, Letter) {
      NameTaken(h, p);
    } else {
      var a, z :| a != "" && All(a, Address) && ZonePart(z) && h == "[" + a + z + "]";
      AddressTaken(a, z, p);
    }
  }

  lemma TakenName(x: string)
    requires x != "" && x[0] != '[' && Takes(HostStart, x)
    ensures HostPort(x)
  {
    var n := CutExists(x, Letter);
    TakesName(x, n);
    assert In(x[0], Letter) && Takes(HostName, x);
    assert x == x[..n] + x[n..];
    hide In, HostChar, PortPart;
    assert HostPart(x[..n]);
  }

  lemma TakenAddress(x: string)
    requires x != "" && x[0] == '[' && Takes(HostStart, x)
    ensures HostPort(x)
  {
    assert Takes(V6Start, x[1..]);
    var y := x[1..];
    var n := CutExists(y, Address);
    TakesAddress(y, n);
    hide Takes, In, HostChar, PortPart;
    var a := y[..n];
    BracketIs(a, y[n..], x);
  }

  lemma BracketIs(a: string, y: string, x: string)
    requires a != "" && All(a, Address) && AfterAddress(y) && x == "[" + a + y
    ensures HostPort(x)
  {
    hide Takes, In, HostChar, PortPart;
    if y[0] == ']' && PortPart(y[1..]) {
      assert y == "]" + y[1..] && x == "[" + a + "" + "]" + y[1..];
      HostPortIs(a, "", y[1..], x);
    } else {
      var w := y[1..];
      var i := CutExists(w, Zone);
      TakesZone(w, i);
      var z := "%" + w[..i];
      assert z[1..] == w[..i] && y == z + "]" + w[i + 1..];
      assert x == "[" + a + z + "]" + w[i + 1..];
      HostPortIs(a, z, w[i + 1..], x);
    }
  }

  lemma HostPortIs(a: string, z: string, p: string, x: string)
    requires a != "" && All(a, Address) && ZonePart(z) && PortPart(p) && x == "[" + a + z + "]" + p
    ensures HostPort(x)
  {
    hide All, PortPart, ZonePart;
    var h := "[" + a + z + "]";
    assert HostPart(h);
    assert x == h + p;
  }

  /** A host and its port are let through if and only if they are written as the grammar says. */
  lemma HostPortExact(x: string)
    ensures Takes(HostStart, x) <==> HostPort(x)
  {
    if Takes(HostStart, x) {
      if x[0] == '[' { TakenAddress(x); } else { TakenName(x); }
    }
    if HostPort(x) { HostPortTaken(x); }
    hide HostPort, HostChar;
  }

  lemma AuthorityTakes(x: string, foundAt: bool)
    ensures Takes(if foundAt then UserinfoStart else HostStart, x) <==> Authority(x, foundAt)
  {
    hide Takes, HostPort, In;
    if foundAt {
      var n := CutExists(x, User);
      TakesUser(x, n);
      if n < |x| { HostPortExact(x[n + 1..]); }
      if n < |x| && x[n] == '@' { assert x == x[..n] + "@" + x[n + 1..]; }
      if u, y :| All(u, User) && HostPort(y) && x == u + "@" + y { UserIs(x, n, u, y); }
    } else {
      HostPortExact(x);
    }
  }

  lemma UserIs(x: string, n: nat, u: string, y: string)
    requires Cuts(x, n, User) && All(u, User) && x == u + "@" + y
    ensures n == |u| && x[n + 1..] == y
  {
    Stops('@');
    CutsAt(u, "@" + y, User);
    assert x == u + ("@" + y);
    CutOnce(x, n, |u|, User);
    hide In;
  }

  lemma CutOnce(x: string, n: nat, i: nat, k: Class)
    requires Cuts(x, n, k) && Cuts(x, i, k)
    ensures n == i
  {
    hide In;
  }

  /** The inner loop, from where it stands. */
  lemma {:induction false} ScanTakes(buf: string, foundAt: bool, a: nat, p: nat, b: nat)
    requires a <= p <= b <= |buf|
    ensures var (i, j) := (InnerScan(buf, foundAt, a, p), InnerScan(buf, foundAt, a, b));
            i.Some? && !i.value.s.HostDead? ==> (j.Some? && Ends(j.value.s) <==> Takes(i.value.s, buf[p..b]))
    decreases b - p
  {
    hide Extend, HostChar, HostLabel;
    if p < b {
      assert buf[p..b][0] == buf[p] && buf[p..b][1..] == buf[p + 1..b];
      var i := InnerScan(buf, foundAt, a, p);
      if i.Some? && !i.value.s.HostDead? {
        InnerNext(buf, foundAt, a, p, i.value);
        ScanTakes(buf, foundAt, a, p + 1, b);
        if HostChar(i.value.s, buf[p]).HostDead? { InnerStays(buf, foundAt, a, p + 1, b); }
      }
    }
  }

  /** `http_parse_host` accepts the bytes from `a` to `b` if and only if they are an authority: with an at sign
      a user, then a name or a bracketed address with or without a zone, then a port or none. */
  lemma AuthorityExact(buf: string, foundAt: bool, a: nat, b: nat)
    requires a <= b <= |buf|
    ensures var i := InnerScan(buf, foundAt, a, b);
            i.Some? && Ends(i.value.s) <==> Authority(buf[a..b], foundAt)
  {
    hide InnerScan, Takes, Authority;
    InnerStarts(buf, foundAt, a);
    ScanTakes(buf, foundAt, a, a, b);
    AuthorityTakes(buf[a..b], foundAt);
  }

  // ----- whole texts -----

  /** The loop of `http_parser_parse_url` goes through `x` from this state. */
  predicate Goes(s: State, x: string)
    decreases |x|
  {
    x == "" || (var t := ParseUrlChar(s, x[0]); !t.Dead? && Goes(t, x[1..]))
  }

  predicate IsRestChar(c: char) { IsUrlChar(c) || c == '?' || c == '#' }

  /** A path behind its first byte, a query, a fragment, or any of them in a row. */
  predicate RestPart(x: string) { forall c :: c in x ==> IsRestChar(c) }

  predicate IsServerChar(c: char) { IsUserinfoChar(c) || c == '[' || c == ']' || c == '@' }

  /** No two at signs in a row. */
  predicate ServerPart(x: string) {
    && (forall c :: c in x ==> IsServerChar(c))
    && forall i :: 0 <= i < |x| - 1 ==> !(x[i] == '@' && x[i + 1] == '@')
  }

  /** What may follow the server. */
  predicate TailPart(x: string) { x == "" || ((x[0] == '/' || x[0] == '?') && RestPart(x[1..])) }

  predicate Letters(x: string) { forall c :: c in x ==> IsAlpha(c) }

  /** A server and what follows it; `at`: the byte before was an at sign. */
  ghost predicate Served(x: string, at: bool) {
    exists s, t :: ServerPart(s) && TailPart(t) && x == s + t && (at && s != "" ==> s[0] != '@')
  }

  /** The mark behind a protocol, with a server and what follows it; or a first part of the mark. */
  ghost predicate Marked(y: string) {
    y == "" || y == ":" || y == ":/" || (|y| >= 3 && y[..3] == "://" && Served(y[3..], false))
  }

  /** A protocol, and what follows it. */
  ghost predicate Absolute(x: string) { exists p, y :: p != "" && Letters(p) && Marked(y) && x == p + y }

  predicate InRest(s: State) {
    s.ReqPath? || s.ReqQueryStringStart? || s.ReqQueryString? || s.ReqFragmentStart? || s.ReqFragment?
  }

  lemma RestStep(s: State, c: char)
    requires InRest(s)
    ensures var t := ParseUrlChar(s, c); (!t.Dead? <==> IsRestChar(c)) && (!t.Dead? ==> InRest(t))
  {
  }

  lemma {:induction false} GoesRest(s: State, x: string)
    requires InRest(s)
    ensures Goes(s, x) <==> RestPart(x)
    decreases |x|
  {
    hide ParseUrlChar, IsRestChar;
    if x != "" {
      RestStep(s, x[0]);
      assert forall c :: c in x <==> c == x[0] || c in x[1..];
      if !ParseUrlChar(s, x[0]).Dead? { GoesRest(ParseUrlChar(s, x[0]), x[1..]); }
    }
  }

  predicate InServer(s: State) { s.ReqServerStart? || s.ReqServer? || s.ReqServerWithAt? }

  lemma ServerStep(s: State, c: char)
    requires InServer(s)
    ensures var t := ParseUrlChar(s, c);
            && (t.Dead? <==> (!IsServerChar(c) && c != '/' && c != '?') || (s.ReqServerWithAt? && c == '@'))
            && (c == '/' || c == '?' ==> InRest(t)) && (IsServerChar(c) ==> t.Dead? || InServer(t))
            && (t.ReqServerWithAt? <==> c == '@' && !t.Dead?)
  {
  }

  lemma ServedNothing(at: bool)
    ensures Served("", at)
  {
    assert "" + "" == "" && ServerPart("") && TailPart("");
  }

  lemma ServedTail(x: string, at: bool)
    requires x != "" && !IsServerChar(x[0])
    ensures Served(x, at) <==> TailPart(x)
  {
    hide IsServerChar, TailPart;
    if TailPart(x) { assert ServerPart("") && x == "" + x; }
    if s, t :| ServerPart(s) && TailPart(t) && x == s + t && (at && s != "" ==> s[0] != '@') {
      assert x == t;
    }
  }

  lemma ServedMore(x: string, at: bool)
    requires x != "" && IsServerChar(x[0])
    ensures Served(x, at) <==> !(at && x[0] == '@') && Served(x[1..], x[0] == '@')
  {
    hide IsServerChar, TailPart;
    var (c, rest) := (x[0], x[1..]);
    if !(at && c == '@') && Served(rest, c == '@') {
      var s, t :| ServerPart(s) && TailPart(t) && rest == s + t && (c == '@' && s != "" ==> s[0] != '@');
      var u := [c] + s;
      assert forall d :: d in u ==> d == c || d in s;
      forall i | 0 <= i < |u| - 1 ensures !(u[i] == '@' && u[i + 1] == '@') { if i > 0 { assert u[i] == s[i - 1]; } }
      assert x == u + t;
    }
    if s, t :| ServerPart(s) && TailPart(t) && x == s + t && (at && s != "" ==> s[0] != '@') {
      TailStart(t);
      var u := s[1..];
      assert s[0] == c && rest == u + t && forall d :: d in u ==> d in s;
      forall i | 0 <= i < |u| - 1 ensures !(u[i] == '@' && u[i + 1] == '@') { assert u[i] == s[i + 1]; }
      if u != "" && c == '@' { assert s[1] == u[0]; }
      assert ServerPart(u);
    }
  }

  lemma TailStart(t: string)
    requires TailPart(t)
    ensures t != "" ==> !IsServerChar(t[0])
  {
  }

  lemma {:induction false} GoesServer(s: State, x: string)
    requires InServer(s)
    ensures Goes(s, x) <==> Served(x, s.ReqServerWithAt?)
    decreases |x|
  {
    hide ParseUrlChar, Served;
    if x == "" {
      ServedNothing(s.ReqServerWithAt?);
    } else {
      var t := ParseUrlChar(s, x[0]);
      ServerStep(s, x[0]);
      if IsServerChar(x[0]) {
        ServedMore(x, s.ReqServerWithAt?);
        if !t.Dead? { GoesServer(t, x[1..]); }
      } else {
        ServedTail(x, s.ReqServerWithAt?);
        if x[0] == '/' || x[0] == '?' { GoesRest(t, x[1..]); }
      }
    }
    hide IsServerChar, RestPart;
  }

  lemma GoesMark(y: string)
    requires y != "" && y[0] == ':'
    ensures Goes(ReqSchemaSlash, y[1..]) <==> Marked(y)
  {
    hide Served;
    if |y| >= 3 { GoesServer(ReqServerStart, y[3..]); }
    if |y| == 1 {
      assert y == ":";
    } else if |y| == 2 {
      assert y == [':', y[1]] && y[1..][1..] == "";
    } else {
      assert y[..3] == [':', y[1], y[2]] && y[1..][1..][1..] == y[3..];
    }
  }

  /** A run of letters, and what follows it. */
  ghost predicate Named(x: string) { exists p, y :: Letters(p) && Marked(y) && x == p + y }

  lemma NamedMore(x: string)
    requires x != "" && IsAlpha(x[0])
    ensures Named(x) <==> Named(x[1..])
  {
    hide Marked, IsAlpha;
    ColonNoLetter(x[0]);
    if p, y :| Letters(p) && Marked(y) && x == p + y {
      MarkedStart(y);
      assert x[1..] == p[1..] + y && forall c :: c in p[1..] ==> c in p;
      assert Letters(p[1..]);
    }
    if p, y :| Letters(p) && Marked(y) && x[1..] == p + y {
      var q := [x[0]] + p;
      assert x == q + y && Letters(q);
    }
  }

  lemma NamedEnd(x: string)
    requires x == "" || !IsAlpha(x[0])
    ensures Named(x) <==> Marked(x)
  {
    hide Marked, IsAlpha;
    if Marked(x) { assert x == "" + x && Letters(""); }
    if p, y :| Letters(p) && Marked(y) && x == p + y { assert x == y; }
  }

  lemma {:induction false} GoesSchema(x: string)
    ensures Goes(ReqSchema, x) <==> Named(x)
    decreases |x|
  {
    hide Marked, IsAlpha, Named;
    if x == "" {
      MarkedNothing();
      NamedEnd(x);
    } else if IsAlpha(x[0]) {
      ColonNoLetter(x[0]);
      GoesSchema(x[1..]);
      NamedMore(x);
    } else {
      NamedEnd(x);
      if x[0] == ':' { GoesMark(x); }
      if Marked(x) { MarkedStart(x); }
    }
  }

  lemma MarkedNothing()
    ensures Marked("")
  {
  }

  lemma MarkedStart(y: string)
    requires Marked(y)
    ensures y != "" ==> y[0] == ':'
  {
    hide Served;
    if |y| >= 3 { assert y[0] == y[..3][0]; }
  }

  lemma ColonNoLetter(c: char)
    ensures c == ':' ==> !IsAlpha(c)
    ensures IsAlpha(c) ==> c != ' ' && c != '\r' && c != '\n' && c != '\t' && c != '\U{C}' && c != '/' && c != '*'
  {
  }

  lemma AbsoluteIs(x: string)
    requires x != ""
    ensures Absolute(x) <==> IsAlpha(x[0]) && Named(x[1..])
  {
    hide Marked, IsAlpha;
    if p, y :| Letters(p) && Marked(y) && x[1..] == p + y && IsAlpha(x[0]) {
      var q := [x[0]] + p;
      assert x == q + y && Letters(q);
    }
    if p, y :| p != "" && Letters(p) && Marked(y) && x == p + y {
      assert x[0] == p[0] && p[0] in p;
      assert x[1..] == p[1..] + y && forall c :: c in p[1..] ==> c in p;
      assert Letters(p[1..]);
    }
  }

  lemma TextGoes(x: string)
    ensures Goes(ReqSpacesBeforeUrl, x)
        <==> x == "" || ((x[0] == '/' || x[0] == '*') && RestPart(x[1..])) || Absolute(x)
  {
    hide RestPart, Named, IsAlpha, Absolute;
    if x != "" {
      AbsoluteIs(x);
      ColonNoLetter(x[0]);
      GoesRest(ReqPath, x[1..]);
      GoesSchema(x[1..]);
    }
  }

  /** The outer loop, from where it stands. */
  lemma {:induction false} OuterGoes(buf: string, isConnect: bool, p: nat)
    requires p <= |buf|
    ensures var o := OuterScan(buf, isConnect, p);
            o.Some? ==> (OuterScan(buf, isConnect, |buf|).Some? <==> Goes(o.value.s, buf[p..]))
    decreases |buf| - p
  {
    hide Extend, ParseUrlChar, Label;
    if p < |buf| {
      assert buf[p..][0] == buf[p] && buf[p..][1..] == buf[p + 1..];
      var o := OuterScan(buf, isConnect, p);
      if o.Some? {
        OuterNext(buf, isConnect, p, o.value);
        OuterGoes(buf, isConnect, p + 1);
        if ParseUrlChar(o.value.s, buf[p]).Dead? { OuterStays(buf, isConnect, p + 1, |buf|); }
      }
    }
  }

  /** No byte of a URL is refused if and only if it is empty, or starts with a slash or an asterisk and goes on
      as a path, or is a protocol with its mark, a server without two at signs in a row, and what may follow
      that.  For CONNECT it starts with the server. */
  lemma TextExact(buf: string)
    ensures OuterScan(buf, false, |buf|).Some?
        <==> buf == "" || ((buf[0] == '/' || buf[0] == '*') && RestPart(buf[1..])) || Absolute(buf)
    ensures OuterScan(buf, true, |buf|).Some? <==> Served(buf, false)
  {
    hide OuterScan, Goes, RestPart, Absolute, Served;
    OuterStarts(buf, false);
    OuterStarts(buf, true);
    OuterGoes(buf, false, 0);
    OuterGoes(buf, true, 0);
    assert buf[0..] == buf;
    TextGoes(buf);
    GoesServer(ReqServerStart, buf);
  }

  /** A URL is accepted if and only if no byte is refused, a protocol has a host, the server is an authority,
      what is for CONNECT has a host and a port and nothing else, and the port fits into 16 bits. */
  lemma DecideExact(buf: string, isConnect: bool)
    ensures Decide(buf, isConnect).Some? <==>
        && OuterScan(buf, isConnect, |buf|).Some?
        && var o := OuterScan(buf, isConnect, |buf|).value;
           && (Schema in o.m ==> Host in o.m)
           && (Host in o.m && End(o.m[Host]) <= |buf| ==>
             Authority(buf[o.m[Host].off..End(o.m[Host])], o.foundAt))
           && var cut := Cut(o.m, buf, o.foundAt);
              && cut.Some? && (isConnect ==> cut.value.Keys == {Host, Port})
              && (Port in cut.value && End(cut.value[Port]) <= |buf| ==>
                Decimal(buf[cut.value[Port].off..End(cut.value[Port])]) <= 65535)
  {
    hide OuterScan, InnerScan, Authority, Decimal, Merge;
    var scan := OuterScan(buf, isConnect, |buf|);
    if scan.Some? && Host in scan.value.m && End(scan.value.m[Host]) <= |buf| {
      AuthorityExact(buf, scan.value.foundAt, scan.value.m[Host].off, End(scan.value.m[Host]));
    }
  }
}
