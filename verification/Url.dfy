/** `url.cpp`: the regular expression that splits a URL, and the printer. */
module Url {
  import opened Chars
  import opened Numbers

  datatype Url = Url(protocol: string, host: string, port: nat, path: string, query: string)

  // ----- the regular expression -----

  predicate IsHostLetter(c: char) { 'A' <= c <= 'Z' || 'a' <= c <= 'z' || IsNum(c) || c == '-' || c == '.' }

  /** `.` matches no line end. */
  predicate NoLineEnd(s: string) { '\n' !in s && '\r' !in s }

  predicate IsHost(h: string) { h != "" && forall c :: c in h ==> IsHostLetter(c) }

  /** `(:([0-9]+))?` */
  predicate IsPort(p: string) { p == "" || (p[0] == ':' && IsDigits(p[1..])) }

  /** `(\/[^?]*)?` */
  predicate IsUrlPath(p: string) { p == "" || (p[0] == '/' && '?' !in p) }

  /** `(\?.*)?` */
  predicate IsQuery(q: string) { q == "" || (q[0] == '?' && NoLineEnd(q)) }

  /** The parts of what follows the protocol; `port` with its colon. */
  datatype Rest = Rest(host: string, port: string, path: string, query: string)

  function Text(r: Rest): string { r.host + r.port + r.path + r.query }

  predicate IsRest(r: Rest) { IsHost(r.host) && IsPort(r.port) && IsUrlPath(r.path) && IsQuery(r.query) }

  datatype Class = HostLetter | Number | NotMark

  predicate In(c: char, k: Class) {
    match k case HostLetter => IsHostLetter(c) case Number => IsNum(c) case NotMark => c != '?'
  }

  /** How many characters at the start of `s` are in the class. */
  function Span(s: string, k: Class): (n: nat)
    ensures n <= |s| && (forall c :: c in s[..n] ==> In(c, k)) && (n < |s| ==> !In(s[n], k))
  {
    if s == "" || !In(s[0], k) then 0 else
      assert forall c :: c in s[..1 + Span(s[1..], k)] ==> c == s[0] || c in s[1..][..Span(s[1..], k)];
      1 + Span(s[1..], k)
  }

  lemma {:induction false} SpanIs(a: string, b: string, k: Class)
    requires (forall c :: c in a ==> In(c, k)) && (b != "" ==> !In(b[0], k))
    ensures Span(a + b, k) == |a|
  {
    hide In;
    if a == "" {
      assert a + b == b;
    } else {
      assert (a + b)[1..] == a[1..] + b && a[0] in a;
      SpanIs(a[1..], b, k);
    }
  }

  /** A part that starts with `c` and goes on with the class, or nothing. */
  function PartLength(s: string, c: char, k: Class): (n: nat)
    ensures n <= |s|
  {
    if s != "" && s[0] == c then 1 + Span(s[1..], k) else 0
  }

  lemma PartIs(a: string, b: string, c: char, k: Class)
    requires a != "" ==> a[0] == c && (forall d :: d in a[1..] ==> In(d, k)) && (b != "" ==> !In(b[0], k))
    requires a == "" && b != "" ==> b[0] != c
    ensures PartLength(a + b, c, k) == |a|
  {
    if a == "" {
      assert a + b == b;
    } else {
      assert (a + b)[1..] == a[1..] + b;
      SpanIs(a[1..], b, k);
    }
    hide In;
  }

  /** The only way to split `s`: each part starts with a character that the parts before exclude. */
  function Cut(s: string): Rest {
    var h := Span(s, HostLetter);
    var a := s[h..];
    var p := PartLength(a, ':', Number);
    var b := a[p..];
    var e := PartLength(b, '/', NotMark);
    Rest(s[..h], a[..p], b[..e], b[e..])
  }

  lemma CutText(s: string)
    ensures Text(Cut(s)) == s
  {
    hide Span, PartLength;
  }

  lemma HostIs(r: Rest)
    requires IsRest(r)
    ensures Span(r.host + (r.port + (r.path + r.query)), HostLetter) == |r.host|
  {
    var a := r.port + (r.path + r.query);
    assert a != "" ==> a[0] == ':' || a[0] == '/' || a[0] == '?' by {
      Starts(r.path, r.query, '/');
      Starts(r.port, r.path + r.query, ':');
    }
    SpanIs(r.host, a, HostLetter);
  }

  lemma PortIs(r: Rest)
    requires IsRest(r)
    ensures PartLength(r.port + (r.path + r.query), ':', Number) == |r.port|
  {
    Starts(r.path, r.query, '/');
    PartIs(r.port, r.path + r.query, ':', Number);
  }

  lemma PathIs(r: Rest)
    requires IsRest(r)
    ensures PartLength(r.path + r.query, '/', NotMark) == |r.path|
  {
    if r.path != "" { assert forall d :: d in r.path[1..] ==> d in r.path; }
    PartIs(r.path, r.query, '/', NotMark);
  }

  /** A split that the expression allows is the one that `Cut` finds. */
  lemma CutUnique(r: Rest)
    requires IsRest(r)
    ensures Cut(Text(r)) == r
  {
    hide IsRest, Span, PartLength, Cut;
    HostIs(r);
    PortIs(r);
    PathIs(r);
    var b := r.path + r.query;
    assert r.host + r.port + r.path + r.query == r.host + (r.port + b);
    CutParts(r.host, r.port + b, r.port, b, r.path, r.query);
  }

  lemma Starts(a: string, b: string, c: char)
    requires a != "" ==> a[0] == c
    ensures a + b != "" ==> (a + b)[0] == c || (a == "" && b != "" && (a + b)[0] == b[0])
  {
  }

  lemma CutParts(h: string, a: string, p: string, b: string, e: string, c: string)
    requires a == p + b && b == e + c && Span(h + a, HostLetter) == |h|
    requires PartLength(a, ':', Number) == |p| && PartLength(b, '/', NotMark) == |e|
    ensures Cut(h + a) == Rest(h, p, e, c)
  {
    hide Span, PartLength;
    assert (h + a)[|h|..] == a && (h + a)[..|h|] == h;
    assert (p + b)[..|p|] == p && (p + b)[|p|..] == b;
    assert (e + c)[..|e|] == e && (e + c)[|e|..] == c;
  }

  predicate Matches(s: string) { IsRest(Cut(s)) }

  /** The expression with a protocol that ends at `i`. */
  predicate SplitsAt(s: string, i: nat) {
    1 <= i && i + 3 <= |s| && s[i..i + 3] == "://" && NoLineEnd(s[..i]) && Matches(s[i + 3..])
  }

  /** The greedy choice: the last place below `n` where the protocol may end, or 0. */
  function LastSplit(s: string, n: nat): (i: nat)
    ensures i > 0 ==> i + 3 <= |s|
  {
    if n == 0 then 0 else if SplitsAt(s, n - 1) then n - 1 else LastSplit(s, n - 1)
  }

  lemma {:induction false} LastSplitIs(s: string, n: nat)
    ensures LastSplit(s, n) > 0 ==> LastSplit(s, n) < n && SplitsAt(s, LastSplit(s, n))
    ensures forall j :: LastSplit(s, n) < j < n ==> !SplitsAt(s, j)
  {
    hide SplitsAt;
    if n > 0 { LastSplitIs(s, n - 1); }
  }

  // ----- the parser -----

  function DefaultPort(protocol: string): nat {
    if protocol == "http" then 80 else if protocol == "https" then 443 else 0
  }

  /** `get_url_components` once the parts are known; the port must fit into 16 bits. */
  function Components(protocol: string, r: Rest): Option<Url> {
    var port := if r.port == "" then DefaultPort(protocol) else Decimal(r.port[1..]);
    if port > 0xFFFF then None
    else Some(Url(protocol, r.host, port, if r.path == "" then "/" else r.path, r.query))
  }

  /** `url(std::string)`: `None` stands for the exception. */
  function Parse(s: string): Option<Url> {
    var i := LastSplit(s, |s|);
    if i > 0 then Components(s[..i], Cut(s[i + 3..]))
    else if Matches(s) then Components("http", Cut(s))
    else None
  }

  // ----- the printer -----

  function PrintedPort(u: Url): string {
    if u.port == 0 || (u.protocol == "http" && u.port == 80) || (u.protocol == "https" && u.port == 443) then ""
    else ":" + DecimalText(u.port)
  }

  /** `url::to_string`. */
  function ToString(u: Url): string {
    u.protocol + "://" + u.host + PrintedPort(u) + u.path + u.query
  }

  // ----- what the parser accepts -----

  /** The cut finds a split that the expression allows whenever there is one. */
  lemma MatchesExact(s: string)
    ensures Matches(s) <==> exists r :: IsRest(r) && Text(r) == s
  {
    hide Cut, IsRest;
    CutText(s);
    if r :| IsRest(r) && Text(r) == s { CutUnique(r); }
  }

  /** No protocol can end in `x`, which follows text without line ends. */
  predicate Final(x: string) {
    forall d :: 0 <= d && d + 3 <= |x| && x[d..d + 3] == "://" && NoLineEnd(x[..d]) ==> !Matches(x[d + 3..])
  }

  /** What holds of every parsed URL. */
  predicate IsParsed(u: Url) {
    && u.protocol != "" && NoLineEnd(u.protocol) && IsHost(u.host) && u.port <= 0xFFFF
    && u.path != "" && IsUrlPath(u.path) && IsQuery(u.query) && Final(u.path + u.query)
  }

  lemma NoLineEndConcat(a: string, b: string)
    ensures NoLineEnd(a + b) <==> NoLineEnd(a) && NoLineEnd(b)
  {
  }

  /** A place behind `a` where the protocol may end is one in what follows. */
  lemma SplitBehind(a: string, x: string, d: nat)
    requires a != "" && NoLineEnd(a) && d + 3 <= |x|
    ensures SplitsAt(a + x, |a| + d) <==> x[d..d + 3] == "://" && NoLineEnd(x[..d]) && Matches(x[d + 3..])
  {
    hide Matches, NoLineEnd;
    var s, j := a + x, |a| + d;
    assert s[j..j + 3] == x[d..d + 3] && s[j + 3..] == x[d + 3..];
    assert s[..j] == a + x[..d];
    NoLineEndConcat(a, x[..d]);
  }

  /** The text before the path holds no line end. */
  lemma HeadClean(p: string, r: Rest)
    requires NoLineEnd(p) && IsRest(r)
    ensures NoLineEnd(p + (r.host + r.port)) && r.host + r.port != ""
  {
    assert forall c :: c in r.host ==> IsHostLetter(c);
    if r.port != "" { assert r.port == [':'] + r.port[1..]; }
  }

  lemma SliceBehind(pre: string, y: string, d: nat)
    requires |pre| <= d && d + 3 <= |pre + y|
    ensures var e := d - |pre|;
            && (pre + y)[d..d + 3] == y[e..e + 3] && (pre + y)[d + 3..] == y[e + 3..] && (pre + y)[..d] == pre + y[..e]
  {
  }

  /** The greedy choice leaves nothing to choose in the path and the query. */
  lemma RestFinal(s: string, p: string, r: Rest)
    requires IsRest(r) && NoLineEnd(p) && s == p + Text(r) && forall j :: |p| < j < |s| ==> !SplitsAt(s, j)
    ensures Final((if r.path == "" then "/" else r.path) + r.query)
  {
    hide SplitsAt, IsRest, Matches, NoLineEnd, LastSplit;
    HeadClean(p, r);
    var a, y := p + (r.host + r.port), r.path + r.query;
    assert s == a + y;
    var pre := if r.path == "" then "/" else "";
    var x := (if r.path == "" then "/" else r.path) + r.query;
    assert x == pre + y;
    forall d | 0 <= d && d + 3 <= |x| && x[d..d + 3] == "://" && NoLineEnd(x[..d]) ensures !Matches(x[d + 3..]) {
      if Matches(x[d + 3..]) { NoneBehind(s, p, a, pre, y, d); }
    }
  }

  lemma NoneBehind(s: string, p: string, a: string, pre: string, y: string, d: nat)
    requires s == a + y && a != "" && NoLineEnd(a) && |p| < |a| && (pre == "" || pre == "/") && d + 3 <= |pre + y|
    requires (pre + y)[d..d + 3] == "://" && NoLineEnd((pre + y)[..d]) && Matches((pre + y)[d + 3..])
    ensures exists j :: |p| < j < |s| && SplitsAt(s, j)
  {
    hide SplitsAt, Matches, NoLineEnd;
    var x := pre + y;
    assert x[d] == x[d..d + 3][0] == ':';
    assert pre == "/" ==> x[0] == '/';
    assert |pre| <= d;
    var e := d - |pre|;
    SliceBehind(pre, y, d);
    NoLineEndConcat(pre, y[..e]);
    SplitBehind(a, y, e);
    assert SplitsAt(s, |a| + e);
  }

  lemma SplitParts(s: string, i: nat)
    requires SplitsAt(s, i)
    ensures i + 3 <= |s| && s[i..i + 3] == "://" && NoLineEnd(s[..i]) && NoLineEnd(s[..i] + "://")
        && IsRest(Cut(s[i + 3..]))
  {
    hide Cut, IsRest;
    NoLineEndConcat(s[..i], "://");
  }

  lemma ParsedShape(s: string)
    requires Parse(s).Some?
    ensures IsParsed(Parse(s).value)
  {
    hide Final, SplitsAt, IsRest, Cut, IsHost, IsPort, IsQuery, Text, LastSplit, Decimal;
    var i := LastSplit(s, |s|);
    LastSplitIs(s, |s|);
    if i > 0 {
      var p, r := s[..i] + "://", Cut(s[i + 3..]);
      SplitParts(s, i);
      assert s == p + s[i + 3..];
      CutText(s[i + 3..]);
      RestFinal(s, p, r);
      RestShape(r);
    } else {
      var r := Cut(s);
      CutText(s);
      assert s == "" + s;
      RestFinal(s, "", r);
      RestShape(r);
    }
  }

  lemma RestShape(r: Rest)
    requires IsRest(r)
    ensures IsHost(r.host) && IsPort(r.port) && IsUrlPath(r.path) && IsQuery(r.query)
  {
  }

  // ----- the parser against the expression -----

  /** One way in which the expression matches: a protocol, or none, and the rest. */
  predicate IsSplit(s: string, p: string, r: Rest) {
    NoLineEnd(p) && IsRest(r) && s == (if p == "" then "" else p + "://") + Text(r)
  }

  /** The greedy expression prefers the longest protocol. */
  ghost predicate Longest(s: string, p: string) { forall q, r :: IsSplit(s, q, r) ==> |q| <= |p| }

  predicate PortFits(r: Rest) { r.port == "" || Decimal(r.port[1..]) <= 0xFFFF }

  /** What the constructor of a URL takes without throwing. */
  ghost predicate IsUrl(s: string) { exists p, r :: IsSplit(s, p, r) && Longest(s, p) && PortFits(r) }

  lemma SplitHere(s: string, p: string, r: Rest)
    requires IsSplit(s, p, r)
    ensures p != "" ==> SplitsAt(s, |p|) && p == s[..|p|] && Cut(s[|p| + 3..]) == r
    ensures p == "" ==> Matches(s) && Cut(s) == r
  {
    hide Cut, IsRest, Text, NoLineEnd;
    CutUnique(r);
    if p == "" {
      assert s == Text(r);
    } else {
      assert s[..|p|] == p && s[|p|..|p| + 3] == "://" && s[|p| + 3..] == Text(r);
    }
  }

  lemma SplitThere(s: string, i: nat)
    requires SplitsAt(s, i)
    ensures IsSplit(s, s[..i], Cut(s[i + 3..]))
  {
    hide Cut, IsRest, Text, NoLineEnd;
    SplitParts(s, i);
    CutText(s[i + 3..]);
    assert s == s[..i] + "://" + s[i + 3..];
  }

  lemma SplitWhole(s: string)
    requires Matches(s)
    ensures IsSplit(s, "", Cut(s))
  {
    CutText(s);
    hide Cut, IsRest, Text;
    assert "" + s == s;
  }

  lemma ParseSplit(s: string, p: string, r: Rest)
    requires IsSplit(s, p, r) && Longest(s, p)
    ensures Parse(s) == Components(if p == "" then "http" else p, r)
  {
    hide Cut, Components, Matches, SplitsAt, LastSplit, IsSplit;
    var i := LastSplit(s, |s|);
    LastSplitIs(s, |s|);
    SplitHere(s, p, r);
    if i > 0 {
      SplitThere(s, i);
      assert |s[..i]| <= |p|;
      SplitInside(s, |p|);
    } else if p != "" {
      SplitInside(s, |p|);
    }
  }

  lemma SplitInside(s: string, i: nat)
    requires SplitsAt(s, i)
    ensures i < |s|
  {
  }

  /** The constructor takes a string exactly when the expression matches it and the port of its greedy match
      fits into 16 bits; the components are the parts of that match, with "http", "/" and the protocol's port
      for those that are missing. */
  lemma ParseExact(s: string)
    ensures Parse(s).Some? <==> IsUrl(s)
    ensures forall p, r :: IsSplit(s, p, r) && Longest(s, p) ==>
        && (Parse(s).Some? <==> r.port == "" || Decimal(r.port[1..]) <= 65535)
        && (Parse(s).Some? ==>
          var u := Parse(s).value;
          && u.protocol == (if p == "" then "http" else p) && u.host == r.host
          && u.path == (if r.path == "" then "/" else r.path) && u.query == r.query
          && u.port == if r.port != "" then Decimal(r.port[1..])
             else if p == "" || p == "http" then 80 else if p == "https" then 443 else 0)
  {
    hide Cut, Matches, SplitsAt, LastSplit, IsSplit, Longest, Decimal, Parse;
    forall p, r | IsSplit(s, p, r) && Longest(s, p) ensures Parse(s) == Components(if p == "" then "http" else p, r) {
      ParseSplit(s, p, r);
    }
    if Parse(s).Some? { GreedySplit(s); }
  }

  /** What the parser chose is the longest split. */
  lemma GreedySplit(s: string)
    requires Parse(s).Some?
    ensures exists p, r :: IsSplit(s, p, r) && Longest(s, p) && PortFits(r)
  {
    hide Cut, Matches, SplitsAt, LastSplit, IsSplit, Decimal;
    var i := LastSplit(s, |s|);
    LastSplitIs(s, |s|);
    var (p, r) := if i > 0 then (s[..i], Cut(s[i + 3..])) else ("", Cut(s));
    if i > 0 { SplitThere(s, i); } else { SplitWhole(s); }
    forall q, t | IsSplit(s, q, t) ensures |q| <= |p| {
      SplitHere(s, q, t);
      if q != "" { SplitInside(s, |q|); }
    }
    assert IsSplit(s, p, r) && Longest(s, p) && PortFits(r);
  }

  // ----- print, then parse -----

  /** The parts that `to_string` prints behind the protocol. */
  function PrintedRest(u: Url): Rest { Rest(u.host, PrintedPort(u), u.path, u.query) }

  lemma PrintedRestOk(u: Url)
    requires IsParsed(u)
    ensures IsRest(PrintedRest(u))
  {
    DecimalTextValue(u.port);
    assert (":" + DecimalText(u.port))[1..] == DecimalText(u.port);
    hide DecimalText, Final;
  }

  function PrintedHead(u: Url): string { u.protocol + "://" + u.host + PrintedPort(u) }

  /** Nothing between the printed protocol and the path looks like the end of a protocol. */
  lemma NoColon(u: Url, j: nat)
    requires IsParsed(u) && |u.protocol| < j < |PrintedHead(u)|
    ensures ToString(u)[j] != ':' || (j + 1 < |ToString(u)| && ToString(u)[j + 1] != '/')
  {
    hide Matches, Final, DecimalText, NoLineEnd;
    DecimalTextValue(u.port);
    var t, h := ToString(u), |u.protocol| + 3;
    var p := h + |u.host|;
    if j < h {
      assert t[j] == '/';
    } else if j < p {
      assert t[j] == u.host[j - h] && u.host[j - h] in u.host;
    } else {
      var d := DecimalText(u.port);
      assert PrintedPort(u) == ":" + d;
      assert t[j] == PrintedPort(u)[j - p];
      if j == p { assert t[j + 1] == d[0] && d[0] in d; } else { assert t[j] == d[j - p - 1] && d[j - p - 1] in d; }
    }
  }

  /** The greedy choice finds the printed protocol again. */
  lemma SplitFound(u: Url)
    requires IsParsed(u)
    ensures var t := ToString(u);
            LastSplit(t, |t|) == |u.protocol| && t[..|u.protocol|] == u.protocol
              && t[|u.protocol| + 3..] == Text(PrintedRest(u))
  {
    hide PrintedPort, Final, Cut, IsRest, IsHost, IsUrlPath, IsQuery;
    var t, n := ToString(u), |u.protocol|;
    var r := PrintedRest(u);
    PrintedRestOk(u);
    CutUnique(r);
    assert t == u.protocol + "://" + Text(r);
    assert t[n..n + 3] == "://" && t[..n] == u.protocol && t[n + 3..] == Text(r);
    assert SplitsAt(t, n);
    forall j | n < j < |t| ensures !SplitsAt(t, j) { NotLater(u, j); }
    hide SplitsAt;
    LastSplitIs(t, |t|);
  }

  lemma MarkClean(p: string)
    requires NoLineEnd(p)
    ensures NoLineEnd(p + "://")
  {
  }

  lemma NotLater(u: Url, j: nat)
    requires IsParsed(u) && |u.protocol| < j
    ensures !SplitsAt(ToString(u), j)
  {
    hide PrintedPort, Matches, IsHost, IsUrlPath, IsQuery, NoLineEnd;
    var t, a, x := ToString(u), PrintedHead(u), u.path + u.query;
    assert t == a + x;
    if j + 3 <= |t| && j < |a| {
      NoColon(u, j);
      assert t[j] == t[j..j + 3][0] && t[j + 1] == t[j..j + 3][1];
    } else if j + 3 <= |t| {
      PrintedRestOk(u);
      MarkClean(u.protocol);
      HeadClean(u.protocol + "://", PrintedRest(u));
      assert a == u.protocol + "://" + (u.host + PrintedPort(u));
      SplitBehind(a, x, j - |a|);
    }
  }

  lemma Reparsed(u: Url)
    requires IsParsed(u)
    ensures Parse(ToString(u)) == Components(u.protocol, PrintedRest(u))
  {
    hide SplitsAt, Cut, IsRest, Final, LastSplit, IsHost, IsUrlPath, IsQuery, Matches;
    SplitFound(u);
    PrintedRestOk(u);
    CutUnique(PrintedRest(u));
  }

  /** Printing a parsed URL and parsing it again gives it back, except for an explicit port 0 under
      a protocol that has a default port. */
  lemma UrlRoundTrip(s: string)
    requires Parse(s).Some?
    ensures var u := Parse(s).value;
            Parse(ToString(u)) == Some(u) <==> !(u.port == 0 && (u.protocol == "http" || u.protocol == "https"))
  {
    hide SplitsAt, Cut, IsRest, Final, LastSplit, IsHost, IsUrlPath, IsQuery, Matches;
    ParsedShape(s);
    var u := Parse(s).value;
    Reparsed(u);
    hide Parse, ToString, Text;
    DecimalTextValue(u.port);
    assert (":" + DecimalText(u.port))[1..] == DecimalText(u.port);
    hide DecimalText, Decimal;
  }

  /** One that does not survive printing: the port 0 is not printed, and is read back as 80. */
  lemma PortZeroLost()
    ensures Parse("http://h:0") == Some(Url("http", "h", 0, "/", ""))
    ensures Parse(ToString(Url("http", "h", 0, "/", ""))) == Some(Url("http", "h", 80, "/", ""))
  {
    hide Parse, ToString;
    var r := Rest("h", ":0", "", "");
    assert IsRest(r) by { assert ":0"[1..] == "0"; }
    assert IsSplit("http://h:0", "http", r) by { assert "http" + "://" + Text(r) == "http://h:0"; }
    OneSplit("http://h:0", "http", r);
    assert Components("http", r) == Some(Url("http", "h", 0, "/", "")) by { OneDigit('0'); assert ":0"[1..] == "0"; }
    hide IsRest, IsSplit;
    ParsedShape("http://h:0");
    Reparsed(Url("http", "h", 0, "/", ""));
  }

  lemma OneDigit(c: char)
    requires IsNum(c)
    ensures Decimal([c]) == Digit(c)
  {
    assert [c][..0] == "" && Decimal("") == 0;
  }

  /** Where no second ":/" follows, the expression has only one split. */
  lemma OneSplit(s: string, p: string, r: Rest)
    requires IsSplit(s, p, r) && forall j :: |p| < j < |s| - 1 ==> s[j] != ':' || s[j + 1] != '/'
    ensures Parse(s) == Components(if p == "" then "http" else p, r)
  {
    hide IsSplit, Components, SplitsAt, Cut, Matches;
    forall q, t | IsSplit(s, q, t) ensures |q| <= |p| {
      SplitHere(s, q, t);
      if q != "" { SplitMark(s, |q|); }
    }
    ParseSplit(s, p, r);
  }

  lemma SplitMark(s: string, i: nat)
    requires SplitsAt(s, i)
    ensures i < |s| - 1 && s[i] == ':' && s[i + 1] == '/'
  {
    assert s[i..i + 3][0] == s[i] && s[i..i + 3][1] == s[i + 1];
    hide Matches;
  }

  /** One URL with all parts: only the first "?" counts. */
  lemma AllParts()
    ensures Parse("https://a-b.C9:81/p#f?q=/?") == Some(Url("https", "a-b.C9", 81, "/p#f", "?q=/?"))
  {
    hide Parse, Decimal;
    var (s, r) := ("https://a-b.C9:81/p#f?q=/?", Rest("a-b.C9", ":81", "/p#f", "?q=/?"));
    PartsOk();
    hide IsRest, IsSplit;
    OneSplit(s, "https", r);
    TwoDigits();
    assert ":81"[1..] == "81";
  }

  lemma PartsOk()
    ensures IsSplit("https://a-b.C9:81/p#f?q=/?", "https", Rest("a-b.C9", ":81", "/p#f", "?q=/?"))
  {
    var r := Rest("a-b.C9", ":81", "/p#f", "?q=/?");
    assert IsRest(r) by { assert ":81"[1..] == "81"; }
    hide IsRest;
    assert "https" + "://" + Text(r) == "https://a-b.C9:81/p#f?q=/?";
  }

  lemma TwoDigits()
    ensures Decimal("81") == 81
  {
    DecimalParts("8", '1');
    OneDigit('8');
    assert "8" + ['1'] == "81";
    hide Decimal;
  }
}
