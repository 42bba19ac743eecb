/** `process_errors`: whether a finished request is retried, redirected or given back. */
module ErrorHandling {
  import opened Headers
  import opened Numbers
  import opened Url

  /** The error codes that are told apart, and all others. */
  datatype Error = NoError | BrokenPipe | ConnectionReset | InvalidEofState | Eof | Aborted | TimedOut | Other

  /** `http_result_data` with its error code. */
  datatype Report = Report(ec: Error, status: nat, headers: seq<Pair>)

  function ToLower(c: char): char { if 'A' <= c <= 'Z' then (c as int + 32) as char else c }

  predicate IEquals(a: string, b: string) {
    |a| == |b| && forall i :: 0 <= i < |a| ==> ToLower(a[i]) == ToLower(b[i])
  }

  /** `get_header`: the first value under this name, or nothing. */
  function GetHeader(hs: seq<Pair>, name: string): string {
    if hs == [] then "" else if IEquals(hs[0].name, name) then hs[0].value else GetHeader(hs[1..], name)
  }

  /** `Throws`: the constructor of the new URL throws out of the posted handler. */
  datatype Decision = Finish | Retry | Redirect(target: Url) | Throws

  predicate IsTransient(ec: Error) { ec.BrokenPipe? || ec.ConnectionReset? || ec.InvalidEofState? || ec.Eof? }

  /** `create_redirection`. */
  function CreateRedirection(r: Report): Decision {
    var location := GetHeader(r.headers, "Location");
    if location == "" then Finish
    else match Parse(location) case None => Throws case Some(u) => Redirect(u)
  }

  function ProcessErrors(r: Report): Decision {
    if IsTransient(r.ec) then Retry
    else if 301 <= r.status <= 308 then CreateRedirection(r)
    else Finish
  }

  /** A status that `process_errors` takes for a redirect. */
  predicate Redirecting(r: Report) {
    !IsTransient(r.ec) && 301 <= r.status <= 308 && GetHeader(r.headers, "Location") != ""
  }

  lemma DecisionBy(r: Report)
    ensures ProcessErrors(r).Retry? <==> IsTransient(r.ec)
    ensures ProcessErrors(r).Redirect? <==> Redirecting(r) && IsUrl(GetHeader(r.headers, "Location"))
    ensures ProcessErrors(r).Throws? <==> Redirecting(r) && !IsUrl(GetHeader(r.headers, "Location"))
  {
    hide IsUrl, Parse, GetHeader;
    ParseExact(GetHeader(r.headers, "Location"));
  }

  // ----- header names -----

  /** The same letter, but for its case. */
  predicate SameLetter(a: char, b: char) {
    a == b || ('A' <= a <= 'Z' && b as int == a as int + 32) || ('A' <= b <= 'Z' && a as int == b as int + 32)
  }

  predicate SameName(a: string, b: string) { |a| == |b| && forall i :: 0 <= i < |a| ==> SameLetter(a[i], b[i]) }

  lemma SameNameIs(a: string, b: string)
    ensures IEquals(a, b) <==> SameName(a, b)
  {
    if |a| == |b| {
      forall i | 0 <= i < |a| ensures ToLower(a[i]) == ToLower(b[i]) <==> SameLetter(a[i], b[i]) {}
    }
    hide ToLower, SameLetter;
  }

  /** Header `i` is the first under this name. */
  predicate FirstUnder(hs: seq<Pair>, name: string, i: nat) {
    i < |hs| && SameName(hs[i].name, name) && forall j :: 0 <= j < i ==> !SameName(hs[j].name, name)
  }

  /** The value is that of the first header under the name, in whatever case, or else nothing. */
  lemma {:induction false} GetHeaderExact(hs: seq<Pair>, name: string)
    ensures forall i: nat :: FirstUnder(hs, name, i) ==> GetHeader(hs, name) == hs[i].value
    ensures (forall i :: 0 <= i < |hs| ==> !SameName(hs[i].name, name)) ==> GetHeader(hs, name) == ""
  {
    hide SameName, IEquals;
    if hs != [] {
      var rest := hs[1..];
      SameNameIs(hs[0].name, name);
      GetHeaderExact(rest, name);
      forall i: nat | FirstUnder(hs, name, i) ensures GetHeader(hs, name) == hs[i].value {
        if i > 0 {
          assert rest[i - 1] == hs[i] && forall j :: 0 <= j < i - 1 ==> rest[j] == hs[j + 1];
          assert FirstUnder(rest, name, i - 1);
        }
      }
      if forall i :: 0 <= i < |hs| ==> !SameName(hs[i].name, name) {
        assert forall i :: 0 <= i < |rest| ==> rest[i] == hs[i + 1];
      }
    }
  }

  /** When each decision is taken: by the error code, the status, and the first `Location`, whatever its case
      and the headers before it.  The error code only matters if it is a transient one, so a request that was
      cancelled or timed out after its head had arrived is redirected like any other. */
  lemma DecisionExact(r: Report)
    ensures ProcessErrors(r).Retry? <==> r.ec in {BrokenPipe, ConnectionReset, InvalidEofState, Eof}
    ensures forall i: nat :: FirstUnder(r.headers, "Location", i) ==>
        var (d, l) := (ProcessErrors(r), r.headers[i].value);
        var redirects := !d.Retry? && 301 <= r.status <= 308 && l != "";
        && (d.Redirect? <==> redirects && IsUrl(l)) && (d.Throws? <==> redirects && !IsUrl(l))
        && (d.Redirect? ==> Parse(l) == Some(d.target))
    ensures (forall i :: 0 <= i < |r.headers| ==> !SameName(r.headers[i].name, "Location")) ==>
        ProcessErrors(r).Retry? || ProcessErrors(r).Finish?
  {
    hide IsUrl, Parse, GetHeader, SameName;
    DecisionBy(r);
    GetHeaderExact(r.headers, "Location");
  }

  predicate MarkAt(l: string, i: nat) { i + 3 <= |l| && l[i..i + 3] == "://" }

  predicate HasProtocolMark(l: string) { exists i :: 0 <= i < |l| && MarkAt(l, i) }

  /** A path is no URL, unless something in it looks like the end of a protocol. */
  lemma PathIsNoUrl(l: string)
    requires l != "" && l[0] == '/' && !HasProtocolMark(l)
    ensures !IsUrl(l)
  {
    hide Matches, LastSplit, IsUrl;
    SlashFirst(l);
    NoProtocol(l);
    ParseExact(l);
  }

  lemma NoProtocol(l: string)
    requires !HasProtocolMark(l)
    ensures LastSplit(l, |l|) == 0
  {
    hide LastSplit, Matches, NoLineEnd;
    LastSplitIs(l, |l|);
    forall j: nat ensures !SplitsAt(l, j) { assert !(j < |l| && MarkAt(l, j)); }
  }

  lemma SlashFirst(l: string)
    requires l != "" && l[0] == '/'
    ensures !Matches(l)
  {
  }

  // ----- two reports -----

  function Located(ec: Error, location: string): Report { Report(ec, 302, [Pair("Location", location)]) }

  lemma LocatedIs(ec: Error, location: string)
    ensures GetHeader(Located(ec, location).headers, "Location") == location
  {
    assert IEquals("Location", "Location");
  }

  lemma HostIsUrl()
    ensures IsUrl("h")
  {
    var r := Rest("h", "", "", "");
    assert IsSplit("h", "", r) by { assert "" + Text(r) == "h"; }
    hide IsSplit, IsUrl;
    OneSplit("h", "", r);
    ParseExact("h");
  }

  /** A redirect to a path throws; a cancelled request may be redirected. */
  lemma TwoReports()
    ensures ProcessErrors(Located(NoError, "/x")).Throws? && ProcessErrors(Located(Aborted, "h")).Redirect?
  {
    hide IsUrl, ProcessErrors, GetHeader;
    LocatedIs(NoError, "/x");
    LocatedIs(Aborted, "h");
    assert !HasProtocolMark("/x");
    PathIsNoUrl("/x");
    HostIsUrl();
    DecisionBy(Located(NoError, "/x"));
    DecisionBy(Located(Aborted, "h"));
  }
}
