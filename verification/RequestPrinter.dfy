/** The request as the client writes it: `print_request_headers`, and the headers that
    `http_content::start` adds. */
module RequestPrinter {
  import opened Chars
  import opened Numbers
  import opened ParserState
  import opened ByteTransition
  import opened StepMachine
  import opened ParserInvariant
  import opened Calls
  import opened HeaderName
  import opened Lengths
  import opened HeaderLine
  import opened Headers
  import opened HeaderAssembly

  /** The methods of `http_method_to_string`. */
  predicate IsMethod(verb: nat) { verb == GET || verb == HEAD || verb == POST || verb == PUT }

  function PrintLines(hs: seq<Pair>): string {
    if hs == [] then "" else hs[0].name + ": " + hs[0].value + "\r\n" + PrintLines(hs[1..])
  }

  function PrintHead(verb: nat, path: string, hs: seq<Pair>): string {
    MethodString(verb) + " " + path + " HTTP/1.1\r\n" + PrintLines(hs) + "\r\n"
  }

  /** One request, written out. */
  lemma OneRequest()
    ensures PrintHead(GET, "/a", [Pair("X", "y")]) == "GET /a HTTP/1.1\r\nX: y\r\n\r\n"
  {
    assert [Pair("X", "y")][1..] == [];
    assert PrintLines([Pair("X", "y")]) == "X: y\r\n";
  }

  /** `print_request_headers`. */
  method PrintRequestHeaders(verb: nat, path: string, hs: seq<Pair>) returns (text: string)
    requires IsMethod(verb)
    ensures text == PrintHead(verb, path, hs)
  {
    text := MethodString(verb) + " " + path + " HTTP/1.1\r\n";
    ghost var start := text;
    var i := 0;
    while i < |hs|
      invariant i <= |hs|
      invariant text + PrintLines(hs[i..]) == start + PrintLines(hs)
    {
      assert hs[i..][0] == hs[i] && hs[i..][1..] == hs[i + 1..];
      text := text + (hs[i].name + ": " + hs[i].value + "\r\n");
      i := i + 1;
    }
    assert hs[i..] == [];
    text := text + "\r\n";
  }

  /** The header list of `http_content::start`. */
  function RequestHeaders(user: seq<Pair>, host: string, body: string): seq<Pair> {
    user + [Pair("Host", host)] + (if |body| == 0 then [] else [Pair("Content-Length", DecimalText(|body|))])
  }

  /** It is the user's headers, then the host, then the length of a body if there is one. */
  lemma RequestHeadersAre(user: seq<Pair>, host: string, body: string)
    ensures RequestHeaders(user, host, body)
        == user + [Pair("Host", host)] + if body == "" then [] else [Pair("Content-Length", DecimalText(|body|))]
  {
    hide DecimalText;
  }

  /** All the bytes of a request. */
  function RequestText(verb: nat, path: string, user: seq<Pair>, host: string, body: string): string {
    PrintHead(verb, path, RequestHeaders(user, host, body)) + body
  }

  function PrintedHeaders(hs: seq<Pair>): seq<Header> {
    if hs == [] then [] else [Printed(hs[0].name, hs[0].value)] + PrintedHeaders(hs[1..])
  }

  lemma {:induction false} PrintedLines(hs: seq<Pair>)
    ensures Lines(PrintedHeaders(hs)) == PrintLines(hs)
    ensures LineEvents(PrintedHeaders(hs)) == FieldEvents(hs)
  {
    if hs != [] {
      var h := Printed(hs[0].name, hs[0].value);
      assert Flat([]) == "" && FoldsText([]) == "";
      assert [" "][1..] == [];
      assert Flat([" "]) == " ";
      assert LineText(h) == h.name + ": " + h.value + "\r\n";
      assert Whole(h) == h.value;
      PrintedLines(hs[1..]);
    }
  }

  /** A header that the client's user may give: a token that frames nothing, and a value of header
      characters without white space at its ends. */
  predicate IsUserHeader(cfg: Config, h: Pair) {
    IsPlain(cfg, Printed(h.name, h.value)) && TrimEnd(h.value) == h.value
  }

  lemma {:induction false} TrimmedSame(hs: seq<Pair>)
    requires forall h :: h in hs ==> TrimEnd(h.value) == h.value
    ensures Trimmed(hs) == hs
  {
    if hs != [] {
      assert hs[0] in hs && forall x :: x in hs[1..] ==> x in hs;
      TrimmedSame(hs[1..]);
    }
  }

  lemma HostPlain(cfg: Config, host: string)
    requires forall c :: c in host ==> IsHostChar(c)
    ensures IsUserHeader(cfg, Pair("Host", host))
  {
    var h := Printed("Host", host);
    HostName();
    forall c | c in host ensures IsValueChar(cfg, c) && c != ' ' && c != '\t' { assert IsHostChar(c); }
    if host != "" { assert host[0] in host && host[|host| - 1] in host; }
  }

  lemma HostName()
    ensures IsName("Host") && LowerName("Host") == "host" && NameState("host").General?
  {
    assert "Host"[..3] == "Hos" && "Hos"[..2] == "Ho" && "Ho"[..1] == "H" && "H"[..0] == "";
    assert LowerName("") == "";
    assert LowerName("H") == "h";
    assert LowerName("Ho") == "ho";
    assert LowerName("Hos") == "hos";
  }
}
