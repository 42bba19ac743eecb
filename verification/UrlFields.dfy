/** `http_parser_parse_url` and `http_parse_host`: two automata, one inside the other, that fill in
    offsets and lengths. */
module UrlFields {
  import opened Chars
  import opened Numbers
  import opened ParserState
  import opened UrlChar

  /** `enum http_parser_url_fields`, in the order of a URL. */
  datatype Field = Schema | Userinfo | Host | Port | Path | Query | Fragment

  function Order(f: Field): nat {
    match f
    case Schema => 0
    case Userinfo => 1
    case Host => 2
    case Port => 3
    case Path => 4
    case Query => 5
    case Fragment => 6
  }

  /** An entry of `field_data`; a field is a key of the map if its bit in `field_set` is set. */
  datatype Range = Range(off: nat, len: nat)

  type Fields = map<Field, Range>

  function End(r: Range): nat { r.off + r.len }

  predicate IsDelimiter(c: char) { c == ':' || c == '/' || c == '@' || c == '[' || c == ']' || c == '?' || c == '#' }

  predicate Inside(r: Range, p: nat) { r.off <= p < End(r) }

  /** Within the bytes from `lo` to `hi`. */
  predicate Bounded(m: Fields, lo: nat, hi: nat) {
    forall f :: f in m ==> lo <= m[f].off && 0 < m[f].len && End(m[f]) <= hi
  }

  /** Disjoint, and in the order of a URL. */
  predicate Ordered(m: Fields) { forall f, g :: f in m && g in m && Order(f) < Order(g) ==> End(m[f]) <= m[g].off }

  predicate Covered(m: Fields, p: nat) { exists f :: f in m && Inside(m[f], p) }

  /** Every byte from `lo` to `hi` outside the fields is a delimiter. */
  predicate Covers(m: Fields, buf: string, lo: nat, hi: nat)
    requires hi <= |buf|
  {
    forall p :: lo <= p < hi ==> IsDelimiter(buf[p]) || Covered(m, p)
  }

  predicate Partition(m: Fields, buf: string) { Bounded(m, 0, |buf|) && Ordered(m) && Covers(m, buf, 0, |buf|) }

  // ----- the outer automaton -----

  /** The field that a byte belongs to, by the state it leads to; none for a delimiter. */
  function Label(s: State): Option<Field> {
    match s
    case ReqSchema => Some(Schema)
    case ReqServer => Some(Host)
    case ReqServerWithAt => Some(Host)
    case ReqPath => Some(Path)
    case ReqQueryString => Some(Query)
    case ReqFragment => Some(Fragment)
    case _ => None
  }

  /** No field before this one can follow: twice the order of a field, odd for the states between. */
  function Rank(s: State): nat {
    match s
    case ReqSchema => 0
    case ReqSchemaSlash => 1
    case ReqSchemaSlashSlash => 1
    case ReqServerStart => 1
    case ReqServer => 4
    case ReqServerWithAt => 4
    case ReqPath => 8
    case ReqQueryStringStart => 9
    case ReqQueryString => 10
    case ReqFragmentStart => 11
    case ReqFragment => 12
    case _ => 0
  }

  /** The automaton only moves forward, and stays in a field or leaves it for good. */
  lemma Forward(s: State, c: char)
    requires IsUrlState(s) || s.ReqSpacesBeforeUrl?
    ensures var t := ParseUrlChar(s, c);
            t.Dead? || (Rank(s) <= Rank(t)
              && (Rank(s) == Rank(t) && Label(t).Some? ==> Label(s) == Label(t) || s.ReqSpacesBeforeUrl?))
    ensures var t := ParseUrlChar(s, c);
            !t.Dead? && Label(t).None? ==> IsDelimiter(c) && !t.ReqSpacesBeforeUrl?
    ensures ParseUrlChar(s, c).ReqQueryStringStart? ==> c == '?'
    ensures ParseUrlChar(s, c).ReqFragmentStart? ==> c == '#'
    ensures ParseUrlChar(s, c).ReqPath? && !s.ReqPath? ==> c == '/' || c == '*'
    ensures ParseUrlChar(s, c).ReqQueryString? && !s.ReqQueryString? ==> s.ReqQueryStringStart?
    ensures ParseUrlChar(s, c).ReqFragment? && !s.ReqFragment? ==> s.ReqFragmentStart?
  {
    hide IsUrlChar, IsUserinfoChar, IsAlpha;
  }

  /** How fields are recognised from outside: by the bytes around them. */
  predicate Signed(m: Fields, buf: string) {
    && (Path in m ==> m[Path].off < |buf| && (buf[m[Path].off] == '/' || buf[m[Path].off] == '*'))
    && (Query in m ==> 0 < m[Query].off <= |buf| && buf[m[Query].off - 1] == '?')
    && (Fragment in m ==> 0 < m[Fragment].off <= |buf| && buf[m[Fragment].off - 1] == '#')
  }

  /** The loop of `http_parser_parse_url` before byte `p`, in state `s`; `last` is the field last touched. */
  predicate Scanned(m: Fields, buf: string, p: nat, s: State, last: Option<Field>)
    requires p <= |buf|
  {
    && Bounded(m, 0, p) && Ordered(m) && Covers(m, buf, 0, p) && Signed(m, buf)
    && (IsUrlState(s) || (s.ReqSpacesBeforeUrl? && m == map[]))
    && (match last case None => m == map[] case Some(f) => f in m)
    && (forall g :: g in m ==> 2 * Order(g) <= Rank(s) && g != Userinfo && g != Port)
    && (Label(s).Some? ==> last == Label(s) && End(m[last.value]) == p)
    && (Label(s).None? ==> forall g :: g in m ==> 2 * Order(g) < Rank(s))
    && (s.ReqQueryStringStart? ==> p > 0 && buf[p - 1] == '?')
    && (s.ReqFragmentStart? ==> p > 0 && buf[p - 1] == '#')
  }

  /** The new entries after one byte. */
  function Extend(m: Fields, f: Field, p: nat, same: bool): Fields {
    m[f := if same && f in m then Range(m[f].off, m[f].len + 1) else Range(p, 1)]
  }

  lemma CoversMore(m: Fields, n: Fields, buf: string, lo: nat, p: nat)
    requires lo <= p < |buf| && Covers(m, buf, lo, p) && (IsDelimiter(buf[p]) || Covered(n, p))
    requires forall q: nat :: q < p && Covered(m, q) ==> Covered(n, q)
    ensures Covers(n, buf, lo, p + 1)
  {
  }

  lemma CoveredExtend(m: Fields, f: Field, p: nat, same: bool)
    requires same ==> f in m && End(m[f]) == p
    requires !same ==> f !in m
    ensures var n := Extend(m, f, p, same);
            Covered(n, p) && forall q :: Covered(m, q) ==> Covered(n, q)
  {
    var n := Extend(m, f, p, same);
    assert Inside(n[f], p);
    forall q | Covered(m, q) ensures Covered(n, q) {
      var g :| g in m && Inside(m[g], q);
      assert g in n && Inside(n[g], q);
    }
  }

  /** Extending the last field, or starting a later one, keeps the fields apart. */
  lemma ExtendOrdered(m: Fields, f: Field, lo: nat, p: nat, same: bool)
    requires Bounded(m, lo, p) && Ordered(m) && lo <= p && (same ==> f in m && End(m[f]) == p) && (!same ==> f !in m)
    requires forall g :: g in m ==> Order(g) <= Order(f)
    ensures Bounded(Extend(m, f, p, same), lo, p + 1) && Ordered(Extend(m, f, p, same))
  {
  }

  lemma ScanDelimiter(m: Fields, buf: string, p: nat, s: State, last: Option<Field>)
    requires p < |buf| && Scanned(m, buf, p, s, last)
    requires var t := ParseUrlChar(s, buf[p]); !t.Dead? && Label(t).None?
    ensures Scanned(m, buf, p + 1, ParseUrlChar(s, buf[p]), last)
  {
    Forward(s, buf[p]);
    CoversMore(m, m, buf, 0, p);
    hide ParseUrlChar, Ordered, Covers;
    if Label(s).Some? { LabelRank(s, ParseUrlChar(s, buf[p])); }
  }

  lemma ScanStarts(buf: string, s: State)
    requires s.ReqServerStart? || s.ReqSpacesBeforeUrl?
    ensures Scanned(map[], buf, 0, s, None)
  {
  }

  lemma ScanEnds(m: Fields, buf: string, s: State, last: Option<Field>)
    requires Scanned(m, buf, |buf|, s, last)
    ensures Partition(m, buf) && Signed(m, buf) && Userinfo !in m && Port !in m
  {
  }

  lemma LabelRank(s: State, t: State)
    requires Label(s).Some? && Label(t).None? && IsUrlState(t) && Rank(s) <= Rank(t)
    ensures Rank(s) < Rank(t)
  {
  }

  lemma RankOfLabel(t: State)
    requires Label(t).Some?
    ensures Rank(t) == 2 * Order(Label(t).value) && IsUrlState(t) && !t.ReqQueryStringStart? && !t.ReqFragmentStart?
  {
  }

  /** A byte of a field goes on with the last field, or starts one that is later than all others. */
  lemma FieldNext(m: Fields, buf: string, p: nat, s: State, last: Option<Field>)
    requires p < |buf| && Scanned(m, buf, p, s, last) && Label(ParseUrlChar(s, buf[p])).Some?
    ensures var f := Label(ParseUrlChar(s, buf[p])).value;
            && (last == Some(f) <==> f in m) && (f in m ==> End(m[f]) == p && Label(s) == Some(f))
            && f != Userinfo && f != Port && forall g :: g in m ==> Order(g) <= Order(f)
  {
    var t := ParseUrlChar(s, buf[p]);
    Forward(s, buf[p]);
    RankOfLabel(t);
    hide ParseUrlChar, Bounded, Ordered, Covers, Signed, IsUrlState;
  }

  lemma SignedExtend(m: Fields, buf: string, p: nat, s: State, f: Field, same: bool)
    requires p < |buf| && Signed(m, buf) && (same <==> f in m)
    requires var t := ParseUrlChar(s, buf[p]); Label(t) == Some(f) && (IsUrlState(s) || s.ReqSpacesBeforeUrl?)
    requires !same ==> Label(s) != Some(f)
    requires (s.ReqQueryStringStart? ==> p > 0 && buf[p - 1] == '?')
        && (s.ReqFragmentStart? ==> p > 0 && buf[p - 1] == '#')
    ensures Signed(Extend(m, f, p, same), buf)
  {
    Forward(s, buf[p]);
    hide ParseUrlChar, IsUrlState;
  }

  lemma ScanField(m: Fields, buf: string, p: nat, s: State, last: Option<Field>)
    requires p < |buf| && Scanned(m, buf, p, s, last)
    requires Label(ParseUrlChar(s, buf[p])).Some?
    ensures var t := ParseUrlChar(s, buf[p]);
            var f := Label(t).value;
            (last == Some(f) <==> f in m) && Scanned(Extend(m, f, p, last == Some(f)), buf, p + 1, t, Some(f))
  {
    hide ParseUrlChar, Covers, Ordered, Covered, Bounded, Signed, Label, IsUrlState, Rank;
    var t := ParseUrlChar(s, buf[p]);
    var f := Label(t).value;
    var same := last == Some(f);
    FieldNext(m, buf, p, s, last);
    RankOfLabel(t);
    CoveredExtend(m, f, p, same);
    CoversMore(m, Extend(m, f, p, same), buf, 0, p);
    ExtendOrdered(m, f, 0, p, same);
    SignedExtend(m, buf, p, s, f, same);
    Forward(s, buf[p]);
    assert End(Extend(m, f, p, same)[f]) == p + 1;
  }

  // ----- the inner automaton -----

  datatype HostState =
    | HostDead | UserinfoStart | UserinfoState | HostStart | V6Start | HostName | V6 | V6End | V6ZoneStart | V6Zone
    | PortStart | PortState

  /** `http_parse_host_char`. */
  function HostChar(s: HostState, c: char): HostState {
    if s.UserinfoStart? || s.UserinfoState? then
      if c == '@' then HostStart else if IsUserinfoChar(c) then UserinfoState else HostDead
    else if s.HostStart? then
      if c == '[' then V6Start else if IsHostChar(c) then HostName else HostDead
    else if s.HostName? && IsHostChar(c) then HostName
    else if s.HostName? || s.V6End? then
      if c == ':' then PortStart else HostDead
    else if s.V6? && c == ']' then V6End
    else if s.V6? || s.V6Start? then
      if IsHex(c) || c == ':' || c == '.' then V6 else if s.V6? && c == '%' then V6ZoneStart else HostDead
    else if s.V6Zone? && c == ']' then V6End
    else if s.V6Zone? || s.V6ZoneStart? then
      if IsAlphaNum(c) || c == '%' || c == '.' || c == '-' || c == '_' || c == '~' then V6Zone else HostDead
    else if s.PortState? || s.PortStart? then
      if IsNum(c) then PortState else HostDead
    else HostDead
  }

  function HostLabel(s: HostState): Option<Field> {
    match s
    case UserinfoState => Some(Userinfo)
    case HostName => Some(Host)
    case V6 => Some(Host)
    case V6ZoneStart => Some(Host)
    case V6Zone => Some(Host)
    case PortState => Some(Port)
    case _ => None
  }

  function HostRank(s: HostState): nat {
    match s
    case UserinfoState => 2
    case HostStart => 3
    case V6Start => 3
    case HostName => 4
    case V6 => 4
    case V6ZoneStart => 4
    case V6Zone => 4
    case V6End => 5
    case PortStart => 5
    case PortState => 6
    case _ => 0
  }

  lemma HostForward(s: HostState, c: char)
    requires !s.HostDead?
    ensures var t := HostChar(s, c);
            t.HostDead?
              || (HostRank(s) <= HostRank(t)
                && (HostRank(s) == HostRank(t) && HostLabel(t).Some? ==> HostLabel(s) == HostLabel(t)))
    ensures var t := HostChar(s, c);
            !t.HostDead? && HostLabel(t).None? ==>
              IsDelimiter(c) && !t.UserinfoStart? && (HostLabel(s).Some? ==> HostRank(s) < HostRank(t))
    ensures HostChar(s, c).PortStart? ==> c == ':' && HostRank(s) >= 4
    ensures HostChar(s, c).V6End? ==> HostLabel(s) == Some(Host)
    ensures HostChar(s, c).PortState? ==> IsNum(c) && (s.PortState? || s.PortStart?)
    ensures s.UserinfoState? && !HostChar(s, c).HostDead? && !HostChar(s, c).UserinfoState? ==> c == '@'
    ensures HostChar(s, c).HostStart? ==> s.UserinfoState? || s.UserinfoStart?
    ensures HostChar(s, c).UserinfoState? ==> s.UserinfoState? || s.UserinfoStart?
  {
    hide IsUserinfoChar, IsHostChar, IsHex, IsAlphaNum;
  }

  predicate PortOk(h: Fields, buf: string) {
    Port in h ==> 0 < h[Port].off && End(h[Port]) <= |buf| && buf[h[Port].off - 1] == ':'
                  && forall q :: h[Port].off <= q < End(h[Port]) ==> IsNum(buf[q])
  }

  /** A user part ends at an `@`, once it is over. */
  predicate UserOk(h: Fields, buf: string, p: nat) {
    Userinfo in h ==> End(h[Userinfo]) < p <= |buf| && buf[End(h[Userinfo])] == '@'
  }

  /** The loop of `http_parse_host` before byte `p`; the authority starts at `a`. */
  predicate HostScanned(h: Fields, buf: string, a: nat, p: nat, s: HostState, last: Option<Field>)
    requires a <= p <= |buf|
  {
    && Bounded(h, a, p) && Ordered(h) && Covers(h, buf, a, p) && PortOk(h, buf) && !s.HostDead?
    && (s.UserinfoState? || UserOk(h, buf, p))
    && (match last case None => h == map[] case Some(f) => f in h)
    && (forall g :: g in h ==> 2 * Order(g) <= HostRank(s) && (g == Userinfo || g == Host || g == Port))
    && (HostLabel(s).Some? ==> last == HostLabel(s) && End(h[last.value]) == p)
    && (HostLabel(s).None? ==> forall g :: g in h ==> 2 * Order(g) < HostRank(s))
    && (s.PortStart? ==> p > a && buf[p - 1] == ':')
    && (HostRank(s) >= 4 ==> Host in h)
  }

  lemma HostDelimiter(h: Fields, buf: string, a: nat, p: nat, s: HostState, last: Option<Field>)
    requires a <= p < |buf| && HostScanned(h, buf, a, p, s, last)
    requires var t := HostChar(s, buf[p]); !t.HostDead? && HostLabel(t).None?
    ensures HostScanned(h, buf, a, p + 1, HostChar(s, buf[p]), last)
  {
    HostForward(s, buf[p]);
    CoversMore(h, h, buf, a, p);
    hide HostChar, Ordered, Covers, PortOk;
  }

  lemma HostLabelRank(t: HostState)
    requires HostLabel(t).Some?
    ensures HostRank(t) == 2 * Order(HostLabel(t).value)
    ensures HostLabel(t).value in {Userinfo, Host, Port} && (t.PortState? <==> HostLabel(t) == Some(Port))
    ensures (t.UserinfoState? <==> HostLabel(t) == Some(Userinfo)) && !t.PortStart? && !t.HostDead?
  {
  }

  lemma HostNext(h: Fields, buf: string, a: nat, p: nat, s: HostState, last: Option<Field>)
    requires a <= p < |buf| && HostScanned(h, buf, a, p, s, last) && HostLabel(HostChar(s, buf[p])).Some?
    ensures var f := HostLabel(HostChar(s, buf[p])).value;
            && (last == Some(f) <==> f in h) && (f in h ==> End(h[f]) == p && HostLabel(s) == Some(f))
            && forall g :: g in h ==> Order(g) <= Order(f)
  {
    var t := HostChar(s, buf[p]);
    HostForward(s, buf[p]);
    HostLabelRank(t);
    hide HostChar, Bounded, Ordered, Covers, PortOk, UserOk;
  }

  lemma PortExtend(h: Fields, buf: string, a: nat, p: nat, s: HostState, f: Field, same: bool)
    requires a <= p < |buf| && !s.HostDead? && PortOk(h, buf) && (same <==> f in h) && (same ==> End(h[f]) == p)
    requires HostLabel(HostChar(s, buf[p])) == Some(f) && (!same ==> HostLabel(s) != Some(f))
    requires s.PortStart? ==> p > a && buf[p - 1] == ':'
    ensures PortOk(Extend(h, f, p, same), buf)
  {
    HostForward(s, buf[p]);
    HostLabelRank(HostChar(s, buf[p]));
    hide HostChar;
  }

  lemma UserExtend(h: Fields, buf: string, a: nat, p: nat, s: HostState, last: Option<Field>)
    requires a <= p < |buf| && HostScanned(h, buf, a, p, s, last) && HostLabel(HostChar(s, buf[p])).Some?
    ensures var t := HostChar(s, buf[p]);
            var f := HostLabel(t).value;
            (last == Some(f) ==> f in h) && (t.UserinfoState? || UserOk(Extend(h, f, p, last == Some(f)), buf, p + 1))
  {
    HostForward(s, buf[p]);
    HostLabelRank(HostChar(s, buf[p]));
    HostNext(h, buf, a, p, s, last);
    hide HostChar, Bounded, Ordered, Covers, PortOk;
  }

  lemma HostKept(h: Fields, buf: string, a: nat, p: nat, s: HostState, last: Option<Field>)
    requires a <= p < |buf| && HostScanned(h, buf, a, p, s, last) && HostLabel(HostChar(s, buf[p])).Some?
    ensures var t := HostChar(s, buf[p]);
            var f := HostLabel(t).value;
            HostRank(t) >= 4 ==> Host in Extend(h, f, p, last == Some(f))
  {
    HostForward(s, buf[p]);
    hide HostChar, Bounded, Ordered, Covers, PortOk, UserOk;
  }

  lemma HostField(h: Fields, buf: string, a: nat, p: nat, s: HostState, last: Option<Field>)
    requires a <= p < |buf| && HostScanned(h, buf, a, p, s, last) && HostLabel(HostChar(s, buf[p])).Some?
    ensures var t := HostChar(s, buf[p]);
            var f := HostLabel(t).value;
            (last == Some(f) <==> f in h) && HostScanned(Extend(h, f, p, last == Some(f)), buf, a, p + 1, t, Some(f))
  {
    hide HostChar, Covers, Ordered, Covered, Bounded, PortOk, UserOk, HostLabel, HostRank;
    var t := HostChar(s, buf[p]);
    var f := HostLabel(t).value;
    var same := last == Some(f);
    HostNext(h, buf, a, p, s, last);
    HostLabelRank(t);
    CoveredExtend(h, f, p, same);
    CoversMore(h, Extend(h, f, p, same), buf, a, p);
    ExtendOrdered(h, f, a, p, same);
    PortExtend(h, buf, a, p, s, f, same);
    UserExtend(h, buf, a, p, s, last);
    HostForward(s, buf[p]);
    assert End(Extend(h, f, p, same)[f]) == p + 1;
    HostKept(h, buf, a, p, s, last);
  }

  /** The states in which an authority may end. */
  lemma HostEnds(h: Fields, buf: string, a: nat, p: nat, s: HostState, last: Option<Field>)
    requires a <= p <= |buf| && HostScanned(h, buf, a, p, s, last) && (s.HostName? || s.V6End? || s.PortState?)
    ensures HostDone(h, buf, a, p)
  {
    hide Bounded, Ordered, Covers, PortOk;
  }

  lemma HostScanStarts(buf: string, a: nat, s: HostState)
    requires a <= |buf| && (s.UserinfoStart? || s.HostStart?)
    ensures HostScanned(map[], buf, a, a, s, None)
  {
  }

  // ----- both together -----

  /** The authority cut up, put in the place of the host field. */
  function Merge(m: Fields, h: Fields): Fields { (m - {Host}) + h }

  predicate HostDone(h: Fields, buf: string, a: nat, b: nat)
    requires a <= b <= |buf|
  {
    && Bounded(h, a, b) && Ordered(h) && Covers(h, buf, a, b) && PortOk(h, buf) && UserOk(h, buf, |buf|) && Host in h
    && forall g :: g in h ==> g == Userinfo || g == Host || g == Port
  }

  lemma MergePartition(m: Fields, h: Fields, buf: string)
    requires Partition(m, buf) && Host in m && Userinfo !in m && Port !in m
    requires End(m[Host]) <= |buf| && HostDone(h, buf, m[Host].off, End(m[Host]))
    ensures Partition(Merge(m, h), buf)
  {
    var n := Merge(m, h);
    forall p: nat | p < |buf| ensures IsDelimiter(buf[p]) || Covered(n, p) { MergeCovered(m, h, buf, p); }
    forall f, g | f in n && g in n && Order(f) < Order(g) ensures End(n[f]) <= n[g].off { MergePair(m, h, f, g); }
    assert Ordered(n);
    hide IsDelimiter, Covered, Ordered;
  }

  lemma MergeCovered(m: Fields, h: Fields, buf: string, p: nat)
    requires Userinfo !in m && Port !in m
    requires p < |buf| && Covers(m, buf, 0, |buf|) && Host in m && End(m[Host]) <= |buf|
        && Covers(h, buf, m[Host].off, End(m[Host]))
    requires forall g :: g in h ==> g == Userinfo || g == Host || g == Port
    ensures IsDelimiter(buf[p]) || Covered(Merge(m, h), p)
  {
    hide IsDelimiter;
    var n := Merge(m, h);
    if !IsDelimiter(buf[p]) {
      assert Covered(m, p);
      var f :| f in m && Inside(m[f], p);
      if f == Host {
        assert Covered(h, p);
        var g :| g in h && Inside(h[g], p);
        assert g in n && Inside(n[g], p);
      } else {
        assert f in n && Inside(n[f], p);
      }
    }
  }

  lemma MergePair(m: Fields, h: Fields, f: Field, g: Field)
    requires Ordered(m) && Ordered(h) && Host in m && Bounded(h, m[Host].off, End(m[Host]))
    requires Userinfo !in m && Port !in m && forall x :: x in h ==> x == Userinfo || x == Host || x == Port
    requires f in Merge(m, h) && g in Merge(m, h) && Order(f) < Order(g)
    ensures End(Merge(m, h)[f]) <= Merge(m, h)[g].off
  {
    if f in h && g !in h { assert g in m && Order(Host) < Order(g); }
    if f !in h && g in h { assert f in m && Order(f) < Order(Host); }
  }

  lemma DoneParts(h: Fields, buf: string, a: nat, b: nat)
    requires a <= b <= |buf| && HostDone(h, buf, a, b)
    ensures PortOk(h, buf) && UserOk(h, buf, |buf|) && Host in h && forall g :: g in h ==>
        g == Userinfo || g == Host || g == Port
  {
  }

  lemma NoHostParts(m: Fields, buf: string)
    requires Userinfo !in m && Port !in m
    ensures PortOk(m, buf) && UserOk(m, buf, |buf|)
  {
  }

  lemma HostBounds(m: Fields, buf: string)
    requires Partition(m, buf) && Host in m
    ensures m[Host].off <= End(m[Host]) <= |buf|
  {
  }

  lemma PortInside(m: Fields, buf: string)
    requires PortOk(m, buf) && Port in m
    ensures End(m[Port]) <= |buf|
  {
  }

  /** What is said of an accepted URL. */
  predicate Accepted(m: Fields, port: nat, buf: string, isConnect: bool) {
    && Partition(m, buf) && Signed(m, buf) && PortOk(m, buf) && UserOk(m, buf, |buf|)
    && (Schema in m || Userinfo in m || Port in m ==> Host in m)
    && port <= 0xFFFF && (Port in m ==> End(m[Port]) <= |buf| && port == Decimal(buf[m[Port].off..End(m[Port])]))
    && (Port !in m ==> port == 0)
    && (isConnect ==> m.Keys == {Host, Port})
  }

  lemma MergeSigned(m: Fields, h: Fields, buf: string)
    requires Signed(m, buf) && PortOk(h, buf) && UserOk(h, buf, |buf|) && Userinfo !in m && Port !in m
    requires forall g :: g in h ==> g == Userinfo || g == Host || g == Port
    ensures Signed(Merge(m, h), buf) && PortOk(Merge(m, h), buf) && UserOk(Merge(m, h), buf, |buf|)
  {
  }

  // ----- what is accepted -----

  /** Where the outer loop stands. */
  datatype Outer = Outer(m: Fields, s: State, last: Option<Field>, foundAt: bool)

  function OuterStep(o: Outer, p: nat, c: char): Option<Outer> {
    var t := ParseUrlChar(o.s, c);
    if t.Dead? then None
    else match Label(t)
      case None => Some(o.(s := t))
      case Some(f) => Some(Outer(Extend(o.m, f, p, o.last == Some(f)), t, Some(f), o.foundAt || t.ReqServerWithAt?))
  }

  /** The outer loop over the first `p` bytes; none if a byte is refused. */
  function OuterScan(buf: string, isConnect: bool, p: nat): Option<Outer>
    requires p <= |buf|
  {
    if p == 0 then Some(Outer(map[], if isConnect then ReqServerStart else ReqSpacesBeforeUrl, None, false))
    else match OuterScan(buf, isConnect, p - 1) case None => None case Some(o) => OuterStep(o, p - 1, buf[p - 1])
  }

  lemma {:induction false} OuterStays(buf: string, isConnect: bool, p: nat, q: nat)
    requires p <= q <= |buf| && OuterScan(buf, isConnect, p).None?
    ensures OuterScan(buf, isConnect, q).None?
  {
    hide OuterStep;
    if p < q { OuterStays(buf, isConnect, p, q - 1); }
  }

  lemma OuterStarts(buf: string, isConnect: bool)
    ensures OuterScan(buf, isConnect, 0)
        == Some(Outer(map[], if isConnect then ReqServerStart else ReqSpacesBeforeUrl, None, false))
  {
  }

  lemma AtLabelled(t: State)
    ensures t.ReqServerWithAt? ==> Label(t).Some?
  {
  }

  lemma OuterNext(buf: string, isConnect: bool, p: nat, o: Outer)
    requires p < |buf| && OuterScan(buf, isConnect, p) == Some(o)
    ensures OuterScan(buf, isConnect, p + 1) == OuterStep(o, p, buf[p])
  {
    hide OuterStep;
  }

  datatype Inner = Inner(h: Fields, s: HostState, last: Option<Field>)

  function InnerStep(i: Inner, p: nat, c: char): Option<Inner> {
    var t := HostChar(i.s, c);
    if t.HostDead? then None
    else match HostLabel(t)
      case None => Some(i.(s := t))
      case Some(f) => Some(Inner(Extend(i.h, f, p, i.last == Some(f)), t, Some(f)))
  }

  /** The inner loop over the bytes from `a` to `p`. */
  function InnerScan(buf: string, foundAt: bool, a: nat, p: nat): Option<Inner>
    requires a <= p <= |buf|
    decreases p
  {
    if p == a then Some(Inner(map[], if foundAt then UserinfoStart else HostStart, None))
    else match InnerScan(buf, foundAt, a, p - 1) case None => None case Some(i) => InnerStep(i, p - 1, buf[p - 1])
  }

  lemma {:induction false} InnerStays(buf: string, foundAt: bool, a: nat, p: nat, q: nat)
    requires a <= p <= q <= |buf| && InnerScan(buf, foundAt, a, p).None?
    ensures InnerScan(buf, foundAt, a, q).None?
    decreases q
  {
    hide InnerStep;
    if p < q { InnerStays(buf, foundAt, a, p, q - 1); }
  }

  lemma InnerStarts(buf: string, foundAt: bool, a: nat)
    requires a <= |buf|
    ensures InnerScan(buf, foundAt, a, a) == Some(Inner(map[], if foundAt then UserinfoStart else HostStart, None))
  {
  }

  lemma InnerNext(buf: string, foundAt: bool, a: nat, p: nat, i: Inner)
    requires a <= p < |buf| && InnerScan(buf, foundAt, a, p) == Some(i)
    ensures InnerScan(buf, foundAt, a, p + 1) == InnerStep(i, p, buf[p])
  {
    hide InnerStep;
  }

  predicate Ends(s: HostState) { s.HostName? || s.V6End? || s.PortState? }

  /** The fields with the authority cut up, if it can be. */
  function Cut(m: Fields, buf: string, foundAt: bool): Option<Fields> {
    if Host !in m || End(m[Host]) > |buf| then Some(m)
    else match InnerScan(buf, foundAt, m[Host].off, End(m[Host]))
      case None => None
      case Some(i) => if Ends(i.s) then Some(Merge(m, i.h)) else None
  }

  lemma CutIs(m: Fields, buf: string, foundAt: bool)
    requires Host in m && End(m[Host]) <= |buf|
    ensures var i := InnerScan(buf, foundAt, m[Host].off, End(m[Host]));
            Cut(m, buf, foundAt) == if i.Some? && Ends(i.value.s) then Some(Merge(m, i.value.h)) else None
  {
    hide InnerScan, Merge;
  }

  function PortOf(m: Fields, buf: string): nat {
    if Port in m && End(m[Port]) <= |buf| then Decimal(buf[m[Port].off..End(m[Port])]) else 0
  }

  /** Which URLs are accepted, and what they are split into. */
  function Decide(buf: string, isConnect: bool): Option<Fields> {
    match OuterScan(buf, isConnect, |buf|)
    case None => None
    case Some(o) => Finished(o.m, buf, o.foundAt, isConnect)
  }

  function Finished(m: Fields, buf: string, foundAt: bool, isConnect: bool): Option<Fields> {
    if Schema in m && Host !in m then None
    else match Cut(m, buf, foundAt)
      case None => None
      case Some(n) => if (isConnect && n.Keys != {Host, Port}) || PortOf(n, buf) > 0xFFFF then None else Some(n)
  }

  /** The loop of `http_parse_host`, over the bytes from `a` to `b`. */
  method HostLoop(buf: string, foundAt: bool, a: nat, b: nat) returns (ok: bool, parts: Fields)
    requires a <= b <= |buf|
    ensures var i := InnerScan(buf, foundAt, a, b); ok <==> i.Some? && Ends(i.value.s)
    ensures ok ==> InnerScan(buf, foundAt, a, b).value.h == parts && HostDone(parts, buf, a, b)
  {
    hide HostScanned, HostChar, HostLabel, HostDone, Extend, HostRank, InnerScan;
    parts := map[];
    var s := if foundAt then UserinfoStart else HostStart;
    var last: Option<Field> := None;
    var p := a;
    HostScanStarts(buf, a, s);
    InnerStarts(buf, foundAt, a);
    while p < b
      invariant a <= p <= b
      invariant HostScanned(parts, buf, a, p, s, last)
      invariant InnerScan(buf, foundAt, a, p) == Some(Inner(parts, s, last))
    {
      InnerNext(buf, foundAt, a, p, Inner(parts, s, last));
      var t := HostChar(s, buf[p]);
      if t.HostDead? {
        InnerStays(buf, foundAt, a, p + 1, b);
        return false, parts;
      }
      if HostLabel(t).None? {
        HostDelimiter(parts, buf, a, p, s, last);
      } else {
        var f := HostLabel(t).value;
        HostField(parts, buf, a, p, s, last);
        parts := Extend(parts, f, p, last == Some(f));
        last := Some(f);
      }
      s := t;
      p := p + 1;
    }
    ok := Ends(s);
    if ok { HostEnds(parts, buf, a, p, s, last); }
  }

  class ParserUrl {
    var fields: Fields
    var port: nat

    constructor ()
    {
      fields, port := map[], 0;
    }

    /** `http_parse_host`; the offsets and lengths stay below 2^16 since the buffer does. */
    method ParseHost(buf: string, foundAt: bool) returns (ok: bool, ghost h: Fields)
      requires |buf| <= 0xFFFF && Partition(fields, buf) && Signed(fields, buf)
      requires Host in fields && Userinfo !in fields && Port !in fields
      modifies `fields
      ensures Cut(old(fields), buf, foundAt) == if ok then Some(fields) else None
      ensures ok ==> End(old(fields)[Host]) <= |buf| && HostDone(h, buf, old(fields)[Host].off, End(old(fields)[Host]))
                     && fields == Merge(old(fields), h)
    {
      hide Partition, Signed, HostDone, Merge, InnerScan, Cut, Ends;
      HostBounds(fields, buf);
      CutIs(fields, buf, foundAt);
      var parts;
      ok, parts := HostLoop(buf, foundAt, fields[Host].off, End(fields[Host]));
      h := parts;
      if ok { fields := Merge(fields, parts); }
    }

    /** `strtoul` on the port, which is followed by a byte that is no digit; a value that overflows is
        beyond 2^16 too. */
    method PortValue(buf: string) returns (v: nat)
      requires Port in fields && End(fields[Port]) <= |buf|
      ensures v == Decimal(buf[fields[Port].off..End(fields[Port])])
    {
      var r := fields[Port];
      v := 0;
      var i := r.off;
      while i < End(r)
        invariant r.off <= i <= End(r) && v == Decimal(buf[r.off..i])
      {
        var part := buf[r.off..i + 1];
        assert part == buf[r.off..i] + [buf[i]];
        DecimalParts(buf[r.off..i], buf[i]);
        v := if IsNum(buf[i]) then v * 10 + Digit(buf[i]) else v;
        i := i + 1;
      }
    }

    /** `http_parser_parse_url`. */
    method Parse(buf: string, isConnect: bool) returns (ok: bool)
      requires |buf| <= 0xFFFF
      modifies this
      ensures Decide(buf, isConnect) == if ok then Some(fields) else None
      ensures ok ==> Accepted(fields, port, buf, isConnect)
    {
      hide OuterScan, Scanned, ParseUrlChar, Label, Extend, Accepted, Finished, Partition, Signed, IsUrlState;
      fields, port := map[], 0;
      var s := if isConnect then ReqServerStart else ReqSpacesBeforeUrl;
      var last: Option<Field> := None;
      var foundAt := false;
      var p := 0;
      ScanStarts(buf, s);
      OuterStarts(buf, isConnect);
      while p < |buf|
        invariant p <= |buf| && Scanned(fields, buf, p, s, last) && port == 0
        invariant OuterScan(buf, isConnect, p) == Some(Outer(fields, s, last, foundAt))
      {
        OuterNext(buf, isConnect, p, Outer(fields, s, last, foundAt));
        var t := ParseUrlChar(s, buf[p]);
        if t.Dead? {
          OuterStays(buf, isConnect, p + 1, |buf|);
          return false;
        }
        AtLabelled(t);
        if t.ReqServerWithAt? { foundAt := true; }
        if Label(t).None? {
          ScanDelimiter(fields, buf, p, s, last);
        } else {
          var f := Label(t).value;
          ScanField(fields, buf, p, s, last);
          fields := Extend(fields, f, p, last == Some(f));
          last := Some(f);
        }
        s := t;
        p := p + 1;
      }
      ScanEnds(fields, buf, s, last);
      ok := Finish(buf, foundAt, isConnect);
    }

    /** What follows the loop of `http_parser_parse_url`. */
    method Finish(buf: string, foundAt: bool, isConnect: bool) returns (ok: bool)
      requires |buf| <= 0xFFFF && Partition(fields, buf) && Signed(fields, buf) && port == 0
      requires Userinfo !in fields && Port !in fields
      modifies this
      ensures Finished(old(fields), buf, foundAt, isConnect) == if ok then Some(fields) else None
      ensures ok ==> Accepted(fields, port, buf, isConnect)
    {
      hide Partition, Signed, PortOk, UserOk, HostDone;
      if Schema in fields && Host !in fields { return false; }
      ghost var m := fields;
      if Host in fields {
        var fine;
        ghost var h;
        fine, h := ParseHost(buf, foundAt);
        if !fine { return false; }
        DoneParts(h, buf, m[Host].off, End(m[Host]));
        MergePartition(m, h, buf);
        MergeSigned(m, h, buf);
      } else {
        NoHostParts(fields, buf);
      }
      if isConnect && fields.Keys != {Host, Port} { return false; }
      if Port in fields {
        PortInside(fields, buf);
        var v := PortValue(buf);
        if v > 0xFFFF { return false; }
        port := v;
      }
      ok := true;
    }
  }
}
