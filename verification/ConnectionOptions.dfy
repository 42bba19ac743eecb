/** Which options of a `Connection` list the parser recognises: an option that is cut short makes it skip
    the next one, and an empty option makes it skip all that follow. */
module ConnectionOptions {
  import opened Chars
  import opened Numbers
  import opened ParserState
  import opened ByteTransition
  import opened StepMachine
  import opened ParserInvariant
  import opened Stepping
  import opened Reading
  import opened HeaderName
  import opened Lengths
  import opened HeaderLine
  import opened HeaderWords

  datatype Choice = KeepAlive | Close | Upgrade

  function Word(o: Choice): string {
    match o case KeepAlive => "keep-alive" case Close => "close" case Upgrade => "upgrade"
  }

  function Looking(o: Choice): HeaderState {
    match o
    case KeepAlive => MatchingConnectionKeepAlive
    case Close => MatchingConnectionClose
    case Upgrade => MatchingConnectionUpgrade
  }

  function Seen(o: Choice): HeaderState {
    match o case KeepAlive => ConnectionKeepAlive case Close => ConnectionClose case Upgrade => ConnectionUpgrade
  }

  /** The option that a lower-cased letter starts. */
  function Starting(c: char): Option<Choice> {
    if c == 'k' then Some(KeepAlive) else if c == 'c' then Some(Close) else if c == 'u' then Some(Choice.Upgrade)
      else None
  }

  // ----- one item of a list -----

  /** What an item is to the parser.  `Begun`: an empty item in the first place, whose comma counts as the
      first byte of the value. */
  datatype Verdict = Empty | Known(o: Choice) | Part(o: Choice) | Unknown | Strange | Begun

  /** An item without the blanks before it. */
  function Stripped(item: string): string {
    if item != "" && Lower(item[0]) == ' ' then Stripped(item[1..]) else item
  }

  predicate IsOption(s: string, w: string) { |s| >= |w| && LowerText(s[..|w|]) == w && Blank(s[|w|..]) }

  predicate IsPart(s: string, w: string) { |s| < |w| && LowerText(s) == w[..|s|] }

  function Judge(s: string): Verdict {
    if s == "" then Empty
    else match Starting(Lower(s[0]))
      case None => if IsToken(Lower(s[0])) then Unknown else Strange
      case Some(o) => if IsOption(s, Word(o)) then Known(o) else if IsPart(s, Word(o)) then Part(o) else Unknown
  }

  /** Where the matcher stands after the item `s`. */
  predicate Stands(s: string, h: HeaderState, i: nat) {
    match Judge(s)
    case Empty => h.MatchingConnectionTokenStart? && i == 0
    case Known(o) => h == Seen(o)
    case Part(o) => h == Looking(o) && i == |s| - 1
    case Unknown => h.MatchingConnectionToken?
    case Strange => h.General?
    case Begun => false
  }

  lemma LowerOne(c: char)
    ensures LowerText([c]) == [Lower(c)]
  {
    assert [c][..0] == "";
    hide Lower;
  }

  lemma JudgeFirst(c: char)
    requires Lower(c) != ' '
    ensures Judge([c]) == match Starting(Lower(c))
                          case None => if IsToken(Lower(c)) then Unknown else Strange
                          case Some(o) => Part(o)
  {
    LowerOne(c);
    hide Lower, IsToken;
    assert "keep-alive"[..1] == "k" && "close"[..1] == "c" && "upgrade"[..1] == "u";
  }

  lemma PartNext(s: string, c: char, w: string)
    requires 0 < |s| < |w|
    ensures IsPart(s + [c], w) || IsOption(s + [c], w) <==> IsPart(s, w) && Lower(c) == w[|s|]
    ensures IsOption(s + [c], w) ==> |s| + 1 == |w|
    ensures IsPart(s + [c], w) ==> |s| + 1 < |w|
  {
    LowerConcat(s, [c]);
    LowerOne(c);
    hide Lower;
    var (t, u) := (LowerText(s), LowerText(s + [c]));
    assert u == t + [Lower(c)] && u[..|s|] == t;
    assert w[..|s| + 1] == w[..|s|] + [w[|s|]];
    if |s| + 1 == |w| { assert (s + [c])[..|w|] == s + [c] && (s + [c])[|w|..] == "" && w[..|w|] == w; }
  }

  lemma OptionNext(s: string, c: char, w: string)
    requires |s| >= |w|
    ensures IsOption(s + [c], w) <==> IsOption(s, w) && c == ' '
    ensures !IsPart(s + [c], w) && !IsPart(s, w)
  {
    assert (s + [c])[..|w|] == s[..|w|] && (s + [c])[|w|..] == s[|w|..] + [c];
    BlankMore(s[|w|..], c);
    hide LowerText, Lower;
  }

  /** What one more byte makes of an item that is not empty. */
  lemma JudgeNext(s: string, c: char)
    requires s != ""
    ensures match Judge(s)
            case Known(o) => Judge(s + [c]) == if c == ' ' then Known(o) else Unknown
            case Part(o) => 0 < |s| < |Word(o)| &&
              Judge(s + [c]) == if Lower(c) != Word(o)[|s|] then Unknown
                                else if |s| + 1 == |Word(o)| then Known(o) else Part(o)
            case v => Judge(s + [c]) == v
  {
    assert (s + [c])[0] == s[0];
    hide Lower, IsToken, LowerText;
    match Starting(Lower(s[0]))
    case None =>
    case Some(o) =>
      var w := Word(o);
      if |s| < |w| { PartNext(s, c, w); NotYet(s, w); } else { OptionNext(s, c, w); }
  }

  lemma NotYet(s: string, w: string)
    requires |s| < |w|
    ensures !IsOption(s, w)
  {
  }

  lemma {:induction false} StrippedMore(item: string, c: char)
    ensures var s := Stripped(item);
            Stripped(item + [c]) == if s == "" && Lower(c) == ' ' then "" else s + [c]
  {
    hide Lower;
    var more := item + [c];
    if item == "" {
      assert more[1..] == "";
    } else {
      assert more[0] == item[0] && more[1..] == item[1..] + [c];
      if Lower(item[0]) == ' ' { StrippedMore(item[1..], c); }
    }
  }

  lemma StrippedHead(item: string)
    ensures var s := Stripped(item); s != "" ==> Lower(s[0]) != ' '
  {
    hide Lower;
  }

  /** One byte of an item, other than the comma. */
  lemma StandsNext(s: string, f: Fields, c: char)
    requires Stands(s, f.hstate, f.index) && c != ',' && (s != "" ==> Lower(s[0]) != ' ')
    ensures var (g, t) := (ValueNext(f, c), if s == "" && Lower(c) == ' ' then "" else s + [c]);
            Stands(t, g.hstate, g.index) && g.m == f.m
  {
    SpaceNoToken();
    hide Lower, IsToken;
    if s == "" {
      assert "" + [c] == [c];
      if Lower(c) != ' ' { JudgeFirst(c); }
      FirstNext(f, c);
    } else {
      JudgeNext(s, c);
      hide Judge;
      ItemNext(s, f, c);
    }
  }

  lemma FirstNext(f: Fields, c: char)
    requires f.hstate.MatchingConnectionTokenStart? && f.index == 0
    ensures var g := ValueNext(f, c);
            g == f.(hstate := match Starting(Lower(c))
                              case Some(o) => Looking(o)
                              case None => if IsToken(Lower(c)) then MatchingConnectionToken
                                           else if Lower(c) == ' ' then MatchingConnectionTokenStart else General)
  {
    LowerNotTab(c);
    SpaceNoToken();
    hide Lower, IsToken;
  }

  lemma LowerNotTab(c: char)
    ensures Lower(c) != '\t'
  {
  }

  lemma SpaceNoToken()
    ensures !IsToken(' ')
  {
  }

  lemma ItemNext(s: string, f: Fields, c: char)
    requires Stands(s, f.hstate, f.index) && c != ',' && s != ""
    ensures var g := ValueNext(f, c);
            && g.m == f.m
            && match Judge(s)
               case Known(o) => if c == ' ' then g.hstate == Seen(o) else g.hstate.MatchingConnectionToken?
               case Part(o) =>
                 if |s| >= |Word(o)| || Lower(c) != Word(o)[|s|] then g.hstate.MatchingConnectionToken?
                 else if |s| + 1 == |Word(o)| then g.hstate == Seen(o)
                 else g.hstate == Looking(o) && g.index == |s|
               case Unknown => g.hstate.MatchingConnectionToken?
               case Strange => g.hstate.General?
               case Empty => true
  {
    hide Lower, IsToken, Judge;
  }

  /** The matcher over an item, from the start of one. */
  lemma {:induction false} ItemRun(f: Fields, item: string)
    requires f.hstate.MatchingConnectionTokenStart? && f.index == 0 && ',' !in item
    ensures var g := ValueRun(f, item); Stands(Stripped(item), g.hstate, g.index) && g.m == f.m
    decreases |item|
  {
    hide Lower, ValueNext, Judge, Stands, Stripped;
    if item == "" {
      EmptyStands(f);
    } else {
      var c, init := item[|item| - 1], item[..|item| - 1];
      assert item == init + [c] && c in item && forall d :: d in init ==> d in item;
      ItemRun(f, init);
      StrippedHead(init);
      StandsNext(Stripped(init), ValueRun(f, init), c);
      StrippedMore(init, c);
    }
  }

  lemma EmptyStands(f: Fields)
    requires f.hstate.MatchingConnectionTokenStart? && f.index == 0
    ensures Stands(Stripped(""), f.hstate, f.index)
  {
  }

  // ----- the list -----

  function Comma(v: string): (k: nat)
    ensures k <= |v| && ',' !in v[..k] && (k < |v| ==> v[k] == ',')
  {
    if v == "" || v[0] == ',' then 0 else
      assert v[..1 + Comma(v[1..])] == [v[0]] + v[1..][..Comma(v[1..])];
      1 + Comma(v[1..])
  }

  /** The list cut at its commas. */
  function Items(v: string): (r: seq<string>)
    ensures r != []
    decreases |v|
  {
    var k := Comma(v);
    [v[..k]] + if k == |v| then [] else Items(v[k + 1..])
  }

  /** The options recognised in these items.  One that is cut short hides the next item, and an empty one,
      or one that starts with no token byte, hides all that follow. */
  function Options(items: seq<string>): set<Choice>
    decreases |items|
  {
    if items == [] then {}
    else match Judge(Stripped(items[0]))
      case Known(o) => {o} + Options(items[1..])
      case Unknown => Options(items[1..])
      case Part(_) => if |items| == 1 then {} else Options(items[2..])
      case _ => {}
  }

  /** The first item starts with no blank, and is passed over whatever it starts with; a comma there counts
      as its first byte. */
  function ListOptions(v: string): set<Choice>
    requires v != ""
  {
    var items := Items(v);
    if v[0] == ',' then (if |items| <= 2 then {} else Options(items[2..]))
    else if Starting(Lower(v[0])).None? then Options(items[1..])
    else Options(items)
  }

  function Add(flags: Flags, os: set<Choice>): Flags {
    flags.(keepAlive := flags.keepAlive || KeepAlive in os, close := flags.close || Close in os,
           connUpgrade := flags.connUpgrade || Choice.Upgrade in os)
  }

  /** The flags once the line is over. */
  function AtEnd(f: Fields): Flags { EndConnectionWord(f.m.flags, f.hstate) }

  lemma AddNone(flags: Flags)
    ensures Add(flags, {}) == flags
  {
  }

  lemma AddMore(flags: Flags, o: Choice, os: set<Choice>)
    ensures Add(EndConnectionWord(flags, Seen(o)), os) == Add(flags, {o} + os)
    ensures EndConnectionWord(flags, Seen(o)) == Add(flags, {o})
  {
  }

  /** The comma after an item. */
  lemma CommaNext(s: string, f: Fields)
    requires Stands(s, f.hstate, f.index)
    ensures var g := ValueNext(f, ',');
            match Judge(s)
            case Known(o) =>
              g == f.(index := 0, hstate := MatchingConnectionTokenStart,
                m := f.m.(flags := EndConnectionWord(f.m.flags, Seen(o))))
            case Unknown => g == f.(index := 0, hstate := MatchingConnectionTokenStart)
            case Part(_) => g.hstate.MatchingConnectionToken? && g.m == f.m
            case _ => g.hstate.General? && g.m == f.m
  {
    CommaPlain();
    hide Judge, Lower, IsToken;
  }

  lemma CommaPlain()
    ensures Lower(',') == ',' && !IsToken(',') && ',' !in "keep-alive" && ',' !in "close" && ',' !in "upgrade"
  {
  }

  /** Bytes up to a comma that the matcher passes over, and bytes after it has given up. */
  lemma {:induction false} PassRun(f: Fields, v: string)
    requires f.hstate.General? || (f.hstate.MatchingConnectionToken? && ',' !in v)
    ensures ValueRun(f, v) == f
    decreases |v|
  {
    hide Lower;
    if v != "" {
      var c, init := v[|v| - 1], v[..|v| - 1];
      assert c in v && forall d :: d in init ==> d in v;
      PassRun(f, init);
    }
  }

  lemma CutAt(f: Fields, v: string, k: nat)
    requires k < |v| && v[k] == ','
    ensures ValueRun(f, v) == ValueRun(ValueNext(ValueRun(f, v[..k]), ','), v[k + 1..])
  {
    assert v == v[..k] + [','] + v[k + 1..];
    ValueRunConcat(f, v[..k] + [','], v[k + 1..]);
    ValueRunMore(f, v[..k], ',');
    hide ValueNext, ValueRun;
  }

  /** From the start of an item on, the parser recognises the options of the items. */
  lemma {:induction false} ListRun(f: Fields, v: string)
    requires f.hstate.MatchingConnectionTokenStart? && f.index == 0
    ensures AtEnd(ValueRun(f, v)) == Add(f.m.flags, Options(Items(v)))
    decreases |v|, 0
  {
    hide Lower, ValueNext, ValueRun, Judge, Stripped, Stands, Add, EndConnectionWord, Options, Items, Comma, AtEnd;
    var k := Comma(v);
    var (s, g) := (Stripped(v[..k]), ValueRun(f, v[..k]));
    ItemRun(f, v[..k]);
    if k == |v| {
      assert v[..k] == v;
      LastItem(s, g);
      OneItem(v);
    } else {
      CutAt(f, v, k);
      CommaNext(s, g);
      var h := ValueNext(g, ',');
      OptionsCons(v);
      match Judge(s)
      case Known(o) =>
        ListRun(h, v[k + 1..]);
        AddMore(f.m.flags, o, Options(Items(v[k + 1..])));
      case Unknown => ListRun(h, v[k + 1..]);
      case Part(_) => SkipRun(h, v[k + 1..]);
      case _ =>
        PassRun(h, v[k + 1..]);
        GeneralEnd(h);
        AddNone(f.m.flags);
    }
  }

  lemma OptionsCons(v: string)
    requires Comma(v) < |v|
    ensures var (s, rest) := (Stripped(v[..Comma(v)]), Items(v[Comma(v) + 1..]));
            Options(Items(v)) == match Judge(s)
                                 case Known(o) => {o} + Options(rest)
                                 case Unknown => Options(rest)
                                 case Part(_) => Options(rest[1..])
                                 case _ => {}
  {
    ItemsMore(v);
    hide Comma, Judge, Stripped, Items;
  }

  /** The items behind the first. */
  function Later(v: string): seq<string> { if Comma(v) == |v| then [] else Items(v[Comma(v) + 1..]) }

  lemma LaterIs(v: string)
    ensures Items(v)[1..] == Later(v) && |Items(v)| == 1 + |Later(v)|
  {
    hide Comma;
    var x := v[..Comma(v)];
    assert Items(v) == [x] + Later(v);
    assert ([x] + Later(v))[1..] == Later(v);
  }

  /** An item passed over, and the items behind it. */
  lemma {:induction false} SkipRun(f: Fields, v: string)
    requires f.hstate.MatchingConnectionToken?
    ensures AtEnd(ValueRun(f, v)) == Add(f.m.flags, Options(Items(v)[1..]))
    decreases |v|, 1
  {
    hide Lower, ValueRun, ValueNext, Judge, Stripped, Stands, Add, EndConnectionWord, Items, Options, Comma, AtEnd;
    var k := Comma(v);
    PassRun(f, v[..k]);
    LaterIs(v);
    if k == |v| {
      assert v[..k] == v;
      GeneralEnd(f);
      AddNone(f.m.flags);
      NoOptions();
    } else {
      CutAt(f, v, k);
      SkipComma(f);
      ListRun(ValueNext(f, ','), v[k + 1..]);
    }
  }

  lemma NoOptions()
    ensures Options([]) == {}
  {
  }

  lemma SkipComma(f: Fields)
    requires f.hstate.MatchingConnectionToken?
    ensures ValueNext(f, ',') == f.(index := 0, hstate := MatchingConnectionTokenStart)
  {
    hide Lower;
  }

  lemma GeneralEnd(f: Fields)
    requires f.hstate.General? || f.hstate.MatchingConnectionToken?
    ensures AtEnd(f) == f.m.flags
  {
  }

  lemma LastItem(s: string, f: Fields)
    requires Stands(s, f.hstate, f.index)
    ensures AtEnd(f) == match Judge(s) case Known(o) => Add(f.m.flags, {o}) case _ => f.m.flags
  {
    hide Judge;
  }

  lemma OneItem(v: string)
    requires Comma(v) == |v|
    ensures Options(Items(v)) == match Judge(Stripped(v)) case Known(o) => {o} case _ => {}
    ensures forall flags :: Add(flags, {}) == flags
  {
    assert v[..|v|] == v && Items(v) == [v] && [v][1..] == [] && Options([]) == {};
    hide Judge, Stripped;
  }

  lemma ItemsMore(v: string)
    requires Comma(v) < |v|
    ensures var k := Comma(v);
            && Items(v)[0] == v[..k] && Items(v)[1..] == Items(v[k + 1..]) && |Items(v)| >= 2
            && Items(v)[2..] == Items(v[k + 1..])[1..]
  {
    hide Comma;
  }

  // ----- a whole value -----

  lemma FirstRun(f: Fields, v: string)
    requires f.hstate.Connection? && v != ""
    ensures AtEnd(ValueRun(ValueFirst(f, v[0]), v[1..])) == Add(f.m.flags, ListOptions(v))
  {
    hide Lower, ValueNext, ValueRun, Add, EndConnectionWord, Options, Comma, AtEnd;
    var (g, start) := (ValueFirst(f, v[0]), ValueAt(f, MatchingConnectionTokenStart));
    assert v == [v[0]] + v[1..];
    if Starting(Lower(v[0])).Some? {
      FirstNext(start, v[0]);
      assert g == ValueNext(start, v[0]);
      NotComma(v[0]);
      ValueRunConcat(start, [v[0]], v[1..]);
      OneRun(start, v[0]);
      ListRun(start, v);
    } else {
      SkipRun(g, v[1..]);
      FirstItem(v);
    }
  }

  lemma NotComma(c: char)
    requires Starting(Lower(c)).Some?
    ensures c != ','
  {
  }

  lemma OneRun(f: Fields, c: char)
    ensures ValueRun(f, [c]) == ValueNext(f, c)
  {
    assert [c][..0] == "";
    hide ValueNext;
  }

  lemma FirstItem(v: string)
    requires v != "" && Starting(Lower(v[0])).None?
    ensures ListOptions(v) == Options(Items(v[1..])[1..])
  {
    hide Lower, Comma, Judge, Stripped, Items;
    if v[0] == ',' { EmptyFirst(v); } else { LongFirst(v); }
  }

  lemma EmptyFirst(v: string)
    requires v != "" && v[0] == ','
    ensures |Items(v)| >= 2 && Items(v)[2..] == Items(v[1..])[1..]
  {
    assert Comma(v) == 0;
    hide Comma, Items;
    LaterIs(v);
    assert Items(v)[2..] == Items(v)[1..][1..];
  }

  lemma LongFirst(v: string)
    requires v != "" && v[0] != ','
    ensures Items(v)[1..] == Items(v[1..])[1..]
  {
    var k := Comma(v[1..]);
    assert Comma(v) == 1 + k;
    hide Comma, Items;
    LaterIs(v);
    LaterIs(v[1..]);
    if k < |v[1..]| { assert v[1 + k + 1..] == v[1..][k + 1..]; }
  }

  /** States of the matcher of options. */
  predicate IsListState(h: HeaderState) {
    IsWordState(h) && !h.TransferEncodingChunked? && !h.MatchingTransferEncodingChunked?
  }

  lemma {:induction false} ListState(f: Fields, v: string)
    requires IsListState(f.hstate)
    ensures IsListState(ValueRun(f, v).hstate)
    decreases |v|
  {
    hide Lower, IsToken;
    if v != "" { ListState(f, v[..|v| - 1]); }
  }

  lemma FirstState(f: Fields, c: char)
    requires f.hstate.Connection?
    ensures var g := ValueFirst(f, c);
            IsListState(g.hstate) && IsWordState(g.hstate)
              && g == f.(state := HeaderValue, index := 0, hstate := g.hstate)
  {
    hide Lower;
  }

  lemma ListEnd(f: Fields)
    requires IsListState(f.hstate)
    ensures EndOfLine(f).m == f.m.(flags := AtEnd(f))
  {
  }

  /** Every value of `Connection` is read, and at the end of its line it has set the flags of exactly the
      options recognised in its list. */
  lemma ReadConnection(cfg: Config, m: Machine, v: string)
    requires m.f.state.HeaderValueDiscardWs? && m.f.hstate.Connection?
    requires v != "" && v[0] != ' ' && v[0] != '\t' && forall c :: c in v ==> IsValueChar(cfg, c)
    ensures var n := ValueRead(m, v);
            && Reads(cfg, m, v, n) && n.f.state.HeaderValue? && n.f.length == m.f.length
            && EndOfLine(n.f).m == m.f.m.(flags := Add(m.f.m.flags, ListOptions(v)))
  {
    hide Reads, IsValueChar, Emit, ValueRun, ValueFirst, ListOptions, Add, AtEnd, IsListState, IsWordState, EndOfLine;
    ReadValue(cfg, m, v);
    FirstState(m.f, v[0]);
    FirstRun(m.f, v);
    var g := ValueFirst(m.f, v[0]);
    ListState(g, v[1..]);
    ValueRunState(g, v[1..]);
    ListEnd(ValueRun(g, v[1..]));
  }

  // ----- which items are looked at -----

  function Judges(items: seq<string>): (r: seq<Verdict>)
    ensures |r| == |items| && forall i :: 0 <= i < |r| ==> r[i] == Judge(Stripped(items[i]))
  {
    if items == [] then [] else [Judge(Stripped(items[0]))] + Judges(items[1..])
  }

  /** The first item is passed over, whatever it is, unless its first letter starts an option. */
  function FirstVerdict(item: string): Verdict {
    if item == "" then Begun else if Starting(Lower(item[0])).None? then Unknown else Judge(Stripped(item))
  }

  /** What the items of a value are, each in its place. */
  function Verdicts(v: string): (r: seq<Verdict>)
    ensures |r| == |Items(v)| && r[0] == FirstVerdict(Items(v)[0])
    ensures forall i :: 0 < i < |r| ==> r[i] == Judge(Stripped(Items(v)[i]))
  {
    [FirstVerdict(Items(v)[0])] + Judges(Items(v)[1..])
  }

  /** Nothing behind the item is looked at. */
  predicate EndsList(d: Verdict) { d.Empty? || d.Strange? }

  /** The next item is passed over. */
  predicate HidesNext(d: Verdict) { d.Part? || d.Begun? }

  /** An item is looked at, unless one that is looked at ends the list before it, or hides it. */
  predicate LookedAt(ds: seq<Verdict>, i: nat)
    requires i < |ds|
    decreases i
  {
    forall j: nat :: j < i && LookedAt(ds, j) ==> !EndsList(ds[j]) && (j == i - 1 ==> !HidesNext(ds[j]))
  }

  /** How the first item decides about those behind it. */
  lemma {:induction false} LookedBehind(ds: seq<Verdict>, i: nat)
    requires 0 < i < |ds|
    ensures EndsList(ds[0]) ==> !LookedAt(ds, i)
    ensures !EndsList(ds[0]) && !HidesNext(ds[0]) ==> (LookedAt(ds, i) <==> LookedAt(ds[1..], i - 1))
    ensures HidesNext(ds[0]) ==> (LookedAt(ds, i) <==> i > 1 && LookedAt(ds[2..], i - 2))
    decreases i
  {
    assert LookedAt(ds, 0);
    forall j: nat | 0 < j < i ensures EndsList(ds[0]) ==> !LookedAt(ds, j)
      ensures !EndsList(ds[0]) && !HidesNext(ds[0]) ==> (LookedAt(ds, j) <==> LookedAt(ds[1..], j - 1))
      ensures HidesNext(ds[0]) ==> (LookedAt(ds, j) <==> j > 1 && LookedAt(ds[2..], j - 2))
    {
      LookedBehind(ds, j);
    }
    if !EndsList(ds[0]) && !HidesNext(ds[0]) {
      ShiftOne(ds, i);
    } else if HidesNext(ds[0]) && i > 1 {
      ShiftTwo(ds, i);
    }
  }

  lemma ShiftOne(ds: seq<Verdict>, i: nat)
    requires 0 < i < |ds| && !EndsList(ds[0]) && !HidesNext(ds[0])
    requires forall j: nat :: 0 < j < i ==> (LookedAt(ds, j) <==> LookedAt(ds[1..], j - 1))
    ensures LookedAt(ds, i) <==> LookedAt(ds[1..], i - 1)
  {
    var rest := ds[1..];
    forall j: nat | j < i - 1 ensures LookedAt(rest, j) <==> LookedAt(ds, j + 1) { assert j + 1 - 1 == j; }
    if LookedAt(ds, i) {
      forall j: nat | j < i - 1 && LookedAt(rest, j)
        ensures !EndsList(rest[j]) && (j == i - 2 ==> !HidesNext(rest[j]))
      {
        assert LookedAt(ds, j + 1) && rest[j] == ds[j + 1];
      }
    }
    if LookedAt(rest, i - 1) {
      forall j: nat | j < i && LookedAt(ds, j) ensures !EndsList(ds[j]) && (j == i - 1 ==> !HidesNext(ds[j])) {
        if j > 0 { assert LookedAt(rest, j - 1) && rest[j - 1] == ds[j]; }
      }
    }
  }

  lemma ShiftTwo(ds: seq<Verdict>, i: nat)
    requires 1 < i < |ds| && HidesNext(ds[0])
    requires forall j: nat :: 0 < j < i ==> (LookedAt(ds, j) <==> j > 1 && LookedAt(ds[2..], j - 2))
    ensures LookedAt(ds, i) <==> LookedAt(ds[2..], i - 2)
  {
    var rest := ds[2..];
    forall j: nat | j < i - 2 ensures LookedAt(rest, j) <==> LookedAt(ds, j + 2) { assert j + 2 - 2 == j; }
    if LookedAt(ds, i) {
      forall j: nat | j < i - 2 && LookedAt(rest, j)
        ensures !EndsList(rest[j]) && (j == i - 3 ==> !HidesNext(rest[j]))
      {
        assert LookedAt(ds, j + 2) && rest[j] == ds[j + 2];
      }
    }
    if LookedAt(rest, i - 2) {
      forall j: nat | j < i && LookedAt(ds, j) ensures !EndsList(ds[j]) && (j == i - 1 ==> !HidesNext(ds[j])) {
        if j > 0 { assert j > 1 && LookedAt(rest, j - 2) && rest[j - 2] == ds[j]; }
      }
    }
  }

  /** The options found among these verdicts. */
  function Found(ds: seq<Verdict>): set<Choice>
    decreases |ds|
  {
    if ds == [] then {}
    else if ds[0].Known? then {ds[0].o} + Found(ds[1..])
    else if ds[0].Unknown? then Found(ds[1..])
    else if HidesNext(ds[0]) && |ds| > 1 then Found(ds[2..])
    else {}
  }

  lemma {:induction false} FoundExact(ds: seq<Verdict>, o: Choice)
    ensures o in Found(ds) <==> exists i: nat :: i < |ds| && LookedAt(ds, i) && ds[i] == Known(o)
    decreases |ds|
  {
    if ds != [] {
      assert LookedAt(ds, 0);
      var k := if HidesNext(ds[0]) then 2 else 1;
      forall i: nat | 0 < i < |ds|
        ensures EndsList(ds[0]) ==> !LookedAt(ds, i)
        ensures !EndsList(ds[0]) ==> (LookedAt(ds, i) <==> i >= k && LookedAt(ds[k..], i - k))
      {
        LookedBehind(ds, i);
      }
      hide LookedAt;
      if !EndsList(ds[0]) && k <= |ds| {
        FoundExact(ds[k..], o);
        FoundBehind(ds, k, o);
      }
    }
  }

  lemma FoundBehind(ds: seq<Verdict>, k: nat, o: Choice)
    requires 0 < k <= |ds| && forall i: nat :: 0 < i < |ds| ==>
        (LookedAt(ds, i) <==> i >= k && LookedAt(ds[k..], i - k))
    ensures (exists i: nat :: 0 < i < |ds| && LookedAt(ds, i) && ds[i] == Known(o))
            <==> exists i: nat :: i < |ds[k..]| && LookedAt(ds[k..], i) && ds[k..][i] == Known(o)
  {
    hide LookedAt;
    if i: nat :| 0 < i < |ds| && LookedAt(ds, i) && ds[i] == Known(o) {
      assert LookedAt(ds[k..], i - k) && ds[k..][i - k] == Known(o);
    }
    if i: nat :| i < |ds[k..]| && LookedAt(ds[k..], i) && ds[k..][i] == Known(o) {
      assert LookedAt(ds, i + k) <==> i + k >= k && LookedAt(ds[k..], i + k - k);
      assert ds[i + k] == Known(o);
    }
  }

  lemma {:induction false} OptionsFound(items: seq<string>)
    ensures Options(items) == Found(Judges(items))
    decreases |items|
  {
    if items != [] { NotBegun(Stripped(items[0])); }
    hide Judge, Stripped;
    if items != [] {
      OptionsFound(items[1..]);
      assert Judges(items)[1..] == Judges(items[1..]);
      if |items| > 1 {
        OptionsFound(items[2..]);
        assert Judges(items)[2..] == Judges(items[2..]);
      }
    }
  }

  lemma NotBegun(s: string)
    ensures !Judge(s).Begun?
  {
  }

  lemma ListFound(v: string)
    requires v != ""
    ensures ListOptions(v) == Found(Verdicts(v))
  {
    var items := Items(v);
    ItemsFirst(v);
    OptionsFound(items);
    OptionsFound(items[1..]);
    if |items| > 1 { OptionsFound(items[2..]); }
    var (ds, js) := (Verdicts(v), Judges(items));
    hide Judge, Stripped, Lower, Items, Judges;
    assert ds[1..] == js[1..] == Judges(items[1..]);
    if |items| > 1 { assert ds[2..] == js[2..] == Judges(items[2..]); }
    if v[0] != ',' && Starting(Lower(v[0])).Some? { assert ds == js; }
  }

  /** The first item starts with the first byte, or is empty before a comma. */
  lemma ItemsFirst(v: string)
    requires v != ""
    ensures v[0] == ',' ==> Items(v)[0] == "" && |Items(v)| >= 2
    ensures v[0] != ',' ==> Items(v)[0] != "" && Items(v)[0][0] == v[0]
  {
  }

  /** The options of a list: those of the items that are looked at, for every value. */
  lemma ListExact(v: string, o: Choice)
    requires v != ""
    ensures o in ListOptions(v) <==>
        exists i: nat :: i < |Items(v)| && LookedAt(Verdicts(v), i) && Verdicts(v)[i] == Known(o)
  {
    hide Verdicts, Items, ListOptions, Found, LookedAt;
    ListFound(v);
    FoundExact(Verdicts(v), o);
  }

  /** An item that names an option, wherever it stands. */
  predicate Names(item: string, o: Choice) { Judge(Stripped(item)) == Known(o) }

  /** An item that names an option is recognised: it is looked at, and if it is the first one, no byte
      stands before the option that is a blank elsewhere. */
  predicate Recognises(v: string, j: nat, o: Choice)
    requires v != ""
  {
    j < |Items(v)| && LookedAt(Verdicts(v), j) && Names(Items(v)[j], o) && (j > 0 || Starting(Lower(v[0])).Some?)
  }

  lemma VerdictNames(v: string, j: nat, o: Choice)
    requires v != "" && j < |Items(v)|
    ensures Verdicts(v)[j] == Known(o) <==> Names(Items(v)[j], o) && (j > 0 || Starting(Lower(v[0])).Some?)
  {
    ItemsFirst(v);
    hide Items, Judge, Stripped, Lower;
    if j == 0 && v[0] == ',' { EmptyNames(); }
  }

  lemma EmptyNames()
    ensures forall o :: !Names("", o)
    ensures Starting(Lower(',')).None?
  {
  }

  /** A list loses no option that it names if and only if each of them has an item that is recognised. */
  lemma NoneLost(v: string)
    requires v != ""
    ensures (forall i: nat, o :: i < |Items(v)| && Names(Items(v)[i], o) ==> o in ListOptions(v))
            <==> forall i: nat, o :: i < |Items(v)| && Names(Items(v)[i], o) ==> exists j: nat :: Recognises(v, j, o)
  {
    hide Verdicts, Items, ListOptions, LookedAt, Names, Recognises;
    if forall i: nat, o :: i < |Items(v)| && Names(Items(v)[i], o) ==> o in ListOptions(v) {
      forall i: nat, o | i < |Items(v)| && Names(Items(v)[i], o) ensures exists j: nat :: Recognises(v, j, o) {
        OneLost(v, o);
      }
    } else {
      var i: nat, o :| i < |Items(v)| && Names(Items(v)[i], o) && o !in ListOptions(v);
      OneLost(v, o);
    }
  }

  lemma OneLost(v: string, o: Choice)
    requires v != ""
    ensures o in ListOptions(v) <==> exists j: nat :: Recognises(v, j, o)
  {
    ListExact(v, o);
    forall j: nat | j < |Items(v)|
      ensures Verdicts(v)[j] == Known(o) <==> Names(Items(v)[j], o) && (j > 0 || Starting(Lower(v[0])).Some?)
    {
      VerdictNames(v, j, o);
    }
    hide Items, Names, Lower, LookedAt, ListOptions;
    if j: nat :| j < |Items(v)| && LookedAt(Verdicts(v), j) && Verdicts(v)[j] == Known(o) {
      assert Recognises(v, j, o);
    }
    if j: nat :| Recognises(v, j, o) { assert LookedAt(Verdicts(v), j) && Verdicts(v)[j] == Known(o); }
  }

  /** Of a list in which no item but the last ends the list or hides another, the options recognised are
      those that its items are. */
  lemma TidyExact(v: string, o: Choice)
    requires v != "" && forall i :: 0 <= i < |Items(v)| - 1 ==> !EndsList(Verdicts(v)[i]) && !HidesNext(Verdicts(v)[i])
    ensures o in ListOptions(v) <==> Known(o) in Verdicts(v)
  {
    hide Verdicts, Items, ListOptions;
    ListExact(v, o);
    forall i: nat | i < |Items(v)| ensures LookedAt(Verdicts(v), i) {}
  }

  // ----- where the parser stands -----

  /** Where an item starts. */
  function Place(v: string, i: nat): (p: nat)
    requires i < |Items(v)|
    ensures p <= |v| && (i > 0 ==> p > 0)
    decreases i
  {
    if i == 0 then 0 else
      assert |Items(v)| == 1 + |Later(v)| by { LaterIs(v); }
      Comma(v) + 1 + Place(v[Comma(v) + 1..], i - 1)
  }

  /** From the start of an item on, the matcher stands at the start of a later one if and only if that one is
      looked at. */
  lemma {:induction false} ListStands(f: Fields, v: string, i: nat)
    requires f.hstate.MatchingConnectionTokenStart? && f.index == 0 && i < |Items(v)|
    ensures ValueRun(f, v[..Place(v, i)]).hstate.MatchingConnectionTokenStart? <==> LookedAt(Judges(Items(v)), i)
    decreases |v|, 0
  {
    hide Judge, Stripped, Stands, LookedAt, ValueRun, ValueNext, Items, Judges, Place, Comma, Lower;
    if i == 0 {
      FirstStands(f, v);
    } else {
      CutPlace(f, v, i);
      var k := Comma(v);
      var (s, rest, g) := (Stripped(v[..k]), v[k + 1..], ValueRun(f, v[..k]));
      ItemRun(f, v[..k]);
      CommaNext(s, g);
      ListBehind(v, i);
      var h := ValueNext(g, ',');
      match Judge(s)
      case Known(o) => ListStands(h, rest, i - 1);
      case Unknown => ListStands(h, rest, i - 1);
      case Part(_) => SkipStands(h, rest, i - 1);
      case _ => PassRun(h, rest[..Place(rest, i - 1)]);
    }
  }

  lemma FirstStands(f: Fields, v: string)
    ensures ValueRun(f, v[..Place(v, 0)]) == f && LookedAt(Judges(Items(v)), 0)
  {
    assert v[..0] == "";
  }

  /** How the first item of a list decides about those behind it. */
  lemma ListBehind(v: string, i: nat)
    requires 0 < i < |Items(v)| && Comma(v) < |v| && i - 1 < |Items(v[Comma(v) + 1..])|
    ensures var rest := Items(v[Comma(v) + 1..]);
            LookedAt(Judges(Items(v)), i) <==>
              match Judge(Stripped(v[..Comma(v)]))
              case Known(_) => LookedAt(Judges(rest), i - 1)
              case Unknown => LookedAt(Judges(rest), i - 1)
              case Part(_) => i > 1 && LookedAt(Judges(rest[1..]), i - 2)
              case _ => false
  {
    ItemsMore(v);
    JudgesLater(v);
    NotBegun(Stripped(v[..Comma(v)]));
    LookedBehind(Judges(Items(v)), i);
    hide Judge, Stripped, LookedAt, Items, Comma;
  }

  /** The same behind an item that is passed over. */
  lemma {:induction false} SkipStands(f: Fields, v: string, i: nat)
    requires f.hstate.MatchingConnectionToken? && i < |Items(v)|
    ensures ValueRun(f, v[..Place(v, i)]).hstate.MatchingConnectionTokenStart?
            <==> i > 0 && LookedAt(Judges(Items(v)[1..]), i - 1)
    decreases |v|, 1
  {
    hide Judge, Stripped, Stands, LookedAt, ValueRun, ValueNext, Items, Judges, Place, Comma, Lower;
    if i == 0 {
      FirstStands(f, v);
    } else {
      LaterIs(v);
      CutPlace(f, v, i);
      PassRun(f, v[..Comma(v)]);
      SkipComma(f);
      ListStands(ValueNext(f, ','), v[Comma(v) + 1..], i - 1);
    }
  }

  lemma CutSlices(v: string, k: nat, p: nat)
    requires k < p <= |v|
    ensures v[..p][..k] == v[..k] && v[..p][k + 1..] == v[k + 1..][..p - k - 1]
  {
  }

  lemma CutPlace(f: Fields, v: string, i: nat)
    requires 0 < i < |Items(v)|
    ensures var (k, rest) := (Comma(v), v[Comma(v) + 1..]);
            && k < |v| && Later(v) == Items(rest) && i - 1 < |Items(rest)|
            && ValueRun(f, v[..Place(v, i)])
              == ValueRun(ValueNext(ValueRun(f, v[..k]), ','), rest[..Place(rest, i - 1)])
  {
    hide ValueRun, ValueNext, Comma, Items;
    LaterIs(v);
    var (k, p) := (Comma(v), Place(v, i));
    var rest := v[k + 1..];
    assert p == k + 1 + Place(rest, i - 1);
    hide Place;
    CutSlices(v, k, p);
    CutAt(f, v[..p], k);
  }

  lemma JudgesLater(v: string)
    requires Comma(v) < |v|
    ensures var (ds, rest) := (Judges(Items(v)), Items(v[Comma(v) + 1..]));
            ds[1..] == Judges(rest) && |rest| >= 1 && ds[2..] == Judges(rest[1..])
  {
    ItemsMore(v);
    hide Comma, Items, Judge, Stripped;
    assert Judges(Items(v))[2..] == Judges(Items(v))[1..][1..];
  }

  /** Looked at by the parser: for every value and every item behind the first, the matcher stands where an
      option may start if and only if nothing looked at before ends the list or hides the item. */
  lemma ItemLookedAt(f: Fields, v: string, i: nat)
    requires f.hstate.Connection? && v != "" && 0 < i < |Items(v)|
    ensures ValueRun(ValueFirst(f, v[0]), v[1..Place(v, i)]).hstate.MatchingConnectionTokenStart? <==>
        LookedAt(Verdicts(v), i)
  {
    hide Judge, Stripped, LookedAt, ValueRun, ValueNext, Items, Judges, Place, Comma, Lower, Verdicts;
    if Starting(Lower(v[0])).Some? { LetterFirst(f, v, i); }
    else if v[0] == ',' { CommaFirst(f, v, i); }
    else { OtherFirst(f, v, i); }
  }

  lemma LetterFirst(f: Fields, v: string, i: nat)
    requires f.hstate.Connection? && v != "" && 0 < i < |Items(v)| && Starting(Lower(v[0])).Some?
    ensures ValueRun(ValueFirst(f, v[0]), v[1..Place(v, i)]).hstate.MatchingConnectionTokenStart? <==>
        LookedAt(Verdicts(v), i)
  {
    hide Judge, Stripped, LookedAt, ValueRun, ValueNext, Items, Judges, Place, Comma, Lower, Verdicts;
    NotComma(v[0]);
    SameVerdicts(v);
    var (start, p) := (ValueAt(f, MatchingConnectionTokenStart), Place(v, i));
    FirstNext(start, v[0]);
    assert ValueFirst(f, v[0]) == ValueNext(start, v[0]);
    assert v[..p] == [v[0]] + v[1..p];
    ValueRunConcat(start, [v[0]], v[1..p]);
    OneRun(start, v[0]);
    ListStands(start, v, i);
  }

  lemma SameVerdicts(v: string)
    requires v != "" && v[0] != ',' && Starting(Lower(v[0])).Some?
    ensures Verdicts(v) == Judges(Items(v))
  {
    ItemsFirst(v);
    hide Judge, Stripped, Items, Lower;
  }

  lemma CommaFirst(f: Fields, v: string, i: nat)
    requires f.hstate.Connection? && v != "" && 0 < i < |Items(v)| && Starting(Lower(v[0])).None? && v[0] == ','
    ensures ValueRun(ValueFirst(f, v[0]), v[1..Place(v, i)]).hstate.MatchingConnectionTokenStart? <==>
        LookedAt(Verdicts(v), i)
  {
    hide Judge, Stripped, LookedAt, ValueRun, ValueNext, Items, Judges, Place, Comma, Lower, Verdicts;
    CommaBehind(v, i);
    CommaPlace(v, i);
    assert v[1..Place(v, i)] == v[1..][..Place(v[1..], i - 1)];
    SkipStands(ValueFirst(f, v[0]), v[1..], i - 1);
  }

  lemma CommaPlace(v: string, i: nat)
    requires v != "" && v[0] == ',' && 0 < i < |Items(v)|
    ensures i - 1 < |Items(v[1..])| && Place(v, i) == 1 + Place(v[1..], i - 1)
  {
    assert Comma(v) == 0 && v[0 + 1..] == v[1..];
    LaterIs(v);
  }

  lemma OtherFirst(f: Fields, v: string, i: nat)
    requires f.hstate.Connection? && v != "" && 0 < i < |Items(v)| && Starting(Lower(v[0])).None? && v[0] != ','
    ensures ValueRun(ValueFirst(f, v[0]), v[1..Place(v, i)]).hstate.MatchingConnectionTokenStart? <==>
        LookedAt(Verdicts(v), i)
  {
    hide Judge, Stripped, LookedAt, ValueRun, ValueNext, Items, Judges, Place, Comma, Lower, Verdicts;
    LongPlace(v, i);
    OtherBehind(v, i);
    assert v[1..Place(v, i)] == v[1..][..Place(v[1..], i)];
    SkipStands(ValueFirst(f, v[0]), v[1..], i);
  }

  lemma OtherBehind(v: string, i: nat)
    requires v != "" && 0 < i < |Items(v)| && Starting(Lower(v[0])).None? && v[0] != ','
    ensures |Items(v[1..])| == |Items(v)| && (LookedAt(Verdicts(v), i) <==> LookedAt(Judges(Items(v[1..])[1..]), i - 1))
  {
    ItemsFirst(v);
    LongPlace(v, i);
    LongFirst(v);
    LookedBehind(Verdicts(v), i);
    hide LookedAt, Items, Judge, Stripped, Lower;
    assert Verdicts(v)[1..] == Judges(Items(v)[1..]);
  }

  lemma CommaBehind(v: string, i: nat)
    requires v != "" && v[0] == ',' && 0 < i < |Items(v)|
    ensures LookedAt(Verdicts(v), i) <==> i > 1 && LookedAt(Judges(Items(v[1..])[1..]), i - 2)
    ensures |Items(v[1..])| == |Items(v)| - 1
  {
    ItemsFirst(v);
    EmptyFirst(v);
    LaterIs(v);
    assert Comma(v) == 0;
    LookedBehind(Verdicts(v), i);
    hide LookedAt, Items, Judge, Stripped;
    assert Verdicts(v)[2..] == Judges(Items(v)[1..])[1..];
    if |Items(v)| > 1 { assert Judges(Items(v)[1..])[1..] == Judges(Items(v)[1..][1..]); }
    assert Items(v)[1..][1..] == Items(v)[2..];
  }

  lemma LongPlace(v: string, i: nat)
    requires v != "" && v[0] != ',' && i < |Items(v)| && i > 0
    ensures |Items(v[1..])| == |Items(v)| && Place(v, i) == 1 + Place(v[1..], i)
  {
    var k := Comma(v[1..]);
    assert Comma(v) == 1 + k;
    LaterIs(v);
    LaterIs(v[1..]);
    if k < |v[1..]| { assert v[1 + k + 1..] == v[1..][k + 1..]; }
  }

  /** One that is not: the option after a cut-short one is lost. */
  lemma CutShortLoses()
    ensures ListOptions("c,close") == {} && ListOptions("close") == {Close}
  {
    var (a, b) := ("c,close", "close");
    assert a[1..] == ",close" && Comma(",close") == 0 && Comma(a) == 1 && a[..1] == "c" && a[2..] == b;
    NoComma(b);
    assert b[..|b|] == b && Items(b) == [b];
    assert Items(a) == ["c", b];
    assert Judge(Stripped("c")) == Part(Close) by { JudgeFirst('c'); }
    assert Judge(Stripped(b)) == Known(Close) by { CloseKnown(); }
    assert [b][1..] == [] && Options([]) == {};
    hide Judge, Stripped, Comma, Items;
  }

  /** The first place is different: an item that would end the list elsewhere does not end it there, and a
      byte that is a blank elsewhere loses its option. */
  lemma FirstPlace()
    ensures Judge(Stripped("(")) == Strange && ListOptions("(,close") == {Close}
    ensures Judge(Stripped("\0close")) == Known(Close) && ListOptions("\0close") == {}
  {
    ParenFirst();
    NulFirst();
    hide Judge, Stripped, ListOptions;
  }

  lemma ParenFirst()
    ensures Judge(Stripped("(")) == Strange && ListOptions("(,close") == {Close}
  {
    hide Items, Options, Judge, Stripped;
    ParenItems();
    ParenStrange();
    CloseKnown();
    assert ["(", "close"][1..] == ["close"];
    OptionsOne("close");
  }

  lemma ParenStrange()
    ensures Judge(Stripped("(")) == Strange
  {
    assert "("[1..] == "";
  }

  lemma ParenItems()
    ensures Items("(,close") == ["(", "close"]
  {
    hide Comma;
    var (a, b) := ("(,close", "close");
    assert a[1..] == ",close" && a[..1] == "(" && a[2..] == b && b[..|b|] == b;
    CommaSoon(a);
    NoComma(b);
  }

  lemma CommaHere(v: string)
    requires v != "" && v[0] == ','
    ensures Comma(v) == 0
  {
  }

  lemma CommaSoon(v: string)
    requires |v| >= 2 && v[0] != ',' && v[1] == ','
    ensures Comma(v) == 1
  {
    CommaHere(v[1..]);
  }

  lemma OptionsOne(item: string)
    requires Judge(Stripped(item)).Known?
    ensures Options([item]) == {Judge(Stripped(item)).o}
  {
    assert [item][1..] == [] && Options([]) == {};
    hide Judge, Stripped;
  }

  lemma NulFirst()
    ensures Judge(Stripped("\0close")) == Known(Close) && ListOptions("\0close") == {}
  {
    var (b, c) := ("close", "\0close");
    NoComma(c);
    assert c[..|c|] == c && Items(c) == [c];
    assert c[1..] == b;
    CloseKnown();
    assert Stripped(c) == Stripped(b);
    assert [c][1..] == [] && Options([]) == {};
    hide Judge, Stripped, Comma, Items;
  }

  lemma {:induction false} NoComma(v: string)
    requires ',' !in v
    ensures Comma(v) == |v|
  {
  }

  lemma CloseKnown()
    ensures Judge("close") == Known(Close) && Stripped("close") == "close"
  {
    assert "close"[..5] == "close" && "close"[5..] == "";
    assert LowerText("close") == "close";
  }
}
