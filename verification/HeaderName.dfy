/** The matcher of header names recognises exactly the names that frame a message. */
module HeaderName {
  import opened Chars
  import opened Numbers
  import opened ParserState
  import opened ByteTransition
  import opened StepMachine
  import opened LogInvariant
  import opened Calls
  import opened Runs
  import opened Stepping
  import opened Reading

  const CONNECTION := "connection"
  const PROXY_CONNECTION := "proxy-connection"
  const CONTENT_LENGTH := "content-length"
  const TRANSFER_ENCODING := "transfer-encoding"
  const UPGRADE := "upgrade"

  function LowerName(name: string): (r: string)
    ensures |r| == |name|
  {
    if name == "" then "" else LowerName(name[..|name| - 1]) + [Token(name[|name| - 1])]
  }

  predicate IsName(name: string) { name != "" && forall c :: c in name ==> IsToken(c) }

  lemma NameNonempty(name: string)
    requires IsName(name)
    ensures name != ""
  {
  }

  /** The state in which a whole name leaves the matcher. */
  function NameState(t: string): HeaderState {
    if t == CONNECTION || t == PROXY_CONNECTION then Connection
    else if t == CONTENT_LENGTH then ContentLength
    else if t == TRANSFER_ENCODING then TransferEncoding
    else if t == UPGRADE then Upgrade
    else General
  }

  predicate IsWord(w: string) {
    w == CONNECTION || w == PROXY_CONNECTION || w == CONTENT_LENGTH || w == TRANSFER_ENCODING || w == UPGRADE
  }

  /** `t` starts none of the words. */
  predicate Alien(t: string) {
    !(t <= CONNECTION) && !(t <= PROXY_CONNECTION) && !(t <= CONTENT_LENGTH) && !(t <= TRANSFER_ENCODING)
      && !(t <= UPGRADE)
  }

  /** The matcher stands inside the word `w`, at byte `i`. */
  predicate Inside(t: string, w: string, i: nat) { t <= w && |t| == i + 1 && |t| < |w| }

  /** The matcher after reading the lower-cased bytes `t`. */
  predicate Matched(t: string, h: HeaderState, i: nat) {
    match h
    case C => t == "c" && i == 0
    case CO => t == "co" && i == 1
    case CON => t == "con" && i == 2
    case MatchingConnection => Inside(t, CONNECTION, i) && |t| > 3
    case MatchingContentLength => Inside(t, CONTENT_LENGTH, i) && |t| > 3
    case MatchingProxyConnection => Inside(t, PROXY_CONNECTION, i)
    case MatchingTransferEncoding => Inside(t, TRANSFER_ENCODING, i)
    case MatchingUpgrade => Inside(t, UPGRADE, i)
    case Connection => t == CONNECTION || t == PROXY_CONNECTION
    case ContentLength => t == CONTENT_LENGTH
    case TransferEncoding => t == TRANSFER_ENCODING
    case Upgrade => t == UPGRADE
    case General => Alien(t)
    case _ => false
  }

  /** One byte more, against one word. */
  lemma PrefixStep(t: string, c: char, w: string)
    ensures t + [c] <= w <==> t <= w && |t| < |w| && w[|t|] == c
  {
    var s := t + [c];
    if s <= w {
      assert w[..|t|] == s[..|t|] == t;
      assert w[|t|] == s[|t|];
    }
    if t <= w && |t| < |w| && w[|t|] == c {
      assert w[..|t| + 1] == w[..|t|] + [c];
    }
  }

  /** A word that disagrees at byte `k` is not started. */
  lemma Apart(t: string, w: string, v: string, k: nat)
    requires t <= w && k < |t| && k < |v| && w[k] != v[k]
    ensures !(t <= v)
  {
    assert t[k] == w[k];
  }

  lemma AlienStep(t: string, c: char)
    requires Alien(t)
    ensures Alien(t + [c])
  {
    PrefixStep(t, c, CONNECTION);
    PrefixStep(t, c, CONTENT_LENGTH);
    PrefixStep(t, c, PROXY_CONNECTION);
    PrefixStep(t, c, TRANSFER_ENCODING);
    PrefixStep(t, c, UPGRADE);
  }

  lemma OtherWord(t: string, c: char, w: string, v: string)
    requires IsWord(w) && IsWord(v) && t != "" && t <= w && !(t + [c] <= w) && (w[0] == 'c' ==> |t| > 3)
    ensures !(t + [c] <= v)
  {
    PrefixStep(t, c, v);
    if v != w { Apart(t, w, v, if w[0] == 'c' && v[0] == 'c' then 3 else 0); }
  }

  /** A byte that leaves the word the matcher stands in leaves every word. */
  lemma Leaves(t: string, c: char, w: string)
    requires IsWord(w) && t != "" && t <= w && !(t + [c] <= w) && (w[0] == 'c' ==> |t| > 3)
    ensures Alien(t + [c])
  {
    OtherWord(t, c, w, CONNECTION);
    OtherWord(t, c, w, CONTENT_LENGTH);
    OtherWord(t, c, w, PROXY_CONNECTION);
    OtherWord(t, c, w, TRANSFER_ENCODING);
    OtherWord(t, c, w, UPGRADE);
  }

  lemma MatchedFirst(c: char)
    ensures Matched([c], FieldStartState(c), 0)
  {
    var t: string := [c];
    assert t[0] == c;
    if c == 'p' { assert t == PROXY_CONNECTION[..1]; }
    else if c == 't' { assert t == TRANSFER_ENCODING[..1]; }
    else if c == 'u' { assert t == UPGRADE[..1]; }
  }

  /** The matcher inside a word, on one more byte. */
  lemma InsideStep(t: string, w: string, i: nat, c: char)
    requires IsWord(w)
    requires Inside(t, w, i) && (w[0] == 'c' ==> |t| > 3)
    ensures match MatchAt(w, i + 1, c)
            case Partial => Inside(t + [c], w, i + 1)
            case Complete => t + [c] == w
            case Mismatch => Alien(t + [c])
  {
    PrefixStep(t, c, w);
    if !(t + [c] <= w) { Leaves(t, c, w); }
    hide Alien;
  }

  /** The common start of two words. */
  lemma ConStep(t: string, c: char)
    requires t == "c" || t == "co" || t == "con"
    ensures t == "c" ==> if c == 'o' then t + [c] == "co" else Alien(t + [c])
    ensures t == "co" ==> if c == 'n' then t + [c] == "con" else Alien(t + [c])
    ensures t == "con" ==> if c == 'n' then Inside(t + [c], CONNECTION, 3)
                           else if c == 't' then Inside(t + [c], CONTENT_LENGTH, 3) else Alien(t + [c])
  {
    PrefixStep(t, c, CONNECTION);
    PrefixStep(t, c, CONTENT_LENGTH);
    PrefixStep(t, c, PROXY_CONNECTION);
    PrefixStep(t, c, TRANSFER_ENCODING);
    PrefixStep(t, c, UPGRADE);
    assert CONNECTION[..3] == "con" == CONTENT_LENGTH[..3];
    assert t == "con"[..|t|];
    assert (t + [c])[0] == 'c';
  }

  /** Nothing follows a whole word. */
  lemma WholeStep(w: string, c: char)
    requires IsWord(w)
    ensures Alien(w + [c])
  {
    PrefixStep(w, c, w);
    Leaves(w, c, w);
    hide Alien;
  }

  lemma TokenNotSpace(ch: char)
    requires IsToken(ch)
    ensures ch != ' '
  {
  }

  lemma MatchedStep(t: string, h: HeaderState, i: nat, ch: char)
    requires Matched(t, h, i) && IsToken(ch)
    ensures var (i', h') := FieldChar(h, i, ch); Matched(t + [Token(ch)], h', i')
  {
    assert IsWord(CONNECTION) && IsWord(CONTENT_LENGTH) && IsWord(PROXY_CONNECTION) && IsWord(TRANSFER_ENCODING)
      && IsWord(UPGRADE);
    hide Token, Alien, MatchAt, IsWord;
    var c := Token(ch);
    TokenNotSpace(ch);
    match h {
      case C => ConStep(t, c);
      case CO => ConStep(t, c);
      case CON => ConStep(t, c);
      case MatchingConnection => InsideStep(t, CONNECTION, i, c);
      case MatchingContentLength => InsideStep(t, CONTENT_LENGTH, i, c);
      case MatchingProxyConnection => InsideStep(t, PROXY_CONNECTION, i, c);
      case MatchingTransferEncoding => InsideStep(t, TRANSFER_ENCODING, i, c);
      case MatchingUpgrade => InsideStep(t, UPGRADE, i, c);
      case General => AlienStep(t, c);
      case _ => WholeStep(t, c);
    }
  }

  // ----- over a whole name -----

  /** The fields after a non-empty name. */
  function AfterName(f: Fields, name: string): Fields
    requires name != ""
  {
    var c, init := name[|name| - 1], name[..|name| - 1];
    if init == "" then f.(state := HeaderField, index := 0, hstate := FieldStartState(Token(c)))
    else NameAfter(AfterName(f, init), c)
  }

  lemma {:induction false} NameMatched(f: Fields, name: string)
    requires IsName(name)
    ensures var g := AfterName(f, name);
            Matched(LowerName(name), g.hstate, g.index)
              && g == f.(state := HeaderField, index := g.index, hstate := g.hstate)
  {
    hide FieldChar, FieldStartState, Token, Matched;
    var c, init := name[|name| - 1], name[..|name| - 1];
    assert name == init + [c];
    if init == "" {
      assert LowerName(init) == "";
      assert LowerName(name) == [Token(c)];
      MatchedFirst(Token(c));
    } else {
      NameMatched(f, init);
      var g := AfterName(f, init);
      MatchedStep(LowerName(init), g.hstate, g.index, c);
    }
  }

  /** The header state at the colon frames the message if and only if the name does. */
  lemma Recognised(t: string, h: HeaderState, i: nat)
    requires Matched(t, h, i)
    ensures (h.Connection? <==> t == CONNECTION || t == PROXY_CONNECTION)
    ensures (h.ContentLength? <==> t == CONTENT_LENGTH)
    ensures (h.TransferEncoding? <==> t == TRANSFER_ENCODING)
    ensures (h.Upgrade? <==> t == UPGRADE)
  {
    assert CONNECTION[0] == 'c' == CONTENT_LENGTH[0] && PROXY_CONNECTION[0] == 'p' && TRANSFER_ENCODING[0] == 't'
      && UPGRADE[0] == 'u';
    assert CONNECTION[3] == 'n' && CONTENT_LENGTH[3] == 't';
    if t != "" && |t| > 3 { assert t[0] == t[0] && t[3] == t[3]; }
  }

  /** The machine after a name. */
  function NameRead(m: Machine, name: string): Machine
    requires name != ""
  {
    Machine(AfterName(m.f, name), m.nread + |name|, Emit(m.log, Data(Field, name)))
  }

  lemma TokenTransition(cfg: Config, f: Fields, ch: char)
    requires IsToken(ch)
    ensures f.state.HeaderFieldStart? ==>
              Transition(cfg, f, ch)
                == Do(f.(state := HeaderField, index := 0, hstate := FieldStartState(Token(ch))), [Mark(Field)])
    ensures f.state.HeaderField? && IsNameState(f.hstate) ==> Transition(cfg, f, ch) == Do(NameAfter(f, ch), [])
  {
    hide FieldStartState, FieldChar;
  }

  lemma NameParts(f: Fields, init: string, c: char)
    ensures IsName(init + [c]) ==> IsToken(c) && (init != "" ==> IsName(init))
    ensures AfterName(f, init + [c]) == if init == "" then
              f.(state := HeaderField, index := 0, hstate := FieldStartState(Token(c)))
            else NameAfter(AfterName(f, init), c)
  {
    hide IsToken, FieldStartState, Token, NameAfter;
    var name := init + [c];
    assert name[..|init|] == init && name[|init|] == c && c in name;
  }

  lemma ReadNameByte(cfg: Config, m: Machine, init: string, c: char)
    requires m.f.state.HeaderFieldStart? && IsName(init + [c])
        && (init != "" ==> Reads(cfg, m, init, NameRead(m, init)))
    ensures Reads(cfg, m, init + [c], NameRead(m, init + [c]))
  {
    hide Token, IsToken, Emit, Fold, Step, FieldStartState, Matched, Transition, AfterName, Reads, NameAfter, IsName;
    NameParts(m.f, init, c);
    TokenTransition(cfg, m.f, c);
    if init == "" {
      assert init + [c] == [c];
      Sets(cfg, m, c, AfterName(m.f, [c]), Field);
      ReadByte(cfg, m, c, NameRead(m, [c]));
    } else {
      NameMatched(m.f, init);
      var n := NameRead(m, init);
      MatchedIsName(LowerName(init), n.f.hstate, n.f.index);
      TokenTransition(cfg, n.f, c);
      Quiet(cfg, n, c, AfterName(m.f, init + [c]));
      Grow(m.log, Field, init, c);
      ReadBytes(cfg, m, init, n, c, NameRead(m, init + [c]));
    }
  }

  lemma {:induction false} ReadName(cfg: Config, m: Machine, name: string)
    requires m.f.state.HeaderFieldStart? && IsName(name)
    ensures Reads(cfg, m, name, NameRead(m, name))
  {
    hide Reads, NameRead, IsName;
    NameNonempty(name);
    var c, init := name[|name| - 1], name[..|name| - 1];
    assert name == init + [c];
    NameParts(m.f, init, c);
    if init != "" { ReadName(cfg, m, init); }
    ReadNameByte(cfg, m, init, c);
  }

  lemma MatchedIsName(t: string, h: HeaderState, i: nat)
    requires Matched(t, h, i)
    ensures IsNameState(h)
  {
  }

  /** Every name is read up to its colon, and there the matcher stands in the state of a framing
      header if and only if the lower-cased name is that header's. */
  lemma ReadNameColon(cfg: Config, m: Machine, name: string)
    requires m.f.state.HeaderFieldStart? && IsName(name)
    ensures var n := NameRead(m, name);
            && Reads(cfg, m, name + ":", n.(nread := n.nread + 1, f := n.f.(state := HeaderValueDiscardWs)))
            && n.f == m.f.(state := HeaderField, hstate := n.f.hstate, index := n.f.index)
            && (n.f.hstate.Connection? <==> LowerName(name) == CONNECTION || LowerName(name) == PROXY_CONNECTION)
            && (n.f.hstate.ContentLength? <==> LowerName(name) == CONTENT_LENGTH)
            && (n.f.hstate.TransferEncoding? <==> LowerName(name) == TRANSFER_ENCODING)
            && (n.f.hstate.Upgrade? <==> LowerName(name) == UPGRADE)
            && IsNameState(n.f.hstate)
  {
    hide Matched, Fold, Step, FieldChar, AfterName;
    ReadName(cfg, m, name);
    NameMatched(m.f, name);
    var n := NameRead(m, name);
    var (t, h, i) := (LowerName(name), n.f.hstate, n.f.index);
    Recognised(t, h, i);
    MatchedIsName(t, h, i);
    Flushes(cfg, n, ':', n.f.(state := HeaderValueDiscardWs), Field);
    ReadBytes(cfg, m, name, n, ':', n.(nread := n.nread + 1, f := n.f.(state := HeaderValueDiscardWs)));
  }
}
