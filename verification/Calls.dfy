/** What one call of `http_parser_execute` does, and what any sequence of calls does. */
module Calls {
  import opened Chars
  import opened Numbers
  import opened ParserState
  import opened ByteTransition
  import opened StepMachine
  import opened ParserInvariant
  import opened LogInvariant
  import opened Refinement
  import opened Runs

  /** The parser between two calls: the machine it stands for, its own counter, its error. */
  datatype Parser = Parser(m: Machine, nread: nat, errno: Errno)

  ghost predicate ParserInv(a: Parser) {
    a.errno.Ok? ==> MachineInv(a.m) && a.m.nread <= a.nread <= HTTP_MAX_HEADER_SIZE && a.nread <= 2 * a.m.nread
  }

  /** By how much `nread` exceeds the exact count. */
  function Slack(a: Parser): int { a.nread - a.m.nread }

  /** The exact count that is never too much while `nread` exceeds it by at most `slack`, or by itself. */
  function Limit(slack: int): int {
    if slack <= HTTP_MAX_HEADER_SIZE / 2 then HTTP_MAX_HEADER_SIZE - slack else HTTP_MAX_HEADER_SIZE / 2
  }

  /** What the slack leaves room for in a call, which may add one. */
  function Room(a: Parser): int { Limit(Slack(a) + 1) }

  /** The slack that a call may leave: it starts afresh where the count does. */
  function SlackAfter(cfg: Config, m: Machine, data: string, slack: int): int {
    (if CallZeroes(cfg, m, data, 0) then 0 else slack) + 1
  }

  /** A call that agrees with the one-byte machine. */
  predicate Agrees(r: Result, b: Parser, used: nat, exited: bool) {
    used == r.used &&
    match r.end
    case Ran => b.errno.Ok? && !exited && b.m == r.m
    case Exited => b.errno.Ok? && exited && b.m == r.m
    case Failed(e) => b.errno == e && !e.Ok? && !exited
  }

  /** A call with a non-empty buffer on a parser without error: what it does, whatever is in the buffer. */
  ghost predicate Called(cfg: Config, a: Parser, data: string, b: Parser, used: nat, exited: bool) {
    && ParserInv(b)
    && (b.errno.Ok? ==> Slack(b) <= SlackAfter(cfg, a.m, data, Slack(a)))
    && b.errno != AssertFailure && b.errno != InvalidInternalState
    && if b.errno.HeaderOverflow? then !CallFits(cfg, a.m, data, 0, Room(a))
       else Agrees(CallFold(cfg, a.m, data, 0), b, used, exited)
  }

  /** A call with an empty buffer, which announces the end of the input (lines 652-671). */
  predicate CalledAtEof(a: Parser, b: Parser, used: nat) {
    if a.m.f.state.BodyIdentityEof? then
      used == 0 && b == a.(m := a.m.(log := a.m.log + [Note(MessageComplete(ShouldKeepAlive(a.m.f)))]))
    else if a.m.f.state.Dead? then used == 0 && b == a
    else used == 1 && b == a.(errno := InvalidEofState)
  }

  /** A call whose buffer is clean does what the machine does. */
  lemma CalledClean(cfg: Config, a: Parser, data: string, b: Parser, used: nat, exited: bool)
    requires a.errno.Ok? && ParserInv(a) && Called(cfg, a, data, b, used, exited) && Clean(cfg, a.m, data, 0)
    ensures if b.errno.HeaderOverflow? then !Fits(cfg, a.m, data, 0, Room(a))
            else Agrees(Fold(cfg, a.m, data, 0), b, used, exited)
  {
    CallIsFold(cfg, a.m, data, 0, Room(a));
    hide Fold, CallFold, Clean, Fits, CallFits, MachineInv;
  }

  // ----- sequences of calls -----

  function Flat(pieces: seq<string>): string {
    if pieces == [] then "" else pieces[0] + Flat(pieces[1..])
  }

  /** The caller feeds non-empty pieces one after the other, and stops when a call reports an
      error or an upgrade. */
  ghost predicate Fed(cfg: Config, a: Parser, pieces: seq<string>, b: Parser, exited: bool)
    decreases |pieces|, 1
  {
    if pieces == [] then b == a && !exited
    else pieces[0] != "" && exists mid, used, ex :: FedFirst(cfg, a, pieces, b, exited, mid, used, ex)
  }

  ghost predicate FedFirst(cfg: Config, a: Parser, pieces: seq<string>, b: Parser, exited: bool,
                           mid: Parser, used: nat, ex: bool)
    requires pieces != []
    decreases |pieces|, 0
  {
    && Called(cfg, a, pieces[0], mid, used, ex)
    && if ex || !mid.errno.Ok? then b == mid && exited == ex else Fed(cfg, mid, pieces[1..], b, exited)
  }

  lemma {:induction false} FoldPrefix(cfg: Config, m: Machine, x: string, y: string, p: nat)
    requires p <= |x|
    ensures var r := Fold(cfg, m, x, p);
            Fold(cfg, m, x + y, p) == if r.end.Ran? then Fold(cfg, r.m, x + y, |x|) else r
    decreases |x| - p
  {
    hide Step;
    if p < |x| {
      assert (x + y)[p] == x[p];
      match Step(cfg, m, x[p])
      case Went(n, false) => FoldPrefix(cfg, n, x, y, p + 1);
      case _ =>
    }
  }

  lemma {:induction false} FoldShift(cfg: Config, m: Machine, x: string, y: string, p: nat)
    requires p <= |y|
    ensures var r := Fold(cfg, m, y, p);
            Fold(cfg, m, x + y, |x| + p) == r.(used := |x| + r.used)
    decreases |y| - p
  {
    hide Step;
    if p < |y| {
      assert (x + y)[|x| + p] == y[p];
      match Step(cfg, m, y[p])
      case Went(n, false) => FoldShift(cfg, n, x, y, p + 1);
      case _ =>
    }
  }

  /** A run over two buffers one after the other. */
  lemma FoldConcat(cfg: Config, m: Machine, x: string, y: string)
    ensures var r := Fold(cfg, m, x, 0);
            Fold(cfg, m, x + y, 0) ==
              if !r.end.Ran? then r else var q := Fold(cfg, r.m, y, 0); q.(used := |x| + q.used)
  {
    FoldPrefix(cfg, m, x, y, 0);
    var r := Fold(cfg, m, x, 0);
    if r.end.Ran? { FoldShift(cfg, r.m, x, y, 0); }
    hide Fold;
  }

  // ----- calls one after the other -----

  lemma {:induction false} LineEndIs(data: string, p: nat, q: nat)
    requires p <= q <= |data| && NoLineEnd(data, p, q) && (q < |data| ==> data[q] == '\r' || data[q] == '\n')
    ensures LineEnd(data, p) == q
    decreases q - p
  {
    if p < q { LineEndIs(data, p + 1, q); }
  }

  /** A line end that a call sees in its buffer is the one it sees in a longer buffer. */
  lemma JumpInside(m: Machine, x: string, y: string, p: nat)
    requires p <= |x| && LineEnd(x, p) < |x|
    ensures LineEnd(x + y, p) == LineEnd(x, p) && Skipped(m, x + y, p, LineEnd(x, p)) == Skipped(m, x, p, LineEnd(x, p))
  {
    var q := LineEnd(x, p);
    LineEndIs(x + y, p, q);
    assert (x + y)[p..q] == x[p..q];
    hide Emit, LineEnd;
  }

  /** A jump cut in two goes to the same place. */
  lemma JumpAcross(m: Machine, x: string, y: string, p: nat)
    requires p <= |x| && LineEnd(x, p) == |x| && LastIs(m.log, Value)
    ensures var (n, q) := (Skipped(m, x, p, |x|), LineEnd(x + y, |x|));
            && LineEnd(x + y, p) == q && Skipped(n, x + y, |x|, q) == Skipped(m, x + y, p, q)
            && (q == |x| ==> Skipped(m, x + y, p, q) == n)
  {
    var q := LineEnd(x + y, |x|);
    LineEndIs(x + y, p, q);
    assert x[p..|x|] == (x + y)[p..|x|] && (x + y)[p..|x|] + (x + y)[|x|..q] == (x + y)[p..q];
    EmitEmit(m.log, Value, (x + y)[p..|x|], (x + y)[|x|..q]);
    hide Emit, LineEnd;
  }

  /** The same, unless the second starts in a header value and is stopped by a byte of it. */
  predicate SameOrRefused(w: Result, m: Machine, q: Result) {
    w == q || (m.f.state.HeaderValue? && q.end == Failed(InvalidHeaderToken))
  }

  /** What a call does on two buffers at once, against two calls: the second call may look at a byte of
      a header value that the one call jumps over. */
  lemma {:induction false} CallPrefix(cfg: Config, m: Machine, x: string, y: string, p: nat)
    requires p <= |x| && MachineInv(m)
    ensures var (r, w) := (CallFold(cfg, m, x, p), CallFold(cfg, m, x + y, p));
            if r.end.Ran? then SameOrRefused(w, r.m, CallFold(cfg, r.m, x + y, |x|)) else w == r
    decreases |x| - p
  {
    hide Step, MachineInv, IsHeaderChar, Skipped, LineEnd;
    if p < |x| {
      assert (x + y)[p] == x[p];
      if Jumps(cfg, m.f, x[p]) {
        var q := LineEnd(x, p);
        SkippedInv(m, x, p, q);
        if q < |x| {
          JumpInside(m, x, y, p);
          CallPrefix(cfg, Skipped(m, x, p, q), x, y, q);
        } else {
          JumpAcross(m, x, y, p);
          CutJump(cfg, Skipped(m, x, p, q), x, y);
        }
      } else {
        StepKept(cfg, m, x[p]);
        match Step(cfg, m, x[p])
        case Went(n, false) => CallPrefix(cfg, n, x, y, p + 1);
        case _ =>
      }
    }
  }

  /** A call that starts in a header value jumps on, unless its first byte may not stand there. */
  lemma CutJump(cfg: Config, n: Machine, x: string, y: string)
    requires n.f.state.HeaderValue? && n.f.hstate.General?
    ensures var (q, t) := (CallFold(cfg, n, x + y, |x|), LineEnd(x + y, |x|));
            || (t == |x| && LineEnd(x + y, |x|) == |x|) || q.end == Failed(InvalidHeaderToken)
            || q == CallFold(cfg, Skipped(n, x + y, |x|, t), x + y, t)
  {
    hide Step, Skipped, IsHeaderChar;
    if |x| < |x + y| {
      var c := (x + y)[|x|];
      if c != '\r' && c != '\n' && !Jumps(cfg, n.f, c) { UncleanStuck(cfg, n, c); }
    }
  }

  lemma {:induction false} LineEndShift(x: string, y: string, p: nat)
    requires p <= |y|
    ensures LineEnd(x + y, |x| + p) == |x| + LineEnd(y, p)
    decreases |y| - p
  {
    if p < |y| {
      assert (x + y)[|x| + p] == y[p];
      if y[p] != '\r' && y[p] != '\n' { LineEndShift(x, y, p + 1); }
    }
  }

  lemma {:induction false} CallShift(cfg: Config, m: Machine, x: string, y: string, p: nat)
    requires p <= |y|
    ensures var r := CallFold(cfg, m, y, p);
            CallFold(cfg, m, x + y, |x| + p) == r.(used := |x| + r.used)
    decreases |y| - p
  {
    hide Step, Skipped, LineEnd, Jumps;
    if p < |y| {
      assert (x + y)[|x| + p] == y[p];
      if Jumps(cfg, m.f, y[p]) {
        var q := LineEnd(y, p);
        LineEndShift(x, y, p);
        assert (x + y)[|x| + p..|x| + q] == y[p..q];
        SkippedSlice(m, x + y, |x| + p, |x| + q, y, p, q);
        JumpForward(cfg, m.f, y, p);
        CallShift(cfg, Skipped(m, y, p, q), x, y, q);
      } else {
        match Step(cfg, m, y[p])
        case Went(n, false) => CallShift(cfg, n, x, y, p + 1);
        case _ =>
      }
    }
  }

  lemma SkippedSlice(m: Machine, d: string, p: nat, q: nat, e: string, i: nat, j: nat)
    requires p <= q <= |d| && i <= j <= |e| && d[p..q] == e[i..j] && q - p == j - i
    ensures Skipped(m, d, p, q) == Skipped(m, e, i, j)
  {
    hide Emit;
  }

  lemma JumpForward(cfg: Config, f: Fields, data: string, p: nat)
    requires p < |data| && Jumps(cfg, f, data[p])
    ensures p < LineEnd(data, p)
  {
  }

  /** One call over two buffers, against two calls. */
  lemma CallConcat(cfg: Config, m: Machine, x: string, y: string)
    requires MachineInv(m)
    ensures var (r, w) := (CallFold(cfg, m, x, 0), CallFold(cfg, m, x + y, 0));
            if !r.end.Ran? then w == r
            else var q := CallFold(cfg, r.m, y, 0); SameOrRefused(w, r.m, q.(used := |x| + q.used))
  {
    hide CallFold, MachineInv;
    CallPrefix(cfg, m, x, y, 0);
    var r := CallFold(cfg, m, x, 0);
    if r.end.Ran? { CallShift(cfg, r.m, x, y, 0); }
  }

  lemma {:induction false} CleanPrefix(cfg: Config, m: Machine, x: string, y: string, p: nat, cap: int)
    requires p <= |x|
    ensures Clean(cfg, m, x + y, p) ==> Clean(cfg, m, x, p)
    ensures Fits(cfg, m, x + y, p, cap) ==> Fits(cfg, m, x, p, cap)
    ensures var r := Fold(cfg, m, x, p);
            r.end.Ran? ==>
              && (Clean(cfg, m, x + y, p) ==> Clean(cfg, r.m, x + y, |x|))
              && (Fits(cfg, m, x + y, p, cap) ==> Fits(cfg, r.m, x + y, |x|, cap))
    decreases |x| - p
  {
    hide Step;
    if p < |x| {
      assert (x + y)[p] == x[p];
      match Step(cfg, m, x[p])
      case Went(n, false) => CleanPrefix(cfg, n, x, y, p + 1, cap);
      case _ =>
    }
  }

  lemma {:induction false} CleanShift(cfg: Config, m: Machine, x: string, y: string, p: nat, cap: int)
    requires p <= |y|
    ensures Clean(cfg, m, x + y, |x| + p) == Clean(cfg, m, y, p)
    ensures Fits(cfg, m, x + y, |x| + p, cap) == Fits(cfg, m, y, p, cap)
    decreases |y| - p
  {
    hide Step;
    if p < |y| {
      assert (x + y)[|x| + p] == y[p];
      match Step(cfg, m, y[p])
      case Went(n, false) => CleanShift(cfg, n, x, y, p + 1, cap);
      case _ =>
    }
  }

  lemma CleanConcat(cfg: Config, m: Machine, x: string, y: string, cap: int)
    ensures Clean(cfg, m, x + y, 0) ==> Clean(cfg, m, x, 0)
    ensures Fits(cfg, m, x + y, 0, cap) ==> Fits(cfg, m, x, 0, cap)
    ensures var r := Fold(cfg, m, x, 0);
            r.end.Ran? ==>
              && (Clean(cfg, m, x + y, 0) ==> Clean(cfg, r.m, y, 0))
              && (Fits(cfg, m, x + y, 0, cap) ==> Fits(cfg, r.m, y, 0, cap))
  {
    CleanPrefix(cfg, m, x, y, 0, cap);
    var r := Fold(cfg, m, x, 0);
    CleanShift(cfg, r.m, x, y, 0, cap);
    hide Fold, Clean, Fits;
  }

  lemma {:induction false} FitsLess(cfg: Config, m: Machine, data: string, p: nat, cap: int, more: int)
    requires p <= |data| && cap <= more && Fits(cfg, m, data, p, cap)
    ensures Fits(cfg, m, data, p, more)
    decreases |data| - p
  {
    hide Step;
    if p < |data| {
      match Step(cfg, m, data[p])
      case Went(n, false) => FitsLess(cfg, n, data, p + 1, cap, more);
      case _ =>
    }
  }

  /** Outcome of a sequence of calls against one run of the machine over all the bytes. */
  predicate AllAgree(r: Result, b: Parser, exited: bool) {
    match r.end
    case Ran => b.errno.Ok? && !exited && b.m == r.m
    case Exited => b.errno.Ok? && exited && b.m == r.m
    case Failed(e) => b.errno == e && !e.Ok? && !exited
  }

  function Max(a: int, b: int): int { if a >= b then a else b }

  /** The most calls in a row between two resets of the count, `n` having gone before. */
  function MostCalls(cfg: Config, m: Machine, pieces: seq<string>, n: int): int
    decreases |pieces|
  {
    if pieces == [] then n
    else
      var r := CallFold(cfg, m, pieces[0], 0);
      Max(n + 1, if r.end.Ran? then MostCalls(cfg, r.m, pieces[1..], SlackAfter(cfg, m, pieces[0], n)) else n)
  }

  /** The exact count that these calls leave room for, which is never less than half the limit. */
  function FedRoom(cfg: Config, a: Parser, pieces: seq<string>): (room: int)
    ensures room >= HTTP_MAX_HEADER_SIZE / 2
  {
    Limit(MostCalls(cfg, a.m, pieces, Slack(a)))
  }

  lemma {:induction false} MostCallsMore(cfg: Config, m: Machine, pieces: seq<string>, n: int, k: int)
    requires n <= k
    ensures MostCalls(cfg, m, pieces, n) <= MostCalls(cfg, m, pieces, k)
    decreases |pieces|
  {
    hide CallFold, CallZeroes;
    if pieces != [] {
      var r := CallFold(cfg, m, pieces[0], 0);
      MostCallsMore(cfg, r.m, pieces[1..], SlackAfter(cfg, m, pieces[0], n), SlackAfter(cfg, m, pieces[0], k));
    }
  }

  /** They are no more than all calls. */
  lemma {:induction false} MostCallsAll(cfg: Config, m: Machine, pieces: seq<string>, n: nat)
    ensures n <= MostCalls(cfg, m, pieces, n) <= n + |pieces|
    decreases |pieces|
  {
    hide CallFold, CallZeroes;
    if pieces != [] {
      var r := CallFold(cfg, m, pieces[0], 0);
      MostCallsAll(cfg, r.m, pieces[1..], SlackAfter(cfg, m, pieces[0], n));
    }
  }

  /** One call of a sequence leaves room for the rest of it. */
  lemma FedStep(cfg: Config, a: Parser, pieces: seq<string>, mid: Parser, used: nat, ex: bool)
    requires a.errno.Ok? && ParserInv(a) && pieces != [] && Called(cfg, a, pieces[0], mid, used, ex)
    ensures ParserInv(mid) && FedRoom(cfg, a, pieces) <= Room(a)
    ensures mid.errno.Ok? ==> Slack(mid) <= MostCalls(cfg, a.m, pieces, Slack(a))
    ensures mid.errno.Ok? && !ex ==>
        && MostCalls(cfg, mid.m, pieces[1..], Slack(mid)) <= MostCalls(cfg, a.m, pieces, Slack(a))
        && FedRoom(cfg, a, pieces) <= FedRoom(cfg, mid, pieces[1..])
  {
    hide CallFold, CallZeroes, CallFits, MachineInv;
    if mid.errno.Ok? && !ex {
      MostCallsMore(cfg, mid.m, pieces[1..], Slack(mid), SlackAfter(cfg, a.m, pieces[0], Slack(a)));
    }
  }

  /** However the bytes are cut into calls, the calls do what the machine does over all of them, unless
      the header size limit stops them; and it does not if the exact count leaves one byte of room for
      each call since the last reset, or stays within half the limit. */
  lemma {:induction false} FedIsFold(cfg: Config, a: Parser, pieces: seq<string>, b: Parser, exited: bool)
    requires a.errno.Ok? && ParserInv(a) && Fed(cfg, a, pieces, b, exited)
    ensures ParserInv(b) && b.errno != AssertFailure && b.errno != InvalidInternalState
    ensures b.errno.Ok? ==> Slack(b) <= MostCalls(cfg, a.m, pieces, Slack(a))
    ensures Clean(cfg, a.m, Flat(pieces), 0) ==>
              if b.errno.HeaderOverflow? then !Fits(cfg, a.m, Flat(pieces), 0, FedRoom(cfg, a, pieces))
              else AllAgree(Fold(cfg, a.m, Flat(pieces), 0), b, exited)
    decreases |pieces|
  {
    hide Fold, Clean, Fits, MachineInv, CallFold, CallFits, CallZeroes, MostCalls, ParserInv, FedRoom, Room;
    if pieces == [] {
      FoldNothing(cfg, a.m);
      NoCalls(cfg, a);
    } else {
      var x, rest := pieces[0], pieces[1..];
      var y := Flat(rest);
      assert Flat(pieces) == x + y;
      var mid, used, ex :| FedFirst(cfg, a, pieces, b, exited, mid, used, ex);
      var cap := FedRoom(cfg, a, pieces);
      FedStep(cfg, a, pieces, mid, used, ex);
      FoldConcat(cfg, a.m, x, y);
      CleanConcat(cfg, a.m, x, y, cap);
      if Clean(cfg, a.m, x, 0) { CalledClean(cfg, a, x, mid, used, ex); }
      if Fits(cfg, a.m, x, 0, cap) { FitsLess(cfg, a.m, x, 0, cap, Room(a)); }
      if !ex && mid.errno.Ok? {
        FedIsFold(cfg, mid, rest, b, exited);
        if Fits(cfg, mid.m, y, 0, cap) { FitsLess(cfg, mid.m, y, 0, cap, FedRoom(cfg, mid, rest)); }
      }
    }
  }

  lemma NoCalls(cfg: Config, a: Parser)
    ensures MostCalls(cfg, a.m, [], Slack(a)) == Slack(a)
  {
  }

  lemma FoldNothing(cfg: Config, m: Machine)
    ensures Fold(cfg, m, "", 0) == Result(m, 0, Ran)
  {
  }

  /** However the bytes are cut into calls, and whatever they are, the calls do what one call over all of
      them does, or are stopped by a byte of a header value that the one call does not look at. */
  lemma {:induction false} AnyCut(cfg: Config, a: Parser, pieces: seq<string>, b: Parser, exited: bool)
    requires a.errno.Ok? && ParserInv(a) && Fed(cfg, a, pieces, b, exited) && !b.errno.HeaderOverflow?
    ensures AllAgree(CallFold(cfg, a.m, Flat(pieces), 0), b, exited) || (b.errno == InvalidHeaderToken && !exited)
    decreases |pieces|
  {
    hide CallFold, CallFits, MachineInv;
    if pieces == [] {
      CallNothing(cfg, a.m);
    } else {
      var x, rest := pieces[0], pieces[1..];
      assert Flat(pieces) == x + Flat(rest);
      var mid, used, ex :| FedFirst(cfg, a, pieces, b, exited, mid, used, ex);
      CallConcat(cfg, a.m, x, Flat(rest));
      if !ex && mid.errno.Ok? { AnyCut(cfg, mid, rest, b, exited); }
    }
  }

  lemma CallNothing(cfg: Config, m: Machine)
    ensures CallFold(cfg, m, "", 0) == Result(m, 0, Ran)
  {
  }

  /** Bytes fed one by one do what the machine does, whatever they are. */
  lemma {:induction false} ByteByByte(cfg: Config, a: Parser, pieces: seq<string>, b: Parser, exited: bool)
    requires a.errno.Ok? && ParserInv(a) && Fed(cfg, a, pieces, b, exited) && !b.errno.HeaderOverflow?
    requires forall p :: p in pieces ==> |p| == 1
    ensures AllAgree(Fold(cfg, a.m, Flat(pieces), 0), b, exited)
    decreases |pieces|
  {
    hide CallFold, CallFits, MachineInv, Fold;
    if pieces == [] {
      FoldNothing(cfg, a.m);
    } else {
      var x, rest := pieces[0], pieces[1..];
      assert Flat(pieces) == x + Flat(rest) && x in pieces && forall p :: p in rest ==> p in pieces;
      var mid, used, ex :| FedFirst(cfg, a, pieces, b, exited, mid, used, ex);
      SingleByte(cfg, a.m, x);
      FoldConcat(cfg, a.m, x, Flat(rest));
      if !ex && mid.errno.Ok? { ByteByByte(cfg, mid, rest, b, exited); }
    }
  }

  lemma SingleByte(cfg: Config, m: Machine, x: string)
    requires |x| == 1 && MachineInv(m)
    ensures CallFold(cfg, m, x, 0) == Fold(cfg, m, x, 0)
  {
    hide Step, Jumps, Emit, MachineInv;
    if Jumps(cfg, m.f, x[0]) {
      JumpForward(cfg, m.f, x, 0);
      assert LineEnd(x, 0) == 1;
      JumpState(cfg, m.f, x[0]);
      SkippedInv(m, x, 0, 1);
      JumpByte(cfg, m, x[0]);
      assert x[0..1] == [x[0]];
    }
  }

  lemma JumpState(cfg: Config, f: Fields, ch: char)
    requires Jumps(cfg, f, ch)
    ensures f.state.HeaderValue?
  {
  }

  /** Where one call and single bytes agree on a byte that may not stand in a header value. */
  predicate Steady(cfg: Config, m: Machine, text: string) {
    Fold(cfg, m, text, 0).end == Failed(InvalidHeaderToken) ==>
      CallFold(cfg, m, text, 0).end == Failed(InvalidHeaderToken)
  }

  /** Split invariance: two ways of cutting the same bytes into calls end with the same error and
      the same upgrade exit; without an error they made the same callbacks, once neighbouring
      fragments are joined, and left the same fields.  Only `nread` may differ, by at most one for each
      call since the last reset. */
  lemma SplitInvariance(cfg: Config, a: Parser, pieces: seq<string>, b: Parser, exited: bool,
                        pieces': seq<string>, b': Parser, exited': bool)
    requires a.errno.Ok? && ParserInv(a) && Flat(pieces) == Flat(pieces') && Steady(cfg, a.m, Flat(pieces))
    requires Fed(cfg, a, pieces, b, exited) && Fed(cfg, a, pieces', b', exited')
    requires !b.errno.HeaderOverflow? && !b'.errno.HeaderOverflow?
    ensures b.errno == b'.errno && exited == exited'
    ensures b.errno.Ok? ==> b.m == b'.m
    ensures b.errno.Ok? ==>
        && b.nread - b'.nread <= MostCalls(cfg, a.m, pieces, Slack(a))
        && b'.nread - b.nread <= MostCalls(cfg, a.m, pieces', Slack(a))
  {
    hide Fold, CallFold, Clean, Fits, CallFits, MachineInv, Fed;
    AnyCut(cfg, a, pieces, b, exited);
    AnyCut(cfg, a, pieces', b', exited');
    FedInv(cfg, a, pieces, b, exited);
    FedInv(cfg, a, pieces', b', exited');
    if Fold(cfg, a.m, Flat(pieces), 0).end != Failed(InvalidHeaderToken) {
      RanClean(cfg, a.m, Flat(pieces), 0);
      FedIsFold(cfg, a, pieces, b, exited);
      FedIsFold(cfg, a, pieces', b', exited');
    }
  }

  lemma FedInv(cfg: Config, a: Parser, pieces: seq<string>, b: Parser, exited: bool)
    requires a.errno.Ok? && ParserInv(a) && Fed(cfg, a, pieces, b, exited)
    ensures ParserInv(b)
  {
    FedIsFold(cfg, a, pieces, b, exited);
    hide Fold, Fed, Clean, Fits, MachineInv;
  }

  /** Beyond that the cut shows: byte by byte the text is refused, and in one call it is not. */
  lemma SplitDependence(cfg: Config, a: Parser, pieces: seq<string>, b: Parser, exited: bool,
                        whole: Parser, exited': bool)
    requires a.errno.Ok? && ParserInv(a) && !Steady(cfg, a.m, Flat(pieces))
    requires Fed(cfg, a, pieces, b, exited) && (forall p :: p in pieces ==> |p| == 1)
    requires Fed(cfg, a, [Flat(pieces)], whole, exited')
    requires !b.errno.HeaderOverflow? && !whole.errno.HeaderOverflow?
    ensures b.errno == InvalidHeaderToken && whole.errno != InvalidHeaderToken
  {
    ByteByByte(cfg, a, pieces, b, exited);
    OneCall(cfg, a, Flat(pieces), whole, exited');
    hide Fold, CallFold, Fed;
  }

  lemma OneCall(cfg: Config, a: Parser, text: string, b: Parser, exited: bool)
    requires Fed(cfg, a, [text], b, exited) && !b.errno.HeaderOverflow?
    ensures AllAgree(CallFold(cfg, a.m, text, 0), b, exited)
  {
    hide CallFold, CallFits, ParserInv;
    var mid, used, ex :| FedFirst(cfg, a, [text], b, exited, mid, used, ex);
    assert [text][1..] == [];
    if !ex && mid.errno.Ok? { assert Fed(cfg, mid, [], b, exited); }
  }

  lemma {:induction false} RanClean(cfg: Config, m: Machine, data: string, p: nat)
    requires p <= |data| && Fold(cfg, m, data, p).end != Failed(InvalidHeaderToken)
    ensures Clean(cfg, m, data, p)
    decreases |data| - p
  {
    hide Step, IsHeaderChar;
    if p < |data| {
      if m.f.state.HeaderValue? && !cfg.lenient && !IsHeaderChar(data[p]) { UncleanStuck(cfg, m, data[p]); }
      match Step(cfg, m, data[p])
      case Went(n, false) => RanClean(cfg, n, data, p + 1);
      case _ =>
    }
  }

  /** A text that a caller can tell to be steady: the parser is lenient, or no byte is a control
      character other than the tab and the line ends. */
  lemma {:induction false} CharsClean(cfg: Config, m: Machine, data: string, p: nat)
    requires p <= |data| && (cfg.lenient || forall i :: p <= i < |data| ==> IsHeaderChar(data[i]))
    ensures Clean(cfg, m, data, p)
    decreases |data| - p
  {
    hide Step, IsHeaderChar;
    if p < |data| {
      match Step(cfg, m, data[p])
      case Went(n, false) => CharsClean(cfg, n, data, p + 1);
      case _ =>
    }
  }

  lemma {:induction false} CleanThen(cfg: Config, m: Machine, x: string, y: string, p: nat)
    requires p <= |x| && Clean(cfg, m, x, p)
    requires var r := Fold(cfg, m, x, p); r.end.Ran? ==> Clean(cfg, r.m, x + y, |x|)
    ensures Clean(cfg, m, x + y, p)
    decreases |x| - p
  {
    hide Step, IsHeaderChar;
    if p < |x| {
      assert (x + y)[p] == x[p];
      match Step(cfg, m, x[p])
      case Went(n, false) => CleanThen(cfg, n, x, y, p + 1);
      case _ =>
    }
  }

  lemma CleanJoin(cfg: Config, m: Machine, x: string, y: string)
    requires Clean(cfg, m, x, 0)
    requires var r := Fold(cfg, m, x, 0); r.end.Ran? ==> Clean(cfg, r.m, y, 0)
    ensures Clean(cfg, m, x + y, 0)
  {
    var r := Fold(cfg, m, x, 0);
    CleanShift(cfg, r.m, x, y, 0, 0);
    CleanThen(cfg, m, x, y, 0);
    hide Fold, Clean, Fits;
  }

  lemma CharsSteady(cfg: Config, m: Machine, text: string)
    requires MachineInv(m) && (cfg.lenient || forall c :: c in text ==> IsHeaderChar(c))
    ensures Steady(cfg, m, text)
  {
    hide Fold, CallFold, Clean, Fits, CallFits, MachineInv, IsHeaderChar;
    CharsClean(cfg, m, text, 0);
    CallIsFold(cfg, m, text, 0, 0);
  }

  // ----- what a caller can check -----

  /** A call counts no byte more than once. */
  lemma {:induction false} ShortCall(cfg: Config, m: Machine, data: string, p: nat, cap: int)
    requires p <= |data| && m.nread + (|data| - p) <= cap
    ensures CallFits(cfg, m, data, p, cap) && CallFold(cfg, m, data, p).m.nread <= m.nread + (|data| - p)
    decreases |data| - p
  {
    hide Transition, Emit, Perform, Leftover;
    if p < |data| {
      if Jumps(cfg, m.f, data[p]) {
        JumpForward(cfg, m.f, data, p);
        hide Jumps, LineEnd, Step;
        ShortCall(cfg, Skipped(m, data, p, LineEnd(data, p)), data, LineEnd(data, p), cap);
      } else {
        StepCounts(cfg, m, data[p]);
        hide Jumps, LineEnd, Step;
        match Step(cfg, m, data[p])
        case Went(n, false) => ShortCall(cfg, n, data, p + 1, cap);
        case _ =>
      }
    }
  }

  lemma StepCounts(cfg: Config, m: Machine, ch: char)
    ensures Step(cfg, m, ch).Went? ==> Step(cfg, m, ch).m.nread <= m.nread + 1
  {
    hide Transition, Emit, Perform, Leftover;
  }

  /** Calls whose bytes fit into what is left of the limit never overflow. */
  lemma {:induction false} ShortFed(cfg: Config, a: Parser, pieces: seq<string>, b: Parser, exited: bool)
    requires a.errno.Ok? && ParserInv(a) && Fed(cfg, a, pieces, b, exited)
    requires a.m.nread + |Flat(pieces)| <= FedRoom(cfg, a, pieces)
    ensures !b.errno.HeaderOverflow?
    decreases |pieces|
  {
    hide CallFold, CallFits, CallZeroes, MachineInv, ParserInv, FedRoom, Room;
    if pieces != [] {
      var x, rest := pieces[0], pieces[1..];
      assert Flat(pieces) == x + Flat(rest);
      var mid, used, ex :| FedFirst(cfg, a, pieces, b, exited, mid, used, ex);
      FedStep(cfg, a, pieces, mid, used, ex);
      ShortCall(cfg, a.m, x, 0, Room(a));
      if !ex && mid.errno.Ok? { ShortFed(cfg, mid, rest, b, exited); }
    }
  }

  /** Split invariance by what a caller sees: short texts without control bytes, or a lenient parser. */
  lemma SplitShort(cfg: Config, a: Parser, pieces: seq<string>, b: Parser, exited: bool,
                   pieces': seq<string>, b': Parser, exited': bool)
    requires a.errno.Ok? && ParserInv(a) && Flat(pieces) == Flat(pieces')
    requires cfg.lenient || forall c :: c in Flat(pieces) ==> IsHeaderChar(c)
    requires a.m.nread + |Flat(pieces)| <= FedRoom(cfg, a, pieces)
        && a.m.nread + |Flat(pieces')| <= FedRoom(cfg, a, pieces')
    requires Fed(cfg, a, pieces, b, exited) && Fed(cfg, a, pieces', b', exited')
    ensures b.errno == b'.errno && exited == exited' && (b.errno.Ok? ==> b.m == b'.m)
  {
    hide Fed, Steady, MachineInv, IsHeaderChar, FedRoom;
    CharsSteady(cfg, a.m, Flat(pieces));
    ShortFed(cfg, a, pieces, b, exited);
    ShortFed(cfg, a, pieces', b', exited');
    SplitInvariance(cfg, a, pieces, b, exited, pieces', b', exited');
  }
}
