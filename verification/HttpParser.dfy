/** The parser object and `http_parser_execute`, with its marks, its bulk loops and its
    counter of header bytes, proved to refine the one-byte-at-a-time machine. */
module HttpParser {
  import opened Chars
  import opened Numbers
  import opened ParserState
  import opened ByteTransition
  import opened StepMachine
  import opened ParserInvariant
  import opened CallRefinement
  import opened LogInvariant
  import opened Refinement
  import opened Runs
  import opened Calls

  /** What a call returns: on to the next byte, or back to the caller. */
  datatype Flow = Onward | Return(exited: bool)

  /** The longest buffer: `nread` is a `uint32_t` that takes the length of a run at once. */
  const MAX_CALL: nat := 0xFFFF_FFFF - 2 * HTTP_MAX_HEADER_SIZE

  /** No value fragment is joined onto an empty one. */
  predicate RawOk(raw: seq<Event>) {
    raw == [] ||
    (var before, e := raw[..|raw| - 1], raw[|raw| - 1];
     RawOk(before) && (e.Data? && e.kind == Value ==> !EndsInEmptyValue(Joined(before))))
  }

  lemma RawAppend(raw: seq<Event>, e: Event)
    requires RawOk(raw)
    requires e.Data? && e.kind == Value ==> !EndsInEmptyValue(Joined(raw))
    ensures RawOk(raw + [e])
  {
    assert (raw + [e])[..|raw|] == raw;
  }

  /** `memchr(data + p, c, limit)`. */
  method MemChr(data: string, p: nat, c: char, limit: nat) returns (r: Option<nat>)
    requires p + limit <= |data|
    ensures match r
            case Some(q) => p <= q < p + limit && data[q] == c && forall i :: p <= i < q ==> data[i] != c
            case None => forall i :: p <= i < p + limit ==> data[i] != c
  {
    for q := p to p + limit
      invariant forall i :: p <= i < q ==> data[i] != c
    {
      if data[q] == c { return Some(q); }
    }
    r := None;
  }

  /** The jump of lines 1471-1484: to the next CR or LF, looked for within the header size limit.
      `lost`: there is none within the limit, and the jump goes to the end of a longer buffer. */
  method NextLineEnd(data: string, p: nat) returns (q: nat, ghost lost: bool)
    requires p < |data|
    ensures p <= q <= |data|
    ensures !lost ==> NoLineEnd(data, p, q) && (q < |data| ==> data[q] == '\r' || data[q] == '\n')
    ensures lost ==> q == |data| && p + HTTP_MAX_HEADER_SIZE < |data| && NoLineEnd(data, p, p + HTTP_MAX_HEADER_SIZE)
  {
    var limit := if |data| - p <= HTTP_MAX_HEADER_SIZE then |data| - p else HTTP_MAX_HEADER_SIZE;
    var cr := MemChr(data, p, '\r', limit);
    var lf := MemChr(data, p, '\n', limit);
    lost := false;
    if cr.Some? {
      q := if lf.Some? && cr.value >= lf.value then lf.value else cr.value;
    } else if lf.Some? {
      q := lf.value;
    } else {
      q := |data|;
      lost := p + limit < |data|;
    }
  }

  class HttpParser {
    var f: Fields
    var nread: nat
    var errno: Errno
    /** The callbacks made so far, in order. */
    var events: seq<Event>
    /** The header bytes since the last reset, each counted once. */
    ghost var exact: nat
    /** By how much `nread` exceeded that when the call began, or nothing once the call has reset both. */
    ghost var excess: nat

    ghost function Abs(): Machine reads this { Machine(f, exact, Joined(events)) }

    ghost predicate Valid() reads this {
      && RawOk(events)
      && (errno.Ok? ==> MachineInv(Abs()) && exact <= nread <= HTTP_MAX_HEADER_SIZE && nread <= 2 * exact)
    }

    /** `http_parser_init`. */
    constructor (kind: MessageType)
      ensures Valid() && errno == Ok && events == [] && f == InitFields(kind) && nread == exact == 0
    {
      f := InitFields(kind);
      nread, exact, excess, errno, events := 0, 0, 0, Ok, [];
      new;
      InitInv(kind);
    }

    /** The state of a call that started in `m0`, before byte `p`. */
    ghost predicate Sync(cfg: Config, m0: Machine, data: string, p: nat, marks: Marks, cap: int)
      reads this
    {
      && p <= |data| && InBuffer(marks, p) && RawOk(events)
      && var m := Machine(f, exact, Pend(marks, Joined(events), data, p));
      && Mid(m, marks, Joined(events), data, p)
      && Reaches(cfg, m0, data, m, p, cap, excess == 0)
    }

    method Fire(e: Event)
      requires RawOk(events)
      requires e.Data? && e.kind == Value ==> !EndsInEmptyValue(Joined(events))
      modifies `events
      ensures RawOk(events) && events == old(events) + [e] && Joined(events) == Emit(old(Joined(events)), e)
    {
      JoinedAppend(events, e);
      RawAppend(events, e);
      events := events + [e];
    }

    method FlushKind(k: Kind, marks: Marks, data: string, end: nat) returns (live: Marks)
      requires InBuffer(marks, end) && end <= |data| && RawOk(events)
      requires k == Value ==> Opened(marks, Joined(events))
      modifies `events
      ensures RawOk(events)
      ensures old(events) <= events
      ensures (live, Joined(events)) == FlushMark(k, marks, old(Joined(events)), data, end)
    {
      if k in marks { Fire(Data(k, data[marks[k]..end])); }
      live := marks - {k};
      assert k !in marks ==> live == marks;
    }

    method RunMacro(a: Act, marks: Marks, data: string, p: nat) returns (live: Marks)
      requires InBuffer(marks, p) && p < |data| && RawOk(events)
      requires a.Flush? && a.kind == Value ==> Opened(marks, Joined(events))
      modifies `events
      ensures RawOk(events)
      ensures old(events) <= events
      ensures (live, Joined(events)) == PerformOne(a, marks, old(Joined(events)), data, p)
    {
      match a
      case Mark(k) => live := if k in marks then marks else marks[k := p];
      case Flush(k, whole) => live := FlushKind(k, marks, data, if whole then p + 1 else p);
      case Notify(n) => Fire(Note(n)); live := marks;
    }

    method RunMacros(acts: seq<Act>, marks: Marks, data: string, p: nat) returns (live: Marks)
      requires InBuffer(marks, p) && p < |data| && RawOk(events)
      requires Safe(acts, marks, Joined(events), data, p)
      modifies `events
      ensures InBuffer(live, p) && RawOk(events)
      ensures old(events) <= events
      ensures (live, Joined(events)) == Perform(acts, marks, old(Joined(events)), data, p)
    {
      live := marks;
      var i := 0;
      while i < |acts|
        invariant i <= |acts| && InBuffer(live, p) && RawOk(events)
        invariant old(events) <= events
        invariant Safe(acts[i..], live, Joined(events), data, p)
        invariant Perform(acts[i..], live, Joined(events), data, p)
               == Perform(acts, marks, old(Joined(events)), data, p)
      {
        assert acts[i..][0] == acts[i] && acts[i..][1..] == acts[i + 1..];
        live := RunMacro(acts[i], live, data, p);
        i := i + 1;
      }
    }

    /** `COUNT_HEADER_SIZE`, in 32-bit arithmetic. */
    method CountHeader(v: nat) returns (ok: bool)
      requires errno == Ok
      modifies `nread, `errno
      ensures nread == (old(nread) + v) % 0x1_0000_0000
      ensures ok <==> nread <= HTTP_MAX_HEADER_SIZE
      ensures errno == if ok then Ok else HeaderOverflow
    {
      nread := (nread + v) % 0x1_0000_0000;
      ok := nread <= HTTP_MAX_HEADER_SIZE;
      if !ok { errno := HeaderOverflow; }
    }

    /** `nread` is the exact count, plus the excess, plus at most `more`. */
    ghost predicate Counted(slack: nat, more: nat) reads this {
      exact + excess <= nread <= exact + excess + more && excess <= slack && nread <= HTTP_MAX_HEADER_SIZE
      && nread <= 2 * exact
    }

    /** The byte about to be done is counted in `nread` but not yet in `exact`. */
    ghost predicate Counting(slack: nat) reads this {
      nread == Count(f, exact) + excess <= HTTP_MAX_HEADER_SIZE && excess <= slack && excess <= exact
    }

    /** The call has got to byte `q`, or returns there. */
    ghost predicate Flowed(cfg: Config, m0: Machine, data: string, q: nat, marks: Marks, slack: nat, flow: Flow)
      reads this
    {
      q <= |data| && RawOk(events) &&
      match flow
      case Onward =>
        && errno.Ok? && Sync(cfg, m0, data, q, marks, Cap(slack)) && Counted(slack, if q == |data| then 1 else 0)
      case Return(true) =>
        && errno.Ok? && MachineInv(Abs()) && Counted(slack, 0) && (CallZeroes(cfg, m0, data, 0) ==> excess == 0)
        && CallFold(cfg, m0, data, 0) == Result(Abs(), q, Exited)
      case Return(false) =>
        || (errno.HeaderOverflow? && !CallFits(cfg, m0, data, 0, Cap(slack)))
        || (IsParseError(errno) && CallFold(cfg, m0, data, 0).used == q
          && CallFold(cfg, m0, data, 0).end == Failed(errno))
    }

    /** The exact count that the slack of `nread` leaves room for. */
    static function Cap(slack: nat): int { Limit(slack + 1) }

    /** One byte, already counted: the `switch` of lines 706-1996. */
    method OneByte(cfg: Config, ghost m0: Machine, data: string, p: nat, marks: Marks, ghost slack: nat)
      returns (q: nat, live: Marks, flow: Flow)
      requires errno == Ok && Sync(cfg, m0, data, p, marks, Cap(slack)) && p < |data| && Counting(slack)
      requires f.state.HeaderValue? ==> data[p] == '\r' || data[p] == '\n'
      modifies this
      ensures Flowed(cfg, m0, data, q, live, slack, flow)
      ensures old(events) <= events
      ensures flow.Onward? ==> q == p + 1
    {
      hide Transition, Step, Pend, LogInv, Perform, CallFold, CallFits, CallZeroes, Inv, Mid, Reaches, Fit, Joined,
        RawOk, Safe, ParsingHeader;
      ghost var m := Machine(f, exact, Pend(marks, Joined(events), data, p));
      ByteRefines(cfg, m, marks, Joined(events), data, p);
      var o := Transition(cfg, f, data[p]);
      q, live := p, marks;
      if o.Fail? {
        errno := o.errno;
        ReachFail(cfg, m0, data, m, p, Cap(slack), excess == 0, o.errno);
        return q, live, Return(false);
      }
      SafeMacros(cfg, m, marks, Joined(events), data, p);
      exact := Count(f, exact);
      f := o.f;
      live := RunMacros(o.acts, marks, data, p);
      ghost var even := excess == 0;
      if o.reset { nread, exact, excess := 0, 0, 0; }
      q := p + 1;
      ghost var n := Moved(m, o, live, Joined(events), data, p);
      if o.exit {
        ReachExit(cfg, m0, data, m, p, Cap(slack), even, n);
        PendNone(Joined(events), data, p + 1);
        flow := Return(true);
      } else {
        ReachStep(cfg, m0, data, m, p, Cap(slack), even, n);
        flow := Onward;
      }
    }

    /** The loop over a header name, lines 1228-1355. */
    method HeaderName(cfg: Config, ghost m0: Machine, data: string, p: nat, marks: Marks, ghost slack: nat)
      returns (q: nat, live: Marks, flow: Flow)
      requires errno == Ok && Sync(cfg, m0, data, p, marks, Cap(slack)) && p < |data| <= MAX_CALL && Counting(slack)
      requires f.state.HeaderField?
      modifies this
      ensures Flowed(cfg, m0, data, q, live, slack, flow)
      ensures old(events) <= events
      ensures flow.Onward? ==> p < q
    {
      hide Transition, Step, Pend, LogInv, CallFold, CallFits, CallZeroes, Inv, Mid, Reaches, Joined, RawOk, Token,
        FieldChar;
      var start := p;
      q, live := p, marks;
      while q < |data| && IsToken(data[q])
        invariant p <= q <= |data| && errno == Ok && f.state.HeaderField?
        invariant Sync(cfg, m0, data, q, marks, Cap(slack))
        invariant events == old(events)
        invariant nread == old(nread) && exact == old(exact) + (q - p) && excess == old(excess)
      {
        ghost var m := Machine(f, exact, Pend(marks, Joined(events), data, q));
        TokenByte(cfg, m, marks, Joined(events), data, q);
        f := NameAfter(f, data[q]);
        exact := exact + 1;
        ghost var n := Machine(f, exact, Pend(marks, Joined(events), data, q + 1));
        ReachStep(cfg, m0, data, m, q, Cap(slack), excess == 0, n);
        q := q + 1;
      }
      var ok := CountHeader(q - start);
      if !ok {
        if CallFits(cfg, m0, data, 0, Cap(slack)) {
          ReachFits(cfg, m0, data, Machine(f, exact, Pend(marks, Joined(events), data, q)), q, Cap(slack), excess == 0);
        }
        return q, live, Return(false);
      }
      if q == |data| { return q, live, Onward; }
      q, live, flow := OneByte(cfg, m0, data, q, marks, slack);
    }

    /** One matched byte of a header value: the `switch` of lines 1464-1616 but for `h_general`. */
    method ValueCharacter(cfg: Config, ghost m0: Machine, data: string, q: nat, marks: Marks, ghost slack: nat)
      returns (ok: bool)
      requires errno == Ok && Sync(cfg, m0, data, q, marks, Cap(slack)) && q < |data|
      requires f.state.HeaderValue? && !f.hstate.General? && data[q] != '\r' && data[q] != '\n'
          && (cfg.lenient || IsHeaderChar(data[q]))
      modifies `f, `errno, `exact
      ensures ok ==> errno == Ok && f.state.HeaderValue? && exact == old(exact) + 1
                     && Sync(cfg, m0, data, q + 1, marks, Cap(slack))
      ensures !ok ==> Flowed(cfg, m0, data, q, marks, slack, Return(false))
    {
      hide Transition, Step, Pend, LogInv, CallFold, CallFits, CallZeroes, Inv, Mid, Reaches, Joined, RawOk, ValueChar,
        Fit;
      ghost var m := Machine(f, exact, Pend(marks, Joined(events), data, q));
      ValueByte(cfg, m, marks, Joined(events), data, q);
      var o := ValueChar(f, data[q]);
      if o.Fail? {
        errno := o.errno;
        ReachFail(cfg, m0, data, m, q, Cap(slack), excess == 0, o.errno);
        return false;
      }
      f := o.f;
      exact := exact + 1;
      ghost var n := Machine(f, exact, Pend(marks, Joined(events), data, q + 1));
      ReachStep(cfg, m0, data, m, q, Cap(slack), excess == 0, n);
      return true;
    }

    /** A byte that may not stand in a header value, lines 1457-1460. */
    method RefuseCharacter(cfg: Config, ghost m0: Machine, data: string, q: nat, marks: Marks, ghost slack: nat)
      requires errno == Ok && Sync(cfg, m0, data, q, marks, Cap(slack)) && q < |data|
      requires f.state.HeaderValue? && data[q] != '\r' && data[q] != '\n' && !cfg.lenient && !IsHeaderChar(data[q])
      modifies `errno
      ensures Flowed(cfg, m0, data, q, marks, slack, Return(false))
    {
      hide Transition, Step, Pend, LogInv, CallFold, CallFits, CallZeroes, Inv, Mid, Reaches, Joined, RawOk, ValueChar;
      ghost var m := Machine(f, exact, Pend(marks, Joined(events), data, q));
      ValueByte(cfg, m, marks, Joined(events), data, q);
      errno := InvalidHeaderToken;
      ReachFail(cfg, m0, data, m, q, Cap(slack), excess == 0, InvalidHeaderToken);
    }

    /** The jump over a general header value. */
    method ValueJump(cfg: Config, ghost m0: Machine, data: string, p: nat, marks: Marks, ghost slack: nat)
      returns (q: nat, ghost lost: bool)
      requires errno == Ok && Sync(cfg, m0, data, p, marks, Cap(slack)) && p < |data| && Jumps(cfg, f, data[p])
      modifies `exact
      ensures p < q <= |data|
      ensures !lost ==> Sync(cfg, m0, data, q, marks, Cap(slack)) && exact == old(exact) + (q - p)
      ensures lost ==> q == |data| && q - p > HTTP_MAX_HEADER_SIZE && !CallFits(cfg, m0, data, 0, Cap(slack))
    {
      hide Transition, Step, Pend, LogInv, CallFold, CallFits, CallZeroes, Inv, Mid, Reaches, Joined, RawOk, Fit;
      q, lost := NextLineEnd(data, p);
      ghost var end := LineEnd(data, p);
      ghost var m := Machine(f, exact, Pend(marks, Joined(events), data, p));
      MidBuffer(m, marks, Joined(events), data, p);
      GeneralJump(cfg, m0, Cap(slack), excess == 0, m, marks, Joined(events), data, p);
      ghost var n := ValueAfter(m, marks, Joined(events), data, p, end);
      if lost {
        assert end >= p + HTTP_MAX_HEADER_SIZE;
        if CallFits(cfg, m0, data, 0, Cap(slack)) { ReachFits(cfg, m0, data, n, end, Cap(slack), excess == 0); }
      } else {
        assert q == end;
        exact := exact + (q - p);
      }
    }

    /** The loop over a header value, lines 1436-1625. */
    method HeaderValue(cfg: Config, ghost m0: Machine, data: string, p: nat, marks: Marks, ghost slack: nat)
      returns (q: nat, live: Marks, flow: Flow)
      requires errno == Ok && Sync(cfg, m0, data, p, marks, Cap(slack)) && p < |data| <= MAX_CALL && Counting(slack)
      requires f.state.HeaderValue?
      modifies this
      ensures Flowed(cfg, m0, data, q, live, slack, flow)
      ensures old(events) <= events
      ensures flow.Onward? ==> p < q
    {
      hide Transition, Step, Pend, LogInv, CallFold, CallFits, CallZeroes, Inv, Mid, Reaches, Joined, RawOk, ValueChar,
        Fit;
      var start := p;
      ghost var lost := false;
      q, live := p, marks;
      while q < |data| && data[q] != '\r' && data[q] != '\n'
        invariant p <= q <= |data| && errno == Ok && f.state.HeaderValue? && nread == old(nread)
            && events == old(events) && excess == old(excess)
        invariant RawOk(events)
        invariant !lost ==> Sync(cfg, m0, data, q, marks, Cap(slack)) && exact == old(exact) + (q - p)
        invariant lost ==> q == |data| && q - p > HTTP_MAX_HEADER_SIZE
                           && !CallFits(cfg, m0, data, 0, Cap(slack))
      {
        if !cfg.lenient && !IsHeaderChar(data[q]) {
          RefuseCharacter(cfg, m0, data, q, marks, slack);
          return q, live, Return(false);
        }
        if f.hstate.General? {
          q, lost := ValueJump(cfg, m0, data, q, marks, slack);
        } else {
          var ok := ValueCharacter(cfg, m0, data, q, marks, slack);
          if !ok { return q, live, Return(false); }
          q := q + 1;
        }
      }
      var ok := CountHeader(q - start);
      if !ok {
        if !lost && CallFits(cfg, m0, data, 0, Cap(slack)) {
          ReachFits(cfg, m0, data, Machine(f, exact, Pend(marks, Joined(events), data, q)), q, Cap(slack), excess == 0);
        }
        return q, live, Return(false);
      }
      if q == |data| { return q, live, Onward; }
      q, live, flow := OneByte(cfg, m0, data, q, marks, slack);
    }

    /** The jump inside a body, lines 1820-1861 and 1953-1974, or to the end, lines 1857-1861. */
    method BodyBytes(cfg: Config, ghost m0: Machine, data: string, p: nat, marks: Marks, ghost slack: nat)
      returns (q: nat, live: Marks, flow: Flow)
      requires errno == Ok && Sync(cfg, m0, data, p, marks, Cap(slack)) && p < |data| && Counting(slack)
      requires f.state.BodyIdentity? || f.state.BodyIdentityEof? || f.state.ChunkData?
      modifies this
      ensures Flowed(cfg, m0, data, q, live, slack, flow)
      ensures old(events) <= events
      ensures flow.Onward? ==> p < q
    {
      hide Transition, Step, Pend, LogInv, CallFold, CallFits, CallZeroes, Inv, Mid, Reaches, Joined, RawOk, Fit;
      ghost var m := Machine(f, exact, Pend(marks, Joined(events), data, p));
      if !f.state.BodyIdentityEof? { MidLength(m, marks, Joined(events), data, p); }
      var toRead := if f.state.BodyIdentityEof? || |data| - p <= f.length then |data| - p else f.length;
      var last := p + toRead - 1;
      BodyRun(cfg, m0, Cap(slack), excess == 0, m, marks, Joined(events), data, p, last);
      if !f.state.BodyIdentityEof? { f := f.(length := f.length - (toRead - 1)); }
      live := BodyMarks(marks, p, last);
      MidBuffer(Machine(f, exact, Pend(live, Joined(events), data, last)), live, Joined(events), data, last);
      q, live, flow := OneByte(cfg, m0, data, last, live, slack);
    }

    /** The callbacks for a mark left over at the end of a call, lines 2009-2019. */
    method Leftovers(marks: Marks, data: string)
      requires InBuffer(marks, |data|) && RawOk(events) && Opened(marks, Joined(events))
      requires marks == map[] || exists k :: k in marks && marks == map[k := marks[k]]
      modifies `events
      ensures old(events) <= events
      ensures RawOk(events) && Joined(events) == Leftover(marks, old(Joined(events)), data)
    {
      hide Emit, Joined, RawOk;
      assert |marks| <= 1;
      ghost var before := events;
      var live := FlushKind(Field, marks, data, |data|);
      assert before <= events;
      live := FlushKind(Value, live, data, |data|);
      assert before <= events;
      live := FlushKind(Url, live, data, |data|);
      assert before <= events;
      live := FlushKind(Body, live, data, |data|);
      assert before <= events;
      live := FlushKind(Status, live, data, |data|);
    }

    /** One iteration of the loop of lines 699-1997. */
    method Iterate(cfg: Config, ghost m0: Machine, data: string, p: nat, marks: Marks, ghost slack: nat)
      returns (q: nat, live: Marks, flow: Flow)
      requires Flowed(cfg, m0, data, p, marks, slack, Onward) && p < |data| <= MAX_CALL
      modifies this
      ensures Flowed(cfg, m0, data, q, live, slack, flow)
      ensures old(events) <= events
      ensures flow.Onward? ==> p < q
    {
      hide Transition, Step, Pend, LogInv, CallFold, CallFits, CallZeroes, Inv, Mid, Reaches, Joined, RawOk, Fit,
        ParsingHeader;
      if ParsingHeader(f.state) {
        var ok := CountHeader(1);
        if !ok {
          if CallFits(cfg, m0, data, 0, Cap(slack)) {
            ReachFits(cfg, m0, data, Machine(f, exact, Pend(marks, Joined(events), data, p)), p, Cap(slack),
              excess == 0);
          }
          return p, marks, Return(false);
        }
      }
      if f.state.HeaderField? {
        q, live, flow := HeaderName(cfg, m0, data, p, marks, slack);
      } else if f.state.HeaderValue? {
        q, live, flow := HeaderValue(cfg, m0, data, p, marks, slack);
      } else if f.state.BodyIdentity? || f.state.BodyIdentityEof? || f.state.ChunkData? {
        q, live, flow := BodyBytes(cfg, m0, data, p, marks, slack);
      } else {
        q, live, flow := OneByte(cfg, m0, data, p, marks, slack);
      }
    }

    ghost function View(): Parser reads this { Parser(Abs(), nread, errno) }

    /** `http_parser_execute`: `n` is its result, and `exited` tells whether it returned early
        because the rest of the input is in another protocol (lines 1788 and 1868). */
    method Execute(cfg: Config, data: string) returns (n: nat, exited: bool)
      requires Valid() && |data| <= MAX_CALL
      modifies this
      ensures Valid()
      ensures old(events) <= events
      ensures !old(errno).Ok? ==> n == 0 && !exited && View() == old(View()) && events == old(events)
      ensures old(errno).Ok? && data == "" ==> !exited && CalledAtEof(old(View()), View(), n)
      ensures old(errno).Ok? && data != "" ==> Called(cfg, old(View()), data, View(), n, exited)
    {
      hide Transition, Step, Pend, LogInv, CallFold, CallFits, CallZeroes, Inv, Mid, Reaches, Joined, RawOk, Fit,
        Leftover, StartMarks;
      if !errno.Ok? { return 0, false; }
      if |data| == 0 {
        n, exited := AtEof();
        return;
      }
      ghost var m0 := Abs();
      ghost var slack: nat := nread - exact;
      excess := slack;
      var p, marks := 0, StartMarks(f.state);
      StartMid(m0, data);
      ReachStart(cfg, m0, data, Cap(slack), excess == 0);
      MidBuffer(m0, marks, Joined(events), data, 0);
      MidPend(m0, marks, Joined(events), data, 0);
      assert Sync(cfg, m0, data, 0, marks, Cap(slack));
      while p < |data|
        invariant p <= |data| && errno == Ok
        invariant old(events) <= events
        invariant Flowed(cfg, m0, data, p, marks, slack, Onward)
      {
        var flow: Flow;
        p, marks, flow := Iterate(cfg, m0, data, p, marks, slack);
        if flow.Return? { return p, flow.exited; }
      }
      ghost var m := Machine(f, exact, Pend(marks, Joined(events), data, p));
      MidEnd(cfg, m0, m, marks, Joined(events), data, Cap(slack), excess == 0);
      Leftovers(marks, data);
      return |data|, false;
    }

    /** Lines 652-671. */
    method AtEof() returns (n: nat, exited: bool)
      requires Valid() && errno.Ok?
      modifies this
      ensures old(events) <= events
      ensures Valid() && !exited && CalledAtEof(old(View()), View(), n)
    {
      if f.state.BodyIdentityEof? {
        Fire(Note(MessageComplete(ShouldKeepAlive(f))));
        return 0, false;
      }
      if f.state.Dead? { return 0, false; }
      errno := InvalidEofState;
      return 1, false;
    }
  }

  /** A caller that hands the parser one piece after the other and stops at an error or an upgrade: what
      holds of every sequence of calls holds of the object. */
  method FeedAll(cfg: Config, p: HttpParser, pieces: seq<string>) returns (exited: bool)
    requires p.Valid() && p.errno.Ok? && forall x :: x in pieces ==> x != "" && |x| <= MAX_CALL
    modifies p
    ensures p.Valid() && old(p.events) <= p.events && Fed(cfg, old(p.View()), pieces, p.View(), exited)
    decreases |pieces|
  {
    hide Called, RawOk, Joined, MachineInv;
    if pieces == [] { return false; }
    assert pieces[0] in pieces && forall x :: x in pieces[1..] ==> x in pieces;
    ghost var a := p.View();
    var used, ex := p.Execute(cfg, pieces[0]);
    ghost var mid := p.View();
    if ex || !p.errno.Ok? {
      exited := ex;
    } else {
      exited := FeedAll(cfg, p, pieces[1..]);
    }
    assert FedFirst(cfg, a, pieces, p.View(), exited, mid, used, ex);
  }
}
