/** The one-byte-at-a-time reference machine: every byte is a call of its own, the callbacks
    are kept in a log whose neighbouring data fragments of one kind are joined, and header
    bytes are counted exactly. */
module StepMachine {
  import opened Numbers
  import opened ParserState
  import opened UrlChar
  import opened ByteTransition

  datatype Event = Data(kind: Kind, bytes: string) | Note(note: Note)

  // ----- joined logs -----

  predicate LastIs(log: seq<Event>, k: Kind) {
    |log| > 0 && log[|log| - 1].Data? && log[|log| - 1].kind == k
  }

  /** Append a callback to a joined log. */
  function Emit(log: seq<Event>, e: Event): (r: seq<Event>)
    ensures |r| > 0
    ensures e.Data? ==> LastIs(r, e.kind)
  {
    if e.Data? && LastIs(log, e.kind)
    then log[..|log| - 1] + [Data(e.kind, log[|log| - 1].bytes + e.bytes)]
    else log + [e]
  }

  /** The joined form of the callbacks as they were made. */
  function Joined(raw: seq<Event>): seq<Event> {
    if raw == [] then [] else Emit(Joined(raw[..|raw| - 1]), raw[|raw| - 1])
  }

  lemma JoinedAppend(raw: seq<Event>, e: Event)
    ensures Joined(raw + [e]) == Emit(Joined(raw), e)
  {
    assert (raw + [e])[..|raw|] == raw;
  }

  lemma EmitEmit(log: seq<Event>, k: Kind, a: string, b: string)
    ensures Emit(Emit(log, Data(k, a)), Data(k, b)) == Emit(log, Data(k, a + b))
  {
    if LastIs(log, k) {
      var l := log[|log| - 1].bytes;
      assert l + a + b == l + (a + b);
    }
  }

  lemma EmitNothing(log: seq<Event>, k: Kind)
    requires LastIs(log, k)
    ensures Emit(log, Data(k, "")) == log
  {
    var l := log[|log| - 1];
    assert l.bytes + "" == l.bytes;
  }

  // ----- marks -----

  /** The five mark pointers: absent is NULL, present is an index into the buffer. */
  type Marks = map<Kind, nat>

  ghost predicate InBuffer(marks: Marks, p: nat) { forall k :: k in marks ==> marks[k] <= p }

  /** The mark set when a call resumes in state `s` (lines 674-697). */
  function StartKind(s: State): Option<Kind> {
    if s.HeaderField? then Some(Field)
    else if s.HeaderValue? then Some(Value)
    else if IsUrlState(s) then Some(Url)
    else if s.ResStatus? then Some(Status)
    else None
  }

  function StartMarks(s: State): Marks {
    match StartKind(s) case None => map[] case Some(k) => map[k := 0]
  }

  function FlushMark(k: Kind, marks: Marks, log: seq<Event>, data: string, end: nat): (r: (Marks, seq<Event>))
    requires InBuffer(marks, end) && end <= |data|
    ensures r.0 == marks - {k}
  {
    if k in marks then (marks - {k}, Emit(log, Data(k, data[marks[k]..end]))) else (marks, log)
  }

  /** One macro at byte `p`. */
  function PerformOne(a: Act, marks: Marks, log: seq<Event>, data: string, p: nat): (r: (Marks, seq<Event>))
    requires InBuffer(marks, p) && p < |data|
    ensures InBuffer(r.0, p)
  {
    match a
    case Mark(k) => (if k in marks then marks else marks[k := p], log)
    case Flush(k, whole) => FlushMark(k, marks, log, data, if whole then p + 1 else p)
    case Notify(n) => (marks, Emit(log, Note(n)))
  }

  /** The macros run for byte `p`, in order. */
  function Perform(acts: seq<Act>, marks: Marks, log: seq<Event>, data: string, p: nat): (r: (Marks, seq<Event>))
    requires InBuffer(marks, p) && p < |data|
    ensures InBuffer(r.0, p)
  {
    if acts == [] then (marks, log)
    else
      var (m, l) := PerformOne(acts[0], marks, log, data, p);
      Perform(acts[1..], m, l, data, p)
  }

  /** The callbacks for marks left over at the end of a call (lines 2015-2019). */
  function Leftover(marks: Marks, log: seq<Event>, data: string): seq<Event>
    requires InBuffer(marks, |data|)
  {
    var a := FlushMark(Field, marks, log, data, |data|);
    var b := FlushMark(Value, a.0, a.1, data, |data|);
    var c := FlushMark(Url, b.0, b.1, data, |data|);
    var d := FlushMark(Body, c.0, c.1, data, |data|);
    FlushMark(Status, d.0, d.1, data, |data|).1
  }

  // ----- the machine -----

  /** Parser fields, the exact number of header bytes since the last reset, the joined log. */
  datatype Machine = Machine(f: Fields, nread: nat, log: seq<Event>)

  /** What a one-byte call does. */
  datatype Stepped = Went(m: Machine, exit: bool) | Stuck(errno: Errno)

  function Count(f: Fields, nread: nat): nat { if ParsingHeader(f.state) then nread + 1 else nread }

  /** A one-byte call.  The `assert` on `nread` of line 1874 is checked here. */
  function Step(cfg: Config, m: Machine, ch: char): Stepped {
    if m.f.state.ChunkSizeStart? && Count(m.f, m.nread) != 1 then Stuck(AssertFailure)
    else match Transition(cfg, m.f, ch)
      case Fail(e) => Stuck(e)
      case Out(f, acts, reset, exit) =>
        var (marks, log) := Perform(acts, StartMarks(m.f.state), m.log, [ch], 0);
        Went(Machine(f, if reset then 0 else Count(m.f, m.nread), if exit then log else Leftover(marks, log, [ch])),
             exit)
  }

  /** How a run over a buffer ended: out of bytes, at an upgrade, or at an error. */
  datatype End = Ran | Exited | Failed(errno: Errno)

  /** `used` is what the call returns: the bytes consumed. */
  datatype Result = Result(m: Machine, used: nat, end: End)

  /** The machine run over `data` from byte `p` on. */
  function Fold(cfg: Config, m: Machine, data: string, p: nat): (r: Result)
    requires p <= |data|
    ensures p <= r.used <= |data|
    ensures r.end.Ran? ==> r.used == |data|
    decreases |data| - p
  {
    if p == |data| then Result(m, p, Ran)
    else match Step(cfg, m, data[p])
      case Stuck(e) => Result(m, p, Failed(e))
      case Went(n, exit) => if exit then Result(n, p + 1, Exited) else Fold(cfg, n, data, p + 1)
  }
}
