/** `tuple_ptr`: one control block for several objects, with its two atomic counters.  Every atomic
    access is a step of its own, so every interleaving of the threads is a run. */
module TuplePtr {

  /** The thread that dropped the last owner: at object `k`, before the load of `release_weak` or, if
      `loaded`, between the load and the subtraction; `k == n` is the owners' own weak count. */
  datatype Destroyer = Idle | At(k: nat, loaded: bool) | Finished

  /** The control block and its users.  `weakly[i]`: object `i` holds a weak count on the block.
      `owners`: live `tuple_ptr`s.  `copies`: weak holders outside the tuple; `loaded`: those between
      the load and the subtraction.  `destroyed`, `freed`: how often that happened. */
  datatype Block = Block(weakly: seq<bool>, shared: int, weak: int, owners: nat, destroyer: Destroyer,
                         copies: nat, loaded: nat, destroyed: seq<nat>, freed: nat)

  function Count(weakly: seq<bool>): nat {
    if weakly == [] then 0 else (if weakly[0] then 1 else 0) + Count(weakly[1..])
  }

  /** `tuple_ptr(Y*... p)`: one owner, and a weak count for every object that wants one. */
  function Made(weakly: seq<bool>): Block {
    Block(weakly, 0, Count(weakly), 1, Idle, 0, 0, seq(|weakly|, i => 0), 0)
  }

  datatype Step =
    | CopyOwner      // add_shared, by someone who holds an owner
    | DropOwner      // release_shared: fetch_sub
    | CopyWeak       // add_weak, by someone who holds an object or a copy of one
    | LoadWeak       // release_weak of a copy: load
    | SubWeak        // release_weak of a copy: fetch_sub
    | Destroy        // the destroyer's next step

  /** Objects still to be released by the destroyer, and the owners' own count. */
  function Left(b: Block): nat {
    match b.destroyer
    case Idle => Count(b.weakly) + 1
    case At(k, _) => if k <= |b.weakly| then Count(b.weakly[k..]) + 1 else 0
    case Finished => 0
  }

  /** Weak holders that have not given up their count. */
  function Outstanding(b: Block): nat { Left(b) + b.copies + b.loaded }

  predicate Enabled(b: Block, s: Step) {
    match s
    case CopyOwner => b.owners > 0
    case DropOwner => b.owners > 0
    case CopyWeak => b.owners > 0 || b.copies > 0
    case LoadWeak => b.copies > 0
    case SubWeak => b.loaded > 0
    case Destroy => b.destroyer.At?
  }

  /** The load of `release_weak`: a count of 0 frees the block at once. */
  function Freed(b: Block): Block { b.(freed := b.freed + 1) }

  function SubShared(b: Block): Block
    requires b.owners > 0
  {
    var c := b.(shared := b.shared - 1, owners := b.owners - 1);
    if b.shared == 0 then c.(destroyer := At(0, false)) else c
  }

  function SubWeakCount(b: Block): Block {
    var c := b.(weak := b.weak - 1);
    if b.weak == 0 then Freed(c) else c
  }

  /** The destroyer moves on past object `k`, or past the owners' own count. */
  function Onward(b: Block, k: nat): Block { b.(destroyer := if k < |b.weakly| then At(k + 1, false) else Finished) }

  function DestroyStep(b: Block): Block
    requires b.destroyer.At? && b.destroyer.k <= |b.weakly| == |b.destroyed|
  {
    var k := b.destroyer.k;
    if b.destroyer.loaded then Onward(SubWeakCount(b), k)
    else
      var c := if k < |b.weakly| then b.(destroyed := b.destroyed[k := b.destroyed[k] + 1]) else b;
      if k < |b.weakly| && !b.weakly[k] then Onward(c, k)
      else if b.weak == 0 then Freed(Onward(c, k))
      else c.(destroyer := At(k, true))
  }

  predicate Shaped(b: Block) { |b.destroyed| == |b.weakly| && (b.destroyer.At? ==> b.destroyer.k <= |b.weakly|) }

  function Next(b: Block, s: Step): Block
    requires Enabled(b, s) && Shaped(b)
  {
    match s
    case CopyOwner => b.(shared := b.shared + 1, owners := b.owners + 1)
    case DropOwner => SubShared(b)
    case CopyWeak => b.(weak := b.weak + 1, copies := b.copies + 1)
    case LoadWeak =>
      var c := b.(copies := b.copies - 1);
      if b.weak == 0 then Freed(c) else c.(loaded := b.loaded + 1)
    case SubWeak => SubWeakCount(b.(loaded := b.loaded - 1))
    case Destroy => DestroyStep(b)
  }

  // ----- the invariant -----

  /** Objects before the destroyer, and the one it is in, have been destroyed once; no other has. */
  predicate DestroyedOk(b: Block) {
    forall i :: 0 <= i < |b.destroyed| ==>
      b.destroyed[i] == match b.destroyer
                        case Idle => 0
                        case At(k, loaded) => if i < k || (i == k && loaded) then 1 else 0
                        case Finished => 1
  }

  predicate Inv(b: Block) {
    && Shaped(b) && DestroyedOk(b)
    && b.shared == b.owners - 1
    && (b.owners > 0 <==> b.destroyer.Idle?)
    && (b.destroyer.At? && b.destroyer.loaded && b.destroyer.k < |b.weakly| ==> b.weakly[b.destroyer.k])
    && (if b.freed == 0 then b.weak == Outstanding(b) - 1 && Outstanding(b) > 0
        else b.freed == 1 && Outstanding(b) == 0)
  }

  lemma CountFrom(weakly: seq<bool>, k: nat)
    requires k <= |weakly|
    ensures Count(weakly[k..]) == if k == |weakly| then 0 else (if weakly[k] then 1 else 0) + Count(weakly[k + 1..])
  {
    if k < |weakly| { assert weakly[k..][1..] == weakly[k + 1..]; }
  }

  lemma MadeOk(weakly: seq<bool>)
    ensures Inv(Made(weakly))
  {
  }

  lemma DestroyKept(b: Block)
    requires Inv(b) && b.destroyer.At?
    ensures Inv(DestroyStep(b))
  {
    CountFrom(b.weakly, b.destroyer.k);
    hide Count;
  }

  /** Every step keeps the invariant, whoever takes it. */
  lemma StepKept(b: Block, s: Step)
    requires Inv(b) && Enabled(b, s)
    ensures Inv(Next(b, s))
  {
    if s.Destroy? { DestroyKept(b); }
    if s.DropOwner? { assert b.weakly[0..] == b.weakly; }
    hide Count, DestroyStep;
  }

  predicate IsRun(b: Block, ss: seq<Step>, c: Block)
    decreases |ss|
  {
    if ss == [] then c == b else Enabled(b, ss[0]) && Shaped(b) && IsRun(Next(b, ss[0]), ss[1..], c)
  }

  lemma {:induction false} RunKept(b: Block, ss: seq<Step>, c: Block)
    requires Inv(b) && IsRun(b, ss, c)
    ensures Inv(c)
    decreases |ss|
  {
    hide Inv, Next, Enabled;
    if ss != [] {
      StepKept(b, ss[0]);
      RunKept(Next(b, ss[0]), ss[1..], c);
    }
  }

  // ----- the guarantees -----

  /** In every interleaving: no object is destroyed twice, nor while an owner is left; the block is
      freed at most once, only after every object, and when nobody who would touch it is left. */
  lemma Safety(weakly: seq<bool>, ss: seq<Step>, b: Block)
    requires IsRun(Made(weakly), ss, b)
    ensures forall i :: 0 <= i < |b.destroyed| ==> b.destroyed[i] <= 1 && (b.destroyed[i] == 1 ==> b.owners == 0)
    ensures b.freed <= 1
    ensures b.freed == 1 ==>
        (forall i :: 0 <= i < |b.destroyed| ==> b.destroyed[i] == 1) && (forall s: Step :: !Enabled(b, s))
  {
    MadeOk(weakly);
    RunKept(Made(weakly), ss, b);
    hide Count;
  }

  /** Steps that give something up. */
  predicate Releases(s: Step) { !s.CopyOwner? && !s.CopyWeak? }

  /** What is left to release, in steps. */
  function Measure(b: Block): int {
    2 * |b.weakly| + 3 + b.owners + 2 * b.copies + b.loaded - Progressed(b)
  }

  function Progressed(b: Block): nat {
    match b.destroyer
    case Idle => 0
    case At(k, loaded) => 2 * k + (if loaded then 1 else 0)
    case Finished => 2 * |b.weakly| + 2
  }

  /** Releasing comes to an end. */
  lemma ReleaseSmaller(b: Block, s: Step)
    requires Inv(b) && Enabled(b, s) && Releases(s)
    ensures 0 <= Measure(Next(b, s)) < Measure(b)
  {
    hide Count, Outstanding, DestroyedOk;
  }

  /** Where nothing is left to release, everything has been destroyed and freed, each exactly once. */
  lemma AllReleased(weakly: seq<bool>, ss: seq<Step>, b: Block)
    requires IsRun(Made(weakly), ss, b) && forall s: Step :: Enabled(b, s) ==> !Releases(s)
    ensures b.freed == 1 && |b.destroyed| == |b.weakly| && forall i :: 0 <= i < |b.destroyed| ==> b.destroyed[i] == 1
  {
    MadeOk(weakly);
    RunKept(Made(weakly), ss, b);
    assert !Enabled(b, DropOwner) && !Enabled(b, Destroy) && !Enabled(b, LoadWeak) && !Enabled(b, SubWeak);
    hide Count;
  }

  // ----- the counters as an object -----

  /** The counters of `shared_weak_count`; each method is one atomic access. */
  class Counters {
    var shared: int
    var weak: int

    constructor ()
      ensures shared == 0 && weak == 0
    {
      shared, weak := 0, 0;
    }

    /** `add_shared`, by the holder of an owner. */
    method AddShared(ghost b: Block)
      requires Inv(b) && Enabled(b, CopyOwner) && b.shared == shared
      modifies `shared
      ensures shared == Next(b, CopyOwner).shared && Next(b, CopyOwner).owners == shared + 1
    {
      shared := shared + 1;
    }

    /** `add_weak`, by the holder of an object or of a copy. */
    method AddWeak(ghost b: Block)
      requires Inv(b) && Enabled(b, CopyWeak) && b.weak == weak
      modifies `weak
      ensures weak == Next(b, CopyWeak).weak && (b.freed == 0 ==> Outstanding(Next(b, CopyWeak)) == weak + 1)
    {
      weak := weak + 1;
    }

    /** The access of `release_shared`, for a block in state `b`. */
    method ReleaseShared(ghost b: Block) returns (zero: bool)
      requires Inv(b) && b.owners > 0 && b.shared == shared
      modifies `shared
      ensures shared == Next(b, DropOwner).shared && (zero <==> Next(b, DropOwner).destroyer == At(0, false))
      ensures zero <==> b.owners == 1
    {
      zero := shared == 0;
      shared := shared - 1;
    }

    /** The load of `release_weak`. */
    method LoadWeak(ghost b: Block) returns (last: bool)
      requires Inv(b) && Enabled(b, Step.LoadWeak) && b.weak == weak
      ensures last <==> Next(b, Step.LoadWeak).freed == 1
      ensures last <==> Outstanding(b) == 1
    {
      last := weak == 0;
    }

    /** The subtraction of `release_weak`. */
    method SubWeak(ghost b: Block) returns (last: bool)
      requires Inv(b) && Enabled(b, Step.SubWeak) && b.weak == weak
      modifies `weak
      ensures weak == Next(b, Step.SubWeak).weak && (last <==> Next(b, Step.SubWeak).freed == 1)
      ensures last <==> Outstanding(b) == 1
    {
      last := weak == 0;
      weak := weak - 1;
    }
  }
}
