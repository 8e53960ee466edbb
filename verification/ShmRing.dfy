/**
  The shared-memory ring: a writer process and a reader process, one binary semaphore and two
  counting ones, a slot array and two indices.  Capacity and number of frames are arbitrary.
  Each semaphore operation and each access to the shared region is one step, so the two
  processes interleave between any two of them.
*/
module ShmRing {
  import opened Arithmetic
  import opened Prelude

  datatype LidarFrame = LidarFrame(id: int, distance: real)

  /** The frame the writer makes in iteration i. */
  function FrameOf(i: nat): LidarFrame {
    LidarFrame(i, 1.0 + i as real * 0.1)
  }

  /** Where a process stands in its loop body; AtStart also tests the loop condition. */
  datatype Pc = AtStart | HasSlot | Locked | Copied | Moved | Unlocked

  /** Loop counters i and j count finished iterations of the writer and the reader. */
  datatype State = State(
    total: nat,
    frames: seq<LidarFrame>,
    head: nat,
    tail: nat,
    mutex: nat,
    full: nat,
    empty: nat,
    w: Pc,
    i: nat,
    r: Pc,
    j: nat,
    consumed: seq<LidarFrame>)

  datatype Process = Writer | Reader

  function Capacity(s: State): nat { |s.frames| }

  /** The region after memset to zero and the semaphores as the writer creates them. */
  function Init(capacity: nat, total: nat): State {
    State(total, seq(capacity, _ => LidarFrame(0, 0.0)), 0, 0, 1, 0, capacity,
          AtStart, 0, AtStart, 0, [])
  }

  predicate Enabled(s: State, p: Process) {
    match p
    case Writer =>
      (match s.w
       case AtStart => s.i < s.total && s.empty > 0
       case HasSlot => s.mutex > 0
       case Locked => s.head < |s.frames|
       case Copied => |s.frames| > 0
       case _ => true)
    case Reader =>
      (match s.r
       case AtStart => s.j < s.total && s.full > 0
       case HasSlot => s.mutex > 0
       case Locked => s.tail < |s.frames|
       case Copied => |s.frames| > 0
       case _ => true)
  }

  function Step(s: State, p: Process): State
    requires Enabled(s, p)
  {
    match p
    case Writer =>
      (match s.w
       case AtStart => s.(empty := s.empty - 1, w := HasSlot)
       case HasSlot => s.(mutex := s.mutex - 1, w := Locked)
       case Locked => s.(frames := s.frames[s.head := FrameOf(s.i)], w := Copied)
       case Copied => s.(head := (s.head + 1) % |s.frames|, w := Moved)
       case Moved => s.(mutex := s.mutex + 1, w := Unlocked)
       case Unlocked => s.(full := s.full + 1, w := AtStart, i := s.i + 1))
    case Reader =>
      (match s.r
       case AtStart => s.(full := s.full - 1, r := HasSlot)
       case HasSlot => s.(mutex := s.mutex - 1, r := Locked)
       case Locked => s.(consumed := s.consumed + [s.frames[s.tail]], r := Copied)
       case Copied => s.(tail := (s.tail + 1) % |s.frames|, r := Moved)
       case Moved => s.(mutex := s.mutex + 1, r := Unlocked)
       case Unlocked => s.(empty := s.empty + 1, r := AtStart, j := s.j + 1))
  }

  ghost predicate Path(s: State, ps: seq<Process>, s': State)
    decreases |ps|
  {
    if ps == [] then s' == s
    else Enabled(s, ps[0]) && Path(Step(s, ps[0]), ps[1..], s')
  }

  // ---------------------------------------------------------------- what every step keeps

  /** Between its wait and its post a process holds one unit of its counting semaphore. */
  function Holds(pc: Pc): nat { if pc == AtStart then 0 else 1 }

  predicate InMutex(pc: Pc) { pc == Locked || pc == Copied || pc == Moved }

  function Inside(s: State): nat {
    (if InMutex(s.w) then 1 else 0) + (if InMutex(s.r) then 1 else 0)
  }

  /** Slots are never lost: free, filled, or held by a process between wait and post. */
  predicate Conserved(s: State) {
    s.empty + s.full + Holds(s.w) + Holds(s.r) == Capacity(s)
  }

  predicate Exclusive(s: State) { s.mutex + Inside(s) == 1 }

  /** Frames stored so far, and frames whose slot the reader has left behind. */
  function Written(s: State): nat { s.i + if s.w.Copied? || s.w.Moved? || s.w.Unlocked? then 1 else 0 }

  function HeadSteps(s: State): nat { s.i + if s.w.Moved? || s.w.Unlocked? then 1 else 0 }

  function TailSteps(s: State): nat { s.j + if s.r.Moved? || s.r.Unlocked? then 1 else 0 }

  function Read(s: State): nat { s.j + if s.r.Copied? || s.r.Moved? || s.r.Unlocked? then 1 else 0 }

  predicate Indices(s: State) {
    && Capacity(s) > 0
    && s.head == HeadSteps(s) % Capacity(s)
    && s.tail == TailSteps(s) % Capacity(s)
  }

  /** The counting semaphores in terms of the loop counters. */
  predicate Counted(s: State) {
    && s.full + s.j + Holds(s.r) == s.i
    && s.i + Holds(s.w) <= s.total
    && s.j + Holds(s.r) <= s.total
  }

  /** Every stored frame that is not yet read is still in its slot, and what was read is in order. */
  ghost predicate Contents(s: State) {
    && Capacity(s) > 0
    && (forall k: nat {:trigger FrameOf(k)} :: TailSteps(s) <= k < Written(s) ==>
          s.frames[k % Capacity(s)] == FrameOf(k))
    && |s.consumed| == Read(s)
    && (forall k: nat :: k < |s.consumed| ==> s.consumed[k] == FrameOf(k))
  }

  ghost predicate Inv(s: State) {
    Conserved(s) && Exclusive(s) && Indices(s) && Counted(s) && Contents(s)
  }

  lemma NextRemainder(n: nat, q: nat, m: nat, cap: nat)
    requires m < cap && n == q * cap + m
    ensures (m + 1) % cap == (n + 1) % cap
  {
    if m + 1 < cap {
      Remainder(m + 1, 0, m + 1, cap);
      Remainder(n + 1, q, m + 1, cap);
    } else {
      assert n + 1 == (q + 1) * cap + 0;
      Remainder(m + 1, 1, 0, cap);
      Remainder(n + 1, q + 1, 0, cap);
    }
  }

  lemma NextIndex(n: nat, cap: nat)
    requires cap > 0
    ensures (n % cap + 1) % cap == (n + 1) % cap
  {
    NextRemainder(n, n / cap, n % cap, cap);
  }

  /** Frames less than a capacity apart live in different slots. */
  lemma DifferentSlots(k: nat, n: nat, cap: nat)
    requires k < n < k + cap
    ensures k % cap != n % cap
  {
    var a, b := k / cap, n / cap;
    assert n - k == (b * cap - a * cap) + (n % cap - k % cap);
    assert b * cap - a * cap == (b - a) * cap;
    if b - a >= 1 {
      AtLeastOne(b - a, cap);
    } else if a - b >= 1 {
      AtLeastOne(a - b, cap);
      assert (a - b) * cap == -((b - a) * cap);
    }
  }

  /** The slot the writer is about to fill holds no frame that is still to be read. */
  lemma WriteKeepsContents(s: State)
    requires Inv(s) && s.w == Locked && Enabled(s, Writer)
    ensures Contents(Step(s, Writer))
  {
    var s' := Step(s, Writer);
    var cap := Capacity(s);
    assert s.i < TailSteps(s) + cap;
    forall k: nat {:trigger FrameOf(k)} | TailSteps(s') <= k < Written(s')
      ensures s'.frames[k % cap] == FrameOf(k)
    {
      if k < s.i {
        DifferentSlots(k, s.i, cap);
        assert s.frames[k % cap] == FrameOf(k);
      }
    }
  }

  /** The slot the reader is about to copy holds the frame of its iteration. */
  lemma SlotOfTail(s: State)
    requires Inv(s) && s.r == Locked
    ensures s.tail < |s.frames| && s.frames[s.tail] == FrameOf(s.j)
  {
    assert s.frames[s.j % Capacity(s)] == FrameOf(s.j);
  }

  lemma ReadKeepsContents(s: State)
    requires Inv(s) && s.r == Locked && Enabled(s, Reader)
    ensures Contents(Step(s, Reader))
  {
    assert s.frames[s.j % Capacity(s)] == FrameOf(s.j);
  }

  lemma StepKeepsContents(s: State, p: Process)
    requires Inv(s) && Enabled(s, p)
    ensures Contents(Step(s, p))
  {
    if p == Writer && s.w == Locked {
      WriteKeepsContents(s);
    } else if p == Reader && s.r == Locked {
      ReadKeepsContents(s);
    }
  }

  lemma StepKeepsIndices(s: State, p: Process)
    requires Indices(s) && Enabled(s, p)
    ensures Indices(Step(s, p))
  {
    NextIndex(HeadSteps(s), Capacity(s));
    NextIndex(TailSteps(s), Capacity(s));
  }

  lemma StepKeepsInv(s: State, p: Process)
    requires Inv(s) && Enabled(s, p)
    ensures Inv(Step(s, p))
    ensures Capacity(Step(s, p)) == Capacity(s) && Step(s, p).total == s.total
  {
    hide Contents, Indices;
    StepKeepsContents(s, p);
    StepKeepsIndices(s, p);
  }

  function StepsLeft(pc: Pc): int {
    match pc
    case AtStart => 0
    case HasSlot => -1
    case Locked => -2
    case Copied => -3
    case Moved => -4
    case Unlocked => -5
  }

  /** Steps still to be made by both processes: six for each iteration. */
  function Work(s: State): int {
    6 * (s.total - s.i) + StepsLeft(s.w) + 6 * (s.total - s.j) + StepsLeft(s.r)
  }

  lemma StepWorks(s: State, p: Process)
    requires Enabled(s, p)
    ensures Work(Step(s, p)) == Work(s) - 1
  {
  }

  lemma {:induction false} PathKeepsInv(s: State, ps: seq<Process>, s': State)
    requires Inv(s) && Path(s, ps, s')
    ensures Inv(s') && Capacity(s') == Capacity(s) && s'.total == s.total
    ensures Work(s') + |ps| == Work(s)
    decreases |ps|
  {
    if ps != [] {
      StepKeepsInv(s, ps[0]);
      StepWorks(s, ps[0]);
      PathKeepsInv(Step(s, ps[0]), ps[1..], s');
    }
  }

  // ---------------------------------------------------------------- progress

  predicate Finished(s: State) {
    s.w == AtStart && s.i == s.total && s.r == AtStart && s.j == s.total
  }

  /** No deadlock: as long as frames are missing one of the two processes can make a step. */
  lemma SomeoneCanStep(s: State) returns (p: Process)
    requires Inv(s) && !Finished(s)
    ensures Enabled(s, p)
  {
    if InMutex(s.w) || s.w == Unlocked || (s.w == HasSlot && s.mutex > 0) {
      p := Writer;
    } else if InMutex(s.r) || s.r == Unlocked || (s.r == HasSlot && s.mutex > 0) {
      p := Reader;
    } else if s.full > 0 && s.j < s.total {
      p := Reader;
    } else {
      p := Writer;
    }
  }

  // ---------------------------------------------------------------- facts about whole runs

  lemma InitInv(capacity: nat, total: nat)
    requires capacity > 0
    ensures Inv(Init(capacity, total))
  {
  }

  /**
    At every point of every run: free, filled and held slots add up to the capacity, at most one
    process is inside the mutex, and the frames read so far are the first ones written, in order.
  */
  lemma RingSafety(capacity: nat, total: nat, ps: seq<Process>, s: State)
    requires capacity > 0 && Path(Init(capacity, total), ps, s)
    ensures s.empty + s.full + Holds(s.w) + Holds(s.r) == capacity
    ensures !(InMutex(s.w) && InMutex(s.r))
    ensures |s.consumed| <= Written(s)
    ensures forall k: nat :: k < |s.consumed| ==>
              s.consumed[k].id == k && s.consumed[k].distance == 1.0 + 0.1 * (k as real)
  {
    InitInv(capacity, total);
    PathKeepsInv(Init(capacity, total), ps, s);
  }

  /**
    Every run ends, after exactly twelve steps for each frame, with all frames consumed in order,
    the indices equal and all slots free.
  */
  lemma RingProgress(capacity: nat, total: nat, ps: seq<Process>, s: State)
    requires capacity > 0 && Path(Init(capacity, total), ps, s)
    ensures |ps| <= 12 * total
    ensures (forall p :: !Enabled(s, p)) <==> |ps| == 12 * total
    ensures |ps| == 12 * total ==>
              && |s.consumed| == total
              && (forall k: nat :: k < total ==>
                    s.consumed[k].id == k && s.consumed[k].distance == 1.0 + 0.1 * (k as real))
              && s.head == s.tail == total % capacity
              && s.empty == capacity && s.full == 0 && s.mutex == 1
  {
    InitInv(capacity, total);
    PathKeepsInv(Init(capacity, total), ps, s);
    if forall p :: !Enabled(s, p) {
      if !Finished(s) {
        var p := SomeoneCanStep(s);
        assert false;
      }
    }
    assert Work(s) >= 0;
    assert Work(s) == 0 <==> Finished(s);
  }

  // ---------------------------------------------------------------- the shared region in memory

  /** The mapped region with the loop bodies of the two processes, one shared access at a time. */
  class SharedRegion {
    const frames: array<LidarFrame>
    var head: nat
    var tail: nat
    ghost const total: nat
    var mutex: nat
    var full: nat
    var empty: nat
    var w: Pc
    var i: nat
    var r: Pc
    var j: nat
    ghost var consumed: seq<LidarFrame>

    ghost function Abs(): State
      reads this, frames
    {
      State(total, frames[..], head, tail, mutex, full, empty, w, i, r, j, consumed)
    }

    constructor (capacity: nat, total: nat)
      ensures Abs() == Init(capacity, total)
      ensures fresh(frames)
    {
      frames := new LidarFrame[capacity](_ => LidarFrame(0, 0.0));
      head, tail, this.total := 0, 0, total;
      mutex, full, empty := 1, 0, capacity;
      w, i, r, j, consumed := AtStart, 0, AtStart, 0, [];
    }

    method WriterStep()
      requires Enabled(Abs(), Writer)
      modifies this, frames
      ensures Abs() == Step(old(Abs()), Writer)
      ensures old(w) == Locked ==> frames[old(head)] == LidarFrame(old(i), 1.0 + 0.1 * (old(i) as real))
    {
      match w
      case AtStart => empty, w := empty - 1, HasSlot;
      case HasSlot => mutex, w := mutex - 1, Locked;
      case Locked =>
        frames[head] := LidarFrame(i, 1.0 + i as real * 0.1);
        w := Copied;
      case Copied => head, w := (head + 1) % frames.Length, Moved;
      case Moved => mutex, w := mutex + 1, Unlocked;
      case Unlocked => full, w, i := full + 1, AtStart, i + 1;
    }

    /** In every state that a run can reach, the frame taken is the one of the reader's iteration. */
    method ReaderStep() returns (frame: Option<LidarFrame>)
      requires Enabled(Abs(), Reader)
      modifies this
      ensures Abs() == Step(old(Abs()), Reader)
      ensures frame == if old(r) == Locked then Some(old(frames[tail])) else None
      ensures old(Inv(Abs())) && frame.Some? ==>
                frame.value.id == old(j) && frame.value.distance == 1.0 + 0.1 * (old(j) as real)
    {
      if r == Locked && Inv(Abs()) {
        SlotOfTail(Abs());
      }
      frame := None;
      match r
      case AtStart => full, r := full - 1, HasSlot;
      case HasSlot => mutex, r := mutex - 1, Locked;
      case Locked =>
        frame := Some(frames[tail]);
        consumed, r := consumed + [frames[tail]], Copied;
      case Copied => tail, r := (tail + 1) % frames.Length, Moved;
      case Moved => mutex, r := mutex + 1, Unlocked;
      case Unlocked => empty, r, j := empty + 1, AtStart, j + 1;
    }
  }
}
