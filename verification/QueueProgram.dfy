/**
  The demo program around the bounded queue: producer threads push their frames, consumer
  threads pop until pop fails, and main joins the producers, shuts the queue down and joins the
  consumers.  The numbers of threads, the frames and the capacity are arbitrary.

  Thread ids: producers 0 .. P-1, consumers P .. P+C-1, main P+C.  The two counters are bumped
  by a thread between two of its own queue operations and read only after all joins, so a bump is
  part of the operation it follows.
*/
module QueueProgram {
  import opened Prelude
  import opened BoundedQueue

  datatype Stage = JoinProducers | CloseQueue | WakeProducers | WakeConsumers | JoinConsumers | Done

  datatype Program<T> = Program(
    queue: State<T>,
    left: seq<seq<T>>,        // per producer: the frames it has not pushed yet
    exitedP: set<Tid>,
    consumers: nat,
    exitedC: set<Tid>,
    stage: Stage,
    produced: nat,
    consumed: nat)

  datatype Move =
    | Produce(t: Tid, w: Option<Tid>)
    | ProducerReturns(t: Tid)
    | Consume(t: Tid, w: Option<Tid>)
    | MainStep
    | WakesByChanceP(t: Tid)
    | WakesByChanceC(t: Tid)

  function Start<T>(cap: nat, frames: seq<seq<T>>, consumers: nat): Program<T> {
    Program(Init(cap), frames, {}, consumers, {}, JoinProducers, 0, 0)
  }

  ghost predicate IsConsumer<T>(p: Program<T>, t: Tid) {
    |p.left| <= t < |p.left| + p.consumers
  }

  ghost predicate AllProducersReturned<T>(p: Program<T>) {
    forall t: Tid :: t < |p.left| ==> t in p.exitedP
  }

  ghost predicate AllConsumersReturned<T>(p: Program<T>) {
    forall t: Tid :: IsConsumer(p, t) ==> t in p.exitedC
  }

  function Main<T>(p: Program<T>): Tid { |p.left| + p.consumers }

  /** The queue operation a move of the program performs, if any. */
  function QueueEvent<T>(p: Program<T>, m: Move): Option<Event<T>> {
    match m
    case Produce(t, w) =>
      if t < |p.left| && p.left[t] != [] then Some(Push(t, p.left[t][0], w)) else None
    case ProducerReturns(_) => None
    case Consume(t, w) => Some(Pop(t, w))
    case MainStep =>
      (match p.stage
       case CloseQueue => Some(Close(Main(p)))
       case WakeProducers => Some(NotifyNotFull(Main(p)))
       case WakeConsumers => Some(NotifyNotEmpty(Main(p)))
       case _ => None)
    case WakesByChanceP(t) => Some(SpuriousP(t))
    case WakesByChanceC(t) => Some(SpuriousC(t))
  }

  ghost predicate CanMove<T>(p: Program<T>, m: Move) {
    && (QueueEvent(p, m).Some? ==> Enabled(p.queue, QueueEvent(p, m).value))
    && match m
       case Produce(t, _) =>
         t < |p.left| && t !in p.exitedP && p.left[t] != [] && t !in p.queue.asleepP
       case ProducerReturns(t) =>
         t < |p.left| && t !in p.exitedP && p.left[t] == []
       case Consume(t, _) =>
         IsConsumer(p, t) && t !in p.exitedC && t !in p.queue.asleepC
       case MainStep =>
         && p.stage != Done
         && (p.stage == JoinProducers ==> AllProducersReturned(p))
         && (p.stage == JoinConsumers ==> AllConsumersReturned(p))
       case _ => true
  }

  function NextStage(s: Stage): Stage {
    match s
    case JoinProducers => CloseQueue
    case CloseQueue => WakeProducers
    case WakeProducers => WakeConsumers
    case WakeConsumers => JoinConsumers
    case JoinConsumers => Done
    case Done => Done
  }

  ghost function MoveTo<T>(p: Program<T>, m: Move): Program<T>
    requires CanMove(p, m)
  {
    var queue' := if QueueEvent(p, m).Some? then Apply(p.queue, QueueEvent(p, m).value) else p.queue;
    var p' := p.(queue := queue');
    match m
    case Produce(t, _) =>
      if p.queue.closed then p'.(exitedP := p.exitedP + {t})
      else if |p.queue.q| < p.queue.cap then
        p'.(left := p.left[t := p.left[t][1..]], produced := p.produced + 1)
      else p'
    case ProducerReturns(t) => p'.(exitedP := p.exitedP + {t})
    case Consume(t, _) =>
      if p.queue.q != [] then p'.(consumed := p.consumed + 1)
      else if p.queue.closed then p'.(exitedC := p.exitedC + {t})
      else p'
    case MainStep => p'.(stage := NextStage(p.stage))
    case _ => p'
  }

  ghost predicate Runs<T>(p: Program<T>, ms: seq<Move>, p': Program<T>)
    decreases |ms|
  {
    if ms == [] then p' == p
    else CanMove(p, ms[0]) && Runs(MoveTo(p, ms[0]), ms[1..], p')
  }

  function Frames<T>(left: seq<seq<T>>): nat {
    if left == [] then 0 else |left[0]| + Frames(left[1..])
  }

  lemma {:induction false} FramesAfterPush<T>(left: seq<seq<T>>, t: nat)
    requires t < |left| && left[t] != []
    ensures Frames(left[t := left[t][1..]]) == Frames(left) - 1
  {
    var left' := left[t := left[t][1..]];
    if t == 0 {
      assert left'[1..] == left[1..];
    } else {
      assert left'[1..] == left[1..][t - 1 := left[1..][t - 1][1..]];
      FramesAfterPush(left[1..], t - 1);
    }
  }

  lemma {:induction false} NoFramesLeft<T>(left: seq<seq<T>>)
    ensures Frames(left) == 0 <==> forall t :: 0 <= t < |left| ==> left[t] == []
  {
    if left != [] {
      NoFramesLeft(left[1..]);
      assert (forall t :: 0 <= t < |left[1..]| ==> left[1..][t] == []) ==>
             left[0] == [] ==> forall t :: 0 <= t < |left| ==> left[t] == [] by {
        if (forall t :: 0 <= t < |left[1..]| ==> left[1..][t] == []) && left[0] == [] {
          forall t | 0 <= t < |left| ensures left[t] == [] {
            if t > 0 { assert left[t] == left[1..][t - 1]; }
          }
        }
      }
      assert (forall t :: 0 <= t < |left| ==> left[t] == []) ==>
             forall t :: 0 <= t < |left[1..]| ==> left[1..][t] == left[t + 1] == [];
    }
  }

  // ---------------------------------------------------------------- what every move keeps

  /** Only producers that have not returned are inside push, and with their next frame. */
  ghost predicate ProducersInPush<T>(p: Program<T>) {
    && (forall t :: t in p.queue.asleepP || t in p.queue.wokenP ==> t < |p.left| && t !in p.exitedP)
    && (forall t :: t in p.queue.arg ==>
          t < |p.left| && p.left[t] != [] && p.left[t][0] == p.queue.arg[t])
  }

  ghost predicate ConsumersInPop<T>(p: Program<T>) {
    forall t :: t in p.queue.asleepC || t in p.queue.wokenC ==>
      IsConsumer(p, t) && t !in p.exitedC
  }

  /** The stage of main says whether the queue is closed and which notify_all is still to come. */
  ghost predicate MainStage<T>(p: Program<T>) {
    && p.queue.owesBoth == (if p.stage == WakeProducers then {Main(p)} else {})
    && p.queue.owesEmpty == (if p.stage == WakeConsumers then {Main(p)} else {})
    && (p.queue.closed <==> p.stage != JoinProducers && p.stage != CloseQueue)
  }

  /** Producers leave only with nothing left, consumers only when the queue is closed and drained. */
  ghost predicate Exits<T>(p: Program<T>) {
    && (forall t :: t in p.exitedP ==> t < |p.left| && p.left[t] == [])
    && (forall t :: t in p.exitedC ==> IsConsumer(p, t))
    && (p.stage != JoinProducers ==> AllProducersReturned(p))
    && (p.exitedC != {} ==> p.queue.closed && p.queue.q == [])
    && (p.stage == Done ==> AllConsumersReturned(p))
  }

  ghost predicate Counts<T>(p: Program<T>, total: nat) {
    && p.produced + Frames(p.left) == total
    && p.produced == p.consumed + |p.queue.q|
  }

  ghost predicate ThreadInv<T>(p: Program<T>) {
    ProducersInPush(p) && ConsumersInPop(p) && MainStage(p) && Exits(p)
  }

  ghost predicate ProgramInv<T>(p: Program<T>, total: nat) {
    Inv(p.queue) && ThreadInv(p) && Counts(p, total)
  }

  lemma StartInv<T>(cap: nat, frames: seq<seq<T>>, consumers: nat)
    ensures ProgramInv(Start(cap, frames, consumers), Frames(frames))
  {
  }

  lemma ProduceKeeps<T>(p: Program<T>, t: Tid, w: Option<Tid>)
    requires Placed(p.queue) && ThreadInv(p) && CanMove(p, Produce(t, w))
    ensures !p.queue.closed
    ensures ThreadInv(MoveTo(p, Produce(t, w)))
  {
    assert p.stage == JoinProducers;
    var p' := MoveTo(p, Produce(t, w));
    assert MainStage(p') && Exits(p');
    assert ProducersInPush(p');
    assert ConsumersInPop(p');
  }

  lemma ConsumeKeeps<T>(p: Program<T>, t: Tid, w: Option<Tid>)
    requires Placed(p.queue) && ThreadInv(p) && CanMove(p, Consume(t, w))
    ensures ThreadInv(MoveTo(p, Consume(t, w)))
  {
    var p' := MoveTo(p, Consume(t, w));
    assert MainStage(p') && Exits(p');
    assert ProducersInPush(p');
    assert ConsumersInPop(p');
  }

  lemma OtherMoveKeeps<T>(p: Program<T>, m: Move)
    requires Placed(p.queue) && ThreadInv(p) && CanMove(p, m) && !m.Produce? && !m.Consume?
    ensures ThreadInv(MoveTo(p, m))
  {
    var p' := MoveTo(p, m);
    assert MainStage(p') && Exits(p');
    assert ProducersInPush(p');
    assert ConsumersInPop(p');
  }

  lemma CountsKept<T>(p: Program<T>, total: nat, m: Move)
    requires Counts(p, total) && CanMove(p, m) && (m.Produce? ==> !p.queue.closed)
    ensures Counts(MoveTo(p, m), total)
  {
    if m.Produce? && |p.queue.q| < p.queue.cap {
      FramesAfterPush(p.left, m.t);
    }
  }

  lemma ThreadsKept<T>(p: Program<T>, m: Move)
    requires Placed(p.queue) && ThreadInv(p) && CanMove(p, m)
    ensures ThreadInv(MoveTo(p, m)) && (m.Produce? ==> !p.queue.closed)
  {
    match m
    case Produce(t, w) => ProduceKeeps(p, t, w);
    case Consume(t, w) => ConsumeKeeps(p, t, w);
    case _ => OtherMoveKeeps(p, m);
  }

  lemma QueueKept<T>(p: Program<T>, m: Move)
    requires Inv(p.queue) && CanMove(p, m)
    ensures Inv(MoveTo(p, m).queue) && MoveTo(p, m).queue.cap == p.queue.cap
  {
    hide Placed, NoLostWakeup, Linearized;
    if QueueEvent(p, m).Some? {
      StepKeepsInv(p.queue, QueueEvent(p, m).value);
    }
  }

  ghost predicate SameShape<T>(p: Program<T>, p': Program<T>) {
    |p'.left| == |p.left| && p'.consumers == p.consumers && p'.queue.cap == p.queue.cap
  }

  lemma ShapeKept<T>(p: Program<T>, m: Move)
    requires CanMove(p, m)
    ensures SameShape(p, MoveTo(p, m))
  {
  }

  lemma MoveKeeps<T>(p: Program<T>, total: nat, m: Move)
    requires ProgramInv(p, total) && CanMove(p, m)
    ensures ProgramInv(MoveTo(p, m), total)
    ensures SameShape(p, MoveTo(p, m))
  {
    hide Placed, NoLostWakeup, Linearized, ThreadInv, Counts, CanMove, QueueEvent, Apply, Frames, Enabled;
    ShapeKept(p, m);
    QueueKept(p, m);
    ThreadsKept(p, m);
    CountsKept(p, total, m);
  }

  lemma {:induction false} RunKeeps<T>(p: Program<T>, total: nat, ms: seq<Move>, p': Program<T>)
    requires ProgramInv(p, total) && Runs(p, ms, p')
    ensures ProgramInv(p', total) && SameShape(p, p')
    decreases |ms|
  {
    if ms != [] {
      MoveKeeps(p, total, ms[0]);
      RunKeeps(MoveTo(p, ms[0]), total, ms[1..], p');
    }
  }

  // ---------------------------------------------------------------- facts about whole runs

  /** When main reaches its end, with at least one consumer, every frame was pushed and popped. */
  lemma AllFramesConsumed<T>(cap: nat, frames: seq<seq<T>>, consumers: nat,
                             ms: seq<Move>, p: Program<T>)
    requires consumers > 0
    requires Runs(Start(cap, frames, consumers), ms, p) && p.stage == Done
    ensures p.produced == p.consumed == Frames(frames)
    ensures p.queue.q == [] && Popped(p.queue.log) == Pushed(p.queue.log)
  {
    StartInv(cap, frames, consumers);
    RunKeeps(Start(cap, frames, consumers), Frames(frames), ms, p);
    assert IsConsumer(p, |p.left|);
    NoFramesLeft(p.left);
    PossibleLogIsFifo(p.queue.cap, p.queue.log);
    assert Popped(p.queue.log) + [] == Popped(p.queue.log);
  }

  /** What thread `t` has pushed, in order. */
  function PushedBy<T>(log: seq<Call<T>>, t: Tid): seq<T> {
    if log == [] then []
    else
      var c := log[|log| - 1];
      PushedBy(log[..|log| - 1], t) + if c.PushOk? && c.t == t then [c.x] else []
  }

  ghost predicate Accounted<T>(p: Program<T>, frames: seq<seq<T>>) {
    && |p.left| == |frames|
    && forall t :: 0 <= t < |frames| ==> PushedBy(p.queue.log, t) + p.left[t] == frames[t]
  }

  lemma PushedByAppend<T>(log: seq<Call<T>>, c: Call<T>, t: Tid)
    ensures PushedBy(log + [c], t) == PushedBy(log, t) + if c.PushOk? && c.t == t then [c.x] else []
  {
    assert (log + [c])[..|log|] == log;
  }

  lemma MoveAccounted<T>(p: Program<T>, frames: seq<seq<T>>, m: Move)
    requires Accounted(p, frames) && CanMove(p, m)
    ensures Accounted(MoveTo(p, m), frames)
  {
    hide PushedBy;
    var p' := MoveTo(p, m);
    forall t | 0 <= t < |frames|
      ensures PushedBy(p'.queue.log, t) + p'.left[t] == frames[t]
    {
      if p'.queue.log != p.queue.log {
        var c := p'.queue.log[|p.queue.log|];
        assert p'.queue.log == p.queue.log + [c];
        PushedByAppend(p.queue.log, c, t);
      }
    }
  }

  lemma {:induction false} RunAccounted<T>(p: Program<T>, frames: seq<seq<T>>, ms: seq<Move>, p': Program<T>)
    requires Accounted(p, frames) && Runs(p, ms, p')
    ensures Accounted(p', frames)
    decreases |ms|
  {
    if ms != [] {
      MoveAccounted(p, frames, ms[0]);
      RunAccounted(MoveTo(p, ms[0]), frames, ms[1..], p');
    }
  }

  /**
    Nothing is lost, repeated or reordered within a producer: at the end everything that was
    pushed has been popped in the same order, and what producer t pushed is exactly its frames.
  */
  lemma EveryFrameDelivered<T>(cap: nat, frames: seq<seq<T>>, consumers: nat,
                               ms: seq<Move>, p: Program<T>, t: Tid)
    requires consumers > 0 && t < |frames|
    requires Runs(Start(cap, frames, consumers), ms, p) && p.stage == Done
    ensures Popped(p.queue.log) == Pushed(p.queue.log)
    ensures PushedBy(p.queue.log, t) == frames[t]
  {
    var start := Start(cap, frames, consumers);
    StartInv(cap, frames, consumers);
    RunKeeps(start, Frames(frames), ms, p);
    RunAccounted(start, frames, ms, p);
    AllFramesConsumed(cap, frames, consumers, ms, p);
    assert t in p.exitedP;
    assert PushedBy(p.queue.log, t) + [] == PushedBy(p.queue.log, t);
  }

  predicate ByChance(m: Move) { m.WakesByChanceP? || m.WakesByChanceC? }

  lemma ConsumeMove<T>(p: Program<T>, t: Tid) returns (m: Move)
    requires IsConsumer(p, t) && t !in p.exitedC && t !in p.queue.asleepC
    requires t !in InCall(p.queue) || t in p.queue.wokenC
    ensures CanMove(p, m) && m.Consume?
  {
    var s := p.queue;
    if s.q != [] && s.asleepP != {} {
      var w :| w in s.asleepP;
      m := Consume(t, Some(w));
    } else {
      m := Consume(t, None);
    }
  }

  lemma ProduceMove<T>(p: Program<T>, t: Tid) returns (m: Move)
    requires t < |p.left| && t !in p.exitedP && t !in p.queue.asleepP && p.left[t] != []
    requires t !in InCall(p.queue) ||
             (t in p.queue.wokenP && t in p.queue.arg && p.queue.arg[t] == p.left[t][0])
    ensures CanMove(p, m) && m.Produce?
  {
    var s := p.queue;
    if !s.closed && |s.q| < s.cap && s.asleepC != {} {
      var w :| w in s.asleepC;
      m := Produce(t, Some(w));
    } else {
      m := Produce(t, None);
    }
  }

  /** A consumer that is neither asleep nor finished can always go on. */
  lemma AwakeConsumerMoves<T>(p: Program<T>, t: Tid) returns (m: Move)
    requires Placed(p.queue) && ThreadInv(p)
    requires IsConsumer(p, t) && t !in p.exitedC && t !in p.queue.asleepC
    ensures CanMove(p, m) && m.Consume?
  {
    assert t !in InCall(p.queue) || t in p.queue.wokenC;
    m := ConsumeMove(p, t);
  }

  lemma AwakeProducerMoves<T>(p: Program<T>, t: Tid) returns (m: Move)
    requires Placed(p.queue) && ThreadInv(p)
    requires t < |p.left| && t !in p.exitedP && t !in p.queue.asleepP
    ensures CanMove(p, m) && !ByChance(m)
  {
    if p.left[t] == [] {
      m := ProducerReturns(t);
    } else {
      assert t !in InCall(p.queue) || (t in p.queue.wokenP && t in p.queue.arg);
      m := ProduceMove(p, t);
    }
  }

  /** A producer sleeps and none is on its way: the queue is full, so some consumer is awake. */
  lemma FullQueueHasAwakeConsumer<T>(p: Program<T>) returns (c: Tid)
    requires NoLostWakeup(p.queue) && !p.queue.closed && p.exitedC == {} && ConsumersInPop(p)
    requires Placed(p.queue)
    requires p.queue.asleepP != {} && p.queue.wokenP == {}
    requires p.queue.cap > 0 && p.consumers > 0
    ensures IsConsumer(p, c) && c !in p.queue.asleepC
  {
    assert |p.queue.q| == p.queue.cap;
    c := |p.left|;
    if c in p.queue.asleepC {
      assert |p.queue.wokenC| > 0;
      c :| c in p.queue.wokenC;
    }
  }

  lemma SomeoneMovesBeforeClose<T>(p: Program<T>, t: Tid) returns (m: Move)
    requires Placed(p.queue) && NoLostWakeup(p.queue) && ThreadInv(p)
    requires p.stage == JoinProducers && t < |p.left| && t !in p.exitedP
    requires p.queue.cap > 0 && p.consumers > 0
    ensures CanMove(p, m) && !ByChance(m)
  {
    hide CanMove, NoLostWakeup, ConsumersInPop;
    if t !in p.queue.asleepP {
      m := AwakeProducerMoves(p, t);
    } else if p.queue.wokenP != {} {
      var u :| u in p.queue.wokenP;
      m := AwakeProducerMoves(p, u);
    } else {
      var c := FullQueueHasAwakeConsumer(p);
      m := AwakeConsumerMoves(p, c);
    }
  }

  lemma NobodySleepsAtTheEnd<T>(s: State<T>)
    requires NoLostWakeup(s) && s.closed && s.owesBoth == {} && s.owesEmpty == {}
    ensures s.asleepC == {}
  {
  }

  /** Main is held up only by a join. */
  lemma MainMoves<T>(p: Program<T>)
    requires ProducersInPush(p) && ConsumersInPop(p) && MainStage(p) && p.stage != Done
    requires p.stage == JoinProducers ==> AllProducersReturned(p)
    requires p.stage == JoinConsumers ==> AllConsumersReturned(p)
    ensures CanMove(p, MainStep)
  {
    if p.stage == CloseQueue {
      assert Main(p) !in InCall(p.queue);
    }
  }

  /** Nothing blocks for ever: until main is done some thread can move without a spurious wake-up. */
  lemma NeverStuck<T>(p: Program<T>, total: nat) returns (m: Move)
    requires ProgramInv(p, total) && p.stage != Done
    requires p.queue.cap > 0 && p.consumers > 0
    ensures CanMove(p, m) && !ByChance(m)
  {
    hide CanMove, Linearized, ProducersInPush, ConsumersInPop, Placed;
    if p.stage == JoinProducers && !AllProducersReturned(p) {
      var t: Tid :| t < |p.left| && t !in p.exitedP;
      m := SomeoneMovesBeforeClose(p, t);
    } else if p.stage == JoinConsumers && !AllConsumersReturned(p) {
      var t: Tid :| IsConsumer(p, t) && t !in p.exitedC;
      NobodySleepsAtTheEnd(p.queue);
      m := AwakeConsumerMoves(p, t);
    } else {
      MainMoves(p);
      m := MainStep;
    }
  }

  // ---------------------------------------------------------------- termination

  /** What main still has ahead; each of its steps pays for waking all `threads`. */
  function StageWeight(s: Stage, threads: nat): nat {
    match s
    case JoinProducers => 5 * threads
    case CloseQueue => 4 * threads
    case WakeProducers => 3 * threads
    case WakeConsumers => 2 * threads
    case JoinConsumers => threads
    case Done => 0
  }

  ghost function Quiet<T>(s: State<T>): nat {
    2 * |s.asleepP| + 2 * |s.asleepC| + |s.wokenP| + |s.wokenC|
  }

  /** Two for each running thread, one for each woken, none for the sleeping and the returned. */
  ghost function Activity<T>(p: Program<T>): int {
    2 * (|p.left| + p.consumers) - 2 * |p.exitedP| - 2 * |p.exitedC| - Quiet(p.queue)
  }

  ghost function Measure<T>(p: Program<T>): int {
    6 * Frames(p.left) + 3 * |p.queue.q| + Activity(p)
    + StageWeight(p.stage, |p.left| + p.consumers + 1)
  }

  lemma ThreeDisjoint(a: set<Tid>, b: set<Tid>, c: set<Tid>, lo: nat, hi: nat)
    requires a !! b !! c && lo <= hi
    requires forall t :: t in a || t in b || t in c ==> lo <= t < hi
    ensures |a| + |b| + |c| <= hi - lo
  {
    SubsetCount(a + b + c, Ids(lo, hi));
    assert |a + b + c| == |a| + |b| + |c|;
  }

  /** A thread is asleep, woken, returned or running, so the first three fit the thread count. */
  lemma ThreadCounts<T>(p: Program<T>)
    requires Placed(p.queue) && ThreadInv(p)
    ensures |p.queue.asleepP| + |p.queue.wokenP| + |p.exitedP| <= |p.left|
    ensures |p.queue.asleepC| + |p.queue.wokenC| + |p.exitedC| <= p.consumers
  {
    ThreeDisjoint(p.queue.asleepP, p.queue.wokenP, p.exitedP, 0, |p.left|);
    ThreeDisjoint(p.queue.asleepC, p.queue.wokenC, p.exitedC, |p.left|, |p.left| + p.consumers);
  }

  /** One waiter wakes, or none sleeps and nothing changes. */
  lemma WakeOneCounts(asleep: set<Tid>, woken: set<Tid>, w: Option<Tid>)
    requires asleep !! woken && Picks(asleep, w)
    ensures 2 * |asleep - Chosen(w)| + |woken + Chosen(w)| >= 2 * |asleep| + |woken| - 1
  {
    if w.Some? {
      assert |asleep - {w.value}| == |asleep| - 1 && |woken + {w.value}| == |woken| + 1;
    } else {
      assert asleep - Chosen(w) == asleep && woken + Chosen(w) == woken;
    }
  }

  lemma LeaveCounts(woken: set<Tid>, t: Tid)
    ensures |woken - {t}| >= |woken| - 1
  {
  }

  lemma PushQuiet<T>(s: State<T>, t: Tid, x: T, w: Option<Tid>)
    requires s.asleepC !! s.wokenC && t !in s.asleepP && !s.closed && Enabled(s, Push(t, x, w))
    ensures Quiet(Apply(s, Push(t, x, w))) >=
            if |s.q| < s.cap then Quiet(s) - 2 else Quiet(s) + 1
  {
    LeaveCounts(s.wokenP, t);
    if |s.q| < s.cap {
      WakeOneCounts(s.asleepC, s.wokenC, w);
    } else {
      assert |s.asleepP + {t}| == |s.asleepP| + 1;
    }
  }

  lemma PopQuiet<T>(s: State<T>, t: Tid, w: Option<Tid>)
    requires s.asleepP !! s.wokenP && t !in s.asleepC && Enabled(s, Pop(t, w))
    ensures Quiet(Apply(s, Pop(t, w))) >=
            if s.q != [] then Quiet(s) - 2 else if s.closed then Quiet(s) - 1 else Quiet(s) + 1
  {
    LeaveCounts(s.wokenC, t);
    if s.q != [] {
      WakeOneCounts(s.asleepP, s.wokenP, w);
    } else if !s.closed {
      assert |s.asleepC + {t}| == |s.asleepC| + 1;
    }
  }

  lemma ProduceCounts<T>(p: Program<T>, t: Tid, w: Option<Tid>)
    requires p.queue.asleepC !! p.queue.wokenC && CanMove(p, Produce(t, w)) && !p.queue.closed
    ensures Measure(MoveTo(p, Produce(t, w))) < Measure(p)
  {
    hide Quiet, Enabled, Frames;
    PushQuiet(p.queue, t, p.left[t][0], w);
    if |p.queue.q| < p.queue.cap {
      FramesAfterPush(p.left, t);
    }
  }

  lemma ConsumeCounts<T>(p: Program<T>, t: Tid, w: Option<Tid>)
    requires p.queue.asleepP !! p.queue.wokenP && CanMove(p, Consume(t, w))
    ensures Measure(MoveTo(p, Consume(t, w))) < Measure(p)
  {
    hide Quiet, Enabled, Frames;
    PopQuiet(p.queue, t, w);
    assert t !in p.exitedC ==> |p.exitedC + {t}| == |p.exitedC| + 1;
  }

  lemma NotifyAllQuiet<T>(s: State<T>, t: Tid)
    requires s.asleepP !! s.wokenP && s.asleepC !! s.wokenC
    ensures Quiet(Apply(s, NotifyNotFull(t))) == Quiet(s) - |s.asleepP|
    ensures Quiet(Apply(s, NotifyNotEmpty(t))) == Quiet(s) - |s.asleepC|
    ensures Quiet(Apply(s, Close(t))) == Quiet(s)
  {
    assert |s.wokenP + s.asleepP| == |s.wokenP| + |s.asleepP|;
    assert |s.wokenC + s.asleepC| == |s.wokenC| + |s.asleepC|;
  }

  lemma MainCounts<T>(p: Program<T>)
    requires p.queue.asleepP !! p.queue.wokenP && p.queue.asleepC !! p.queue.wokenC
    requires |p.queue.asleepP| <= |p.left| && |p.queue.asleepC| <= p.consumers
    requires CanMove(p, MainStep)
    ensures Measure(MoveTo(p, MainStep)) < Measure(p)
  {
    hide Quiet, Frames, Enabled, AllProducersReturned, AllConsumersReturned;
    NotifyAllQuiet(p.queue, Main(p));
  }

  lemma SpuriousQuiet<T>(s: State<T>, t: Tid)
    requires s.asleepP !! s.wokenP && s.asleepC !! s.wokenC
    ensures t in s.asleepP ==> Quiet(Apply(s, SpuriousP(t))) == Quiet(s) - 1
    ensures t in s.asleepC ==> Quiet(Apply(s, SpuriousC(t))) == Quiet(s) - 1
  {
    if t in s.asleepP {
      assert |s.asleepP - {t}| == |s.asleepP| - 1 && |s.wokenP + {t}| == |s.wokenP| + 1;
    }
    if t in s.asleepC {
      assert |s.asleepC - {t}| == |s.asleepC| - 1 && |s.wokenC + {t}| == |s.wokenC| + 1;
    }
  }

  lemma ChanceCounts<T>(p: Program<T>, m: Move)
    requires p.queue.asleepP !! p.queue.wokenP && p.queue.asleepC !! p.queue.wokenC
    requires CanMove(p, m) && ByChance(m)
    ensures Measure(MoveTo(p, m)) == Measure(p) + 1
  {
    hide Quiet, Frames;
    SpuriousQuiet(p.queue, m.t);
  }

  lemma ReturnCounts<T>(p: Program<T>, t: Tid)
    requires CanMove(p, ProducerReturns(t))
    ensures Measure(MoveTo(p, ProducerReturns(t))) < Measure(p)
  {
    assert |p.exitedP + {t}| == |p.exitedP| + 1;
  }

  ghost predicate Drops<T>(p: Program<T>, m: Move)
    requires CanMove(p, m)
  {
    Measure(MoveTo(p, m)) <= Measure(p) + if ByChance(m) then 1 else -1
  }

  lemma MoveCounts<T>(p: Program<T>, m: Move)
    requires Placed(p.queue) && ThreadInv(p) && CanMove(p, m)
    ensures Drops(p, m)
  {
    if m.Produce? {
      ThreadsKept(p, m);
      ProduceCounts(p, m.t, m.w);
    } else if m.ProducerReturns? {
      ReturnCounts(p, m.t);
    } else if m.Consume? {
      ConsumeCounts(p, m.t, m.w);
    } else if m.MainStep? {
      ThreadCounts(p);
      MainCounts(p);
    } else {
      ChanceCounts(p, m);
    }
  }

  function Chances(ms: seq<Move>): nat {
    if ms == [] then 0 else (if ByChance(ms[0]) then 1 else 0) + Chances(ms[1..])
  }

  lemma {:induction false} RunCounts<T>(p: Program<T>, total: nat, ms: seq<Move>, p': Program<T>)
    requires ProgramInv(p, total) && Runs(p, ms, p')
    ensures |ms| + Measure(p') <= Measure(p) + 2 * Chances(ms)
    decreases |ms|
  {
    if ms != [] {
      MoveKeeps(p, total, ms[0]);
      MoveCounts(p, ms[0]);
      RunCounts(MoveTo(p, ms[0]), total, ms[1..], p');
    }
  }

  lemma MeasureIsNat<T>(p: Program<T>)
    requires Placed(p.queue) && ThreadInv(p)
    ensures Measure(p) >= 0
  {
    ThreadCounts(p);
  }

  /**
    Every run is finite unless spurious wake-ups go on for ever: F frames and N producer and
    consumer threads make at most 6F + 7N + 5 moves, plus two for each spurious wake-up.
  */
  lemma RunsAreBounded<T>(cap: nat, frames: seq<seq<T>>, consumers: nat,
                          ms: seq<Move>, p: Program<T>)
    requires Runs(Start(cap, frames, consumers), ms, p)
    ensures |ms| <= 6 * Frames(frames) + 7 * (|frames| + consumers) + 5 + 2 * Chances(ms)
  {
    var start := Start(cap, frames, consumers);
    StartInv(cap, frames, consumers);
    RunCounts(start, Frames(frames), ms, p);
    RunKeeps(start, Frames(frames), ms, p);
    MeasureIsNat(p);
  }

  /**
    The program always finishes: with a positive capacity and at least one consumer, a run in
    which nobody can move any more has every frame pushed and popped and all threads joined.
  */
  lemma AlwaysFinishes<T>(cap: nat, frames: seq<seq<T>>, consumers: nat,
                          ms: seq<Move>, p: Program<T>)
    requires cap > 0 && consumers > 0
    requires Runs(Start(cap, frames, consumers), ms, p)
    requires forall m :: CanMove(p, m) ==> ByChance(m)
    ensures p.stage == Done && AllProducersReturned(p) && AllConsumersReturned(p)
    ensures p.produced == p.consumed == Frames(frames)
  {
    StartInv(cap, frames, consumers);
    RunKeeps(Start(cap, frames, consumers), Frames(frames), ms, p);
    if p.stage != Done {
      var m := NeverStuck(p, Frames(frames));
      assert false;
    }
    AllFramesConsumed(cap, frames, consumers, ms, p);
  }
}
