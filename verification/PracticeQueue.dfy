/**
  The unbounded practice queue and its demo.  push notifies after its unlock, pop waits on the one
  condition variable, shutdown notifies all: the protocol of the rejecting pool with consumer
  threads as workers, where a worker's task is the value a consumer holds between two pops, and a
  rejected submission is a push dropped after the stop.  So the pool's states and events are reused
  and its theorems hold here; what is added is what the demo checks with its single consumer.
*/
module PracticeQueue {
  import opened Prelude
  import opened ThreadPool

  /** The only consumer handles values in the order of their tickets. */
  ghost predicate InOrder<T>(s: State<T>) {
    && (forall i :: 0 <= i < |s.finished| ==> s.finished[i].ticket == i)
    && (forall w :: w in s.busy && w in s.job ==> s.job[w].ticket == |s.finished|)
  }

  lemma OneAtATime<T>(s: State<T>, w: Wid)
    requires Placed(s) && Covered(s) && s.workers == 1
    requires w in s.ready || w in s.woken
    ensures s.taken == |s.finished|
  {
    assert w == 0;
    assert forall v :: v in s.busy ==> v == 0;
    assert s.busy == {};
  }

  lemma StepInOrder<T>(s: State<T>, e: Event<T>)
    requires Placed(s) && Covered(s) && s.workers == 1 && InOrder(s) && Enabled(s, e)
    ensures InOrder(Apply(s, e))
  {
    if e.Enter? {
      OneAtATime(s, e.w);
      assert e.w == 0;
      assert forall v :: v in s.busy ==> v == 0;
    } else if e.Finish? {
      assert forall v :: v in s.busy ==> v == 0 == e.w;
    }
  }

  lemma {:induction false} PathInOrder<T>(s: State<T>, es: seq<Event<T>>, s': State<T>)
    requires Inv(s) && s.workers == 1 && InOrder(s) && Path(s, es, s')
    ensures InOrder(s')
    decreases |es|
  {
    hide Placed, Covered, Tickets, Queued, NoLostWakeup, InOrder;
    if es != [] {
      StepInOrder(s, es[0]);
      StepKeepsInv(s, es[0]);
      PathInOrder(Apply(s, es[0]), es[1..], s');
    }
  }

  /** The values consumed so far, in order. */
  ghost function Consumed<T>(s: State<T>): seq<T> {
    seq(|s.finished|, i requires 0 <= i < |s.finished| => s.finished[i].task)
  }

  lemma StartInOrder<T>(s: State<T>)
    requires s == Init(true, 1)
    ensures Inv(s) && s.workers == 1 && InOrder(s)
  {
  }

  lemma JobsArePrefix<T>(s: State<T>)
    requires Jobs(s) && InOrder(s) && |s.finished| <= |s.accepted|
    ensures Consumed(s) <= s.accepted
  {
    forall i | 0 <= i < |s.finished| ensures Consumed(s)[i] == s.accepted[i] {
      assert IsJob(s, s.finished[i]);
    }
  }

  lemma FinishedFits<T>(s: State<T>)
    requires Covered(s) && Queued(s)
    ensures |s.finished| <= |s.accepted|
  {
  }

  /** A single consumer receives, at every moment of every run, a prefix of what was pushed. */
  lemma ConsumedIsPrefix<T>(es: seq<Event<T>>, s: State<T>)
    requires Path(Init(true, 1), es, s)
    ensures Consumed(s) <= s.accepted
  {
    hide Path, Init, Placed, NoLostWakeup, Queued, Covered, Jobs, InOrder, Consumed;
    StartInOrder(Init<T>(true, 1));
    Reachable(true, 1, es, s);
    PathInOrder(Init(true, 1), es, s);
    FinishedFits(s);
    JobsArePrefix(s);
  }

  /** The producer stops pushing before it shuts the queue down. */
  ghost predicate PushesBeforeShutdown<T>(es: seq<Event<T>>) {
    forall i, j :: 0 <= i < j < |es| && es[i].Stop? ==> !es[j].Submit?
  }

  lemma {:induction false} NothingDropped<T>(s: State<T>, es: seq<Event<T>>, s': State<T>)
    requires Path(s, es, s') && PushesBeforeShutdown(es)
    requires s.stopped ==> forall j :: 0 <= j < |es| ==> !es[j].Submit?
    ensures s'.rejected == s.rejected
    ensures |s'.accepted| == |s.accepted| + Submits(es)
    decreases |es|
  {
    if es != [] {
      var s1 := Apply(s, es[0]);
      assert forall j :: 0 <= j < |es[1..]| ==> es[1..][j] == es[j + 1];
      NothingDropped(s1, es[1..], s');
    }
  }

  /**
    The demo passes: with one consumer and a shutdown after the last push, once both threads have
    been joined the consumer has every pushed value in order, the queue is empty and nothing was
    dropped.
  */
  lemma DemoPasses<T>(es: seq<Event<T>>, s: State<T>)
    requires Path(Init(true, 1), es, s) && AllExited(s) && PushesBeforeShutdown(es)
    ensures Consumed(s) == s.accepted && |s.accepted| == Submits(es)
    ensures s.tasks == [] && s.rejected == 0
  {
    ExactlyOnce(1, es, s);
    ConsumedIsPrefix(es, s);
    NothingDropped(Init(true, 1), es, s);
  }

  datatype PopResult = Waits | Fails | Gets(value: int)

  class DropQueue {
    var queue: seq<int>
    var stopped: bool
    var droppedAfterStop: nat
    /** Threads, owed notifications and history; the three fields above are not read from it. */
    ghost var view: State<int>

    ghost function Abs(): State<int>
      reads this
    {
      view.(tasks := queue, stopped := stopped, rejected := droppedAfterStop)
    }

    constructor (ghost consumers: nat)
      ensures Abs() == Init(true, consumers)
    {
      queue, stopped, droppedAfterStop := [], false, 0;
      view := Init(true, consumers);
    }

    /** push up to the release of the lock. */
    method Push(value: int) returns (ok: bool)
      requires Abs().rejects
      modifies this
      ensures Abs() == Apply(old(Abs()), Submit(value))
      ensures ok <==> queue == old(queue) + [value]
    {
      view := view.(attempts := view.attempts + 1);
      if stopped {
        droppedAfterStop := droppedAfterStop + 1;
        return false;
      }
      queue := queue + [value];
      view := view.(accepted := view.accepted + [value], owed := view.owed + 1);
      return true;
    }

    /** pop: entry, or re-entry after a wake-up; tests the predicate, then waits or returns. */
    method PopSection(ghost c: Wid) returns (r: PopResult)
      requires c in Abs().ready || c in Abs().woken
      modifies this
      ensures Abs() == Apply(old(Abs()), Enter(c))
      ensures r == if old(queue) != [] then Gets(old(queue)[0]) else if old(stopped) then Fails else Waits
    {
      view := view.(ready := view.ready - {c}, woken := view.woken - {c});
      if !(stopped || queue != []) {
        view := view.(asleep := view.asleep + {c});
        return Waits;
      }
      if queue == [] {
        view := view.(exited := view.exited + {c});
        return Fails;
      }
      r := Gets(queue[0]);
      view := view.(busy := view.busy + {c}, job := view.job[c := Job(view.taken, queue[0])],
                    taken := view.taken + 1);
      queue := queue[1..];
    }

    /** shutdown up to the release of the lock. */
    method Shutdown()
      modifies this
      ensures Abs() == Apply(old(Abs()), Stop)
    {
      view := view.(owedAll := view.owedAll + 1,
                    acceptedAtStop := if stopped then view.acceptedAtStop else |view.accepted|);
      stopped := true;
    }
  }
}
