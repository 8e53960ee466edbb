/**
  The two thread pools: one condition variable, workers that sleep on it, and a submit that
  calls notify_one after it has released the lock.  `rejects` tells them apart: the practice pool
  refuses tasks once it is stopped, the chat server's pool still queues them.

  Each locked section is one event, and so is each notification, each completed task and each
  spurious wake-up.  `owed` counts the submit calls between their unlock and their notify_one.
  A task is followed by its ticket, its position among the accepted submissions.
*/
module ThreadPool {
  import opened Prelude

  type Wid = nat

  datatype Job<T> = Job(ticket: nat, task: T)

  datatype State<T> = State(
    rejects: bool,
    workers: nat,
    tasks: seq<T>,
    stopped: bool,
    rejected: nat,
    ready: set<Wid>,           // about to take the lock
    asleep: set<Wid>,          // blocked in cv_.wait
    woken: set<Wid>,           // woken, lock not yet re-acquired
    busy: set<Wid>,            // outside the lock, executing its job
    job: map<Wid, Job<T>>,     // the last task each worker took
    exited: set<Wid>,
    owed: nat,
    owedAll: nat,              // stops between their unlock and their notify_all
    attempts: nat,
    accepted: seq<T>,
    acceptedAtStop: nat,
    taken: nat,
    finished: seq<Job<T>>)

  datatype Event<T> =
    | Submit(x: T)
    | NotifyOne(pick: Option<Wid>)
    | Enter(w: Wid)            // the locked section of workerLoop, first time or after waking
    | Finish(w: Wid)
    | Stop
    | NotifyAll
    | Spurious(w: Wid)

  ghost function Init<T>(rejects: bool, workers: nat): State<T> {
    State(rejects, workers, [], false, 0, Ids(0, workers), {}, {}, {}, map[], {}, 0, 0, 0, [], 0, 0, [])
  }

  predicate Enabled<T>(s: State<T>, e: Event<T>) {
    match e
    case Submit(_) => true
    case NotifyOne(w) =>
      s.owed > 0 && if s.asleep == {} then w == None else w.Some? && w.value in s.asleep
    case Enter(w) => w in s.ready || w in s.woken
    case Finish(w) => w in s.busy && w in s.job
    case Stop => true
    case NotifyAll => s.owedAll > 0
    case Spurious(w) => w in s.asleep
  }

  function Apply<T>(s: State<T>, e: Event<T>): State<T>
    requires Enabled(s, e)
  {
    match e
    case Submit(x) =>
      if s.stopped && s.rejects then
        s.(attempts := s.attempts + 1, rejected := s.rejected + 1)
      else
        s.(attempts := s.attempts + 1, tasks := s.tasks + [x], accepted := s.accepted + [x],
           owed := s.owed + 1)
    case NotifyOne(w) =>
      if w.Some? then
        s.(owed := s.owed - 1, asleep := s.asleep - {w.value}, woken := s.woken + {w.value})
      else
        s.(owed := s.owed - 1)
    case Enter(w) =>
      if !s.stopped && s.tasks == [] then
        s.(ready := s.ready - {w}, woken := s.woken - {w}, asleep := s.asleep + {w})
      else if s.tasks == [] then
        s.(ready := s.ready - {w}, woken := s.woken - {w}, exited := s.exited + {w})
      else
        s.(ready := s.ready - {w}, woken := s.woken - {w},
            tasks := s.tasks[1..], taken := s.taken + 1,
            busy := s.busy + {w}, job := s.job[w := Job(s.taken, s.tasks[0])])
    case Finish(w) =>
      s.(busy := s.busy - {w}, ready := s.ready + {w}, finished := s.finished + [s.job[w]])
    case Stop =>
      s.(stopped := true, owedAll := s.owedAll + 1,
          acceptedAtStop := if s.stopped then s.acceptedAtStop else |s.accepted|)
    case NotifyAll =>
      s.(asleep := {}, woken := s.woken + s.asleep, owedAll := s.owedAll - 1)
    case Spurious(w) =>
      s.(asleep := s.asleep - {w}, woken := s.woken + {w})
  }

  ghost predicate Path<T>(s: State<T>, es: seq<Event<T>>, s': State<T>)
    decreases |es|
  {
    if es == [] then s' == s
    else Enabled(s, es[0]) && Path(Apply(s, es[0]), es[1..], s')
  }

  // ---------------------------------------------------------------- what every step keeps

  ghost predicate Placed<T>(s: State<T>) {
    && s.ready !! s.asleep !! s.woken !! s.exited !! s.busy
    && (forall w: Wid :: w < s.workers <==>
          w in s.ready || w in s.asleep || w in s.woken || w in s.exited || w in s.busy)
  }

  /**
    No lost wake-up.  Before the stop, while a worker sleeps, the woken workers and the owed
    notifications are at least as many as the queued tasks; after it, a sleeper implies that the
    destructor still owes its notify_all.
  */
  ghost predicate NoLostWakeup<T>(s: State<T>) {
    && (!s.stopped ==> s.owedAll == 0 && (s.asleep != {} ==> |s.woken| + s.owed >= |s.tasks|))
    && (s.stopped && s.asleep != {} ==> s.owedAll > 0)
  }

  /** The queue is the accepted tasks not yet taken; a worker exits only after a drained stop. */
  ghost predicate Queued<T>(s: State<T>) {
    && s.taken <= |s.accepted| && s.tasks == s.accepted[s.taken..]
    && s.attempts == |s.accepted| + s.rejected
    && (s.exited != {} ==> s.stopped && s.taken >= s.acceptedAtStop)
    && (s.stopped ==> s.acceptedAtStop <= |s.accepted|)
    && (s.stopped && s.rejects ==> s.acceptedAtStop == |s.accepted|)
    && (!s.rejects || !s.stopped ==> s.rejected == 0)
  }

  ghost predicate Done<T>(s: State<T>, k: nat) {
    exists i :: 0 <= i < |s.finished| && s.finished[i].ticket == k
  }

  ghost predicate InProgress<T>(s: State<T>, k: nat) {
    exists w :: w in s.busy && w in s.job && s.job[w].ticket == k
  }

  ghost predicate IsJob<T>(s: State<T>, j: Job<T>) {
    j.ticket < s.taken && j.ticket < |s.accepted| && j.task == s.accepted[j.ticket]
  }

  /** The task a worker runs, or has run, is the one its ticket stands for. */
  ghost predicate Jobs<T>(s: State<T>) {
    && (forall w :: w in s.busy ==> w in s.job && IsJob(s, s.job[w]))
    && (forall i :: 0 <= i < |s.finished| ==> IsJob(s, s.finished[i]))
  }

  /** Every taken ticket is in exactly one place: with one worker, or once among the finished. */
  ghost predicate Tickets<T>(s: State<T>) {
    && Jobs(s)
    && (forall w, v :: w in s.busy && v in s.busy && s.job[w].ticket == s.job[v].ticket ==> w == v)
    && (forall w, i :: w in s.busy && 0 <= i < |s.finished| ==>
          s.job[w].ticket != s.finished[i].ticket)
    && (forall i, j :: 0 <= i < j < |s.finished| ==> s.finished[i].ticket != s.finished[j].ticket)
  }

  /** No taken ticket is forgotten. */
  ghost predicate Covered<T>(s: State<T>) {
    && (forall k: nat :: k < s.taken ==> Done(s, k) || InProgress(s, k))
    && |s.finished| + |s.busy| == s.taken
  }

  ghost predicate Inv<T>(s: State<T>) {
    Placed(s) && NoLostWakeup(s) && Queued(s) && Tickets(s) && Covered(s)
  }

  lemma StepPlaced<T>(s: State<T>, e: Event<T>)
    requires Placed(s) && Enabled(s, e)
    ensures Placed(Apply(s, e))
  {
  }

  lemma EnterWakeup<T>(s: State<T>, w: Wid)
    requires NoLostWakeup(s) && Enabled(s, Enter(w))
    ensures NoLostWakeup(Apply(s, Enter(w)))
  {
    assert |s.woken - {w}| >= |s.woken| - 1;
  }

  lemma StepWakeup<T>(s: State<T>, e: Event<T>)
    requires Placed(s) && NoLostWakeup(s) && Enabled(s, e)
    ensures NoLostWakeup(Apply(s, e))
  {
    match e
    case Enter(w) => EnterWakeup(s, w);
    case NotifyOne(w) => if w.Some? { assert |s.woken + {w.value}| == |s.woken| + 1; }
    case Spurious(w) => assert |s.woken + {w}| == |s.woken| + 1;
    case _ =>
  }

  lemma StepQueued<T>(s: State<T>, e: Event<T>)
    requires Queued(s) && Enabled(s, e)
    ensures Queued(Apply(s, e))
  {
    if e.Submit? && !(s.stopped && s.rejects) {
      assert (s.accepted + [e.x])[s.taken..] == s.accepted[s.taken..] + [e.x];
    } else if e.Enter? && s.tasks != [] {
      assert s.accepted[s.taken..][1..] == s.accepted[s.taken + 1..];
    }
  }

  lemma TakeTickets<T>(s: State<T>, w: Wid)
    requires Queued(s) && Tickets(s) && Enabled(s, Enter(w)) && w !in s.busy && s.tasks != []
    ensures Tickets(Apply(s, Enter(w)))
  {
    var s' := Apply(s, Enter(w));
    assert s'.busy == s.busy + {w};
    assert s'.job[w] == Job(s.taken, s.accepted[s.taken]);
    assert Jobs(s');
  }

  lemma TakeCovers<T>(s: State<T>, w: Wid)
    requires Covered(s) && Enabled(s, Enter(w)) && w !in s.busy && s.tasks != []
    ensures Covered(Apply(s, Enter(w)))
  {
    var s' := Apply(s, Enter(w));
    forall k: nat | k < s'.taken ensures Done(s', k) || InProgress(s', k) {
      if k == s.taken {
        assert s'.job[w].ticket == k;
      } else if !Done(s, k) {
        var v :| v in s.busy && v in s.job && s.job[v].ticket == k;
        assert v in s'.busy && s'.job[v].ticket == k;
      }
    }
  }

  lemma FinishTickets<T>(s: State<T>, w: Wid)
    requires Tickets(s) && w in s.busy
    ensures Tickets(Apply(s, Finish(w)))
  {
    assert Jobs(Apply(s, Finish(w)));
  }

  lemma FinishCovers<T>(s: State<T>, w: Wid)
    requires Covered(s) && w in s.busy && w in s.job
    ensures Covered(Apply(s, Finish(w)))
  {
    var s' := Apply(s, Finish(w));
    forall k: nat | k < s'.taken ensures Done(s', k) || InProgress(s', k) {
      if Done(s, k) {
        var i :| 0 <= i < |s.finished| && s.finished[i].ticket == k;
        assert s'.finished[i].ticket == k;
      } else {
        var v :| v in s.busy && v in s.job && s.job[v].ticket == k;
        if v == w {
          assert s'.finished[|s.finished|].ticket == k;
        } else {
          assert v in s'.busy && s'.job[v].ticket == k;
        }
      }
    }
  }

  lemma SameTickets<T>(s: State<T>, s': State<T>)
    requires Tickets(s) && Covered(s)
    requires s'.busy == s.busy && s'.job == s.job && s'.finished == s.finished && s'.taken == s.taken
    requires s.accepted <= s'.accepted
    ensures Tickets(s') && Covered(s')
  {
    forall k: nat | k < s'.taken ensures Done(s', k) || InProgress(s', k) {
      assert Done(s, k) || InProgress(s, k);
    }
  }

  lemma StepTickets<T>(s: State<T>, e: Event<T>)
    requires Placed(s) && Queued(s) && Tickets(s) && Covered(s) && Enabled(s, e)
    ensures Tickets(Apply(s, e)) && Covered(Apply(s, e))
  {
    hide Tickets, Covered, Queued;
    if e.Enter? && s.tasks != [] {
      TakeTickets(s, e.w);
      TakeCovers(s, e.w);
    } else if e.Finish? {
      FinishTickets(s, e.w);
      FinishCovers(s, e.w);
    } else {
      SameTickets(s, Apply(s, e));
    }
  }

  lemma StepKeepsInv<T>(s: State<T>, e: Event<T>)
    requires Inv(s) && Enabled(s, e)
    ensures Inv(Apply(s, e))
  {
    StepPlaced(s, e);
    StepWakeup(s, e);
    StepQueued(s, e);
    StepTickets(s, e);
  }

  lemma {:induction false} PathKeepsInv<T>(s: State<T>, es: seq<Event<T>>, s': State<T>)
    requires Inv(s) && Path(s, es, s')
    ensures Inv(s') && s'.workers == s.workers && s'.rejects == s.rejects
    decreases |es|
  {
    hide Queued, Tickets, Covered, NoLostWakeup, Placed, Jobs;
    if es != [] {
      StepKeepsInv(s, es[0]);
      PathKeepsInv(Apply(s, es[0]), es[1..], s');
    }
  }

  lemma Reachable<T>(rejects: bool, workers: nat, es: seq<Event<T>>, s: State<T>)
    requires Path(Init(rejects, workers), es, s)
    ensures Inv(s) && s.workers == workers && s.rejects == rejects
  {
    PathKeepsInv(Init(rejects, workers), es, s);
  }

  // ---------------------------------------------------------------- progress

  /** The pool's own work: not a new submission, not the start of the destructor, not chance. */
  predicate Internal<T>(e: Event<T>) {
    e.NotifyOne? || e.Enter? || e.Finish? || e.NotifyAll?
  }

  ghost predicate Quiescent<T(!new)>(s: State<T>) {
    forall e: Event<T> :: Internal(e) ==> !Enabled(s, e)
  }

  /** Unless the lock, every task and every notification is at rest, something internal can happen. */
  lemma SomethingToDo<T(!new)>(s: State<T>) returns (e: Event<T>)
    requires forall w :: w in s.busy ==> w in s.job
    requires s.ready + s.woken + s.busy != {} || s.owed > 0 || s.owedAll > 0
    ensures Internal(e) && Enabled(s, e)
  {
    if s.ready + s.woken != {} {
      var w :| w in s.ready + s.woken;
      e := Enter(w);
    } else if s.busy != {} {
      var w :| w in s.busy;
      e := Finish(w);
    } else if s.owedAll > 0 {
      e := NotifyAll;
    } else if s.asleep == {} {
      e := NotifyOne(None);
    } else {
      var w :| w in s.asleep;
      e := NotifyOne(Some(w));
    }
  }

  lemma QuiescentPlaces<T(!new)>(s: State<T>)
    requires Quiescent(s) && forall w :: w in s.busy ==> w in s.job
    ensures s.ready + s.woken + s.busy == {} && s.owed == 0 && s.owedAll == 0
  {
    if s.ready + s.woken + s.busy != {} || s.owed > 0 || s.owedAll > 0 {
      var e := SomethingToDo(s);
      assert false;
    }
  }

  ghost predicate AllExited<T>(s: State<T>) {
    forall w: Wid :: w < s.workers ==> w in s.exited
  }

  /**
    An open pool with workers never rests with work in the queue: once nothing internal can
    happen, all workers sleep and every accepted task has been taken and finished.
  */
  lemma IdleMeansDrained<T(!new)>(rejects: bool, workers: nat, es: seq<Event<T>>, s: State<T>)
    requires workers > 0 && Path(Init(rejects, workers), es, s)
    requires !s.stopped && Quiescent(s)
    ensures s.tasks == [] && (forall w: Wid :: w < workers ==> w in s.asleep) && |s.finished| == |s.accepted|
  {
    Reachable(rejects, workers, es, s);
    QuiescentPlaces(s);
    assert 0 in s.asleep;
  }

  /** After the stop the pool cannot hang: once nothing internal can happen all workers have left. */
  lemma ShutdownCompletes<T(!new)>(rejects: bool, workers: nat, es: seq<Event<T>>, s: State<T>)
    requires Path(Init(rejects, workers), es, s)
    requires s.stopped && Quiescent(s)
    ensures AllExited(s)
  {
    Reachable(rejects, workers, es, s);
    QuiescentPlaces(s);
  }

  ghost function Measure<T>(s: State<T>): nat {
    2 * |s.tasks| + 2 * s.owed + 2 * |s.busy| + |s.ready| + |s.woken|
    + s.owedAll * (s.workers + 1)
  }

  lemma AsleepFits<T>(s: State<T>)
    requires Placed(s)
    ensures |s.asleep| <= s.workers
  {
    SubsetCount(s.asleep, Ids(0, s.workers));
  }

  /** What an event may add to the measure. */
  function Cost<T>(workers: nat, e: Event<T>): int {
    match e
    case Submit(_) => 4
    case Stop => workers + 1
    case Spurious(_) => 1
    case _ => -1
  }

  lemma EnterCost<T>(s: State<T>, w: Wid)
    requires s.ready !! s.woken && w !in s.busy && Enabled(s, Enter(w))
    ensures Measure(Apply(s, Enter(w))) <= Measure(s) - 1
  {
    assert |s.ready - {w}| + |s.woken - {w}| == |s.ready| + |s.woken| - 1 by {
      if w in s.ready { assert s.woken - {w} == s.woken; } else { assert s.ready - {w} == s.ready; }
    }
    assert |s.busy + {w}| == |s.busy| + 1;
  }

  lemma OneMore(n: nat, w: nat)
    ensures (n + 1) * w == n * w + w
  {
  }

  lemma NotifyAllCost<T>(s: State<T>)
    requires Placed(s) && Enabled(s, NotifyAll)
    ensures Measure(Apply(s, NotifyAll)) <= Measure(s) - 1
  {
    AsleepFits(s);
    assert |s.woken + s.asleep| == |s.woken| + |s.asleep|;
    OneMore(s.owedAll - 1, s.workers + 1);
  }

  lemma OtherCost<T>(s: State<T>, e: Event<T>)
    requires s.asleep !! s.woken && s.busy !! s.ready && Enabled(s, e)
    requires !e.Enter? && !e.NotifyAll? && !e.Stop?
    ensures Measure(Apply(s, e)) <= Measure(s) + Cost(s.workers, e)
  {
    if e.Finish? {
      assert |s.busy - {e.w}| == |s.busy| - 1;
    }
  }

  lemma StepCost<T>(s: State<T>, e: Event<T>)
    requires Placed(s) && Enabled(s, e)
    ensures Measure(Apply(s, e)) <= Measure(s) + Cost(s.workers, e) && Apply(s, e).workers == s.workers
  {
    match e
    case Enter(w) => EnterCost(s, w);
    case NotifyAll => NotifyAllCost(s);
    case Stop => OneMore(s.owedAll, s.workers + 1);
    case _ => OtherCost(s, e);
  }

  function Internals<T>(es: seq<Event<T>>): nat {
    if es == [] then 0 else (if Internal(es[0]) then 1 else 0) + Internals(es[1..])
  }

  function Stops<T>(es: seq<Event<T>>): nat {
    if es == [] then 0 else (if es[0].Stop? then 1 else 0) + Stops(es[1..])
  }

  function Submits<T>(es: seq<Event<T>>): nat {
    if es == [] then 0 else (if es[0].Submit? then 1 else 0) + Submits(es[1..])
  }

  function Chances<T>(es: seq<Event<T>>): nat {
    if es == [] then 0 else (if es[0].Spurious? then 1 else 0) + Chances(es[1..])
  }

  lemma {:induction false} PathCost<T>(s: State<T>, es: seq<Event<T>>, s': State<T>)
    requires Placed(s) && Path(s, es, s')
    ensures Internals(es) + Measure(s') <=
            Measure(s) + Stops(es) * (s.workers + 1) + 4 * Submits(es) + Chances(es)
    decreases |es|
  {
    hide Placed, Measure, Apply, Enabled;
    if es != [] {
      OneMore(Stops(es[1..]), s.workers + 1);
      StepPlaced(s, es[0]);
      StepCost(s, es[0]);
      PathCost(Apply(s, es[0]), es[1..], s');
    }
  }

  /**
    Total work of any run: W workers and n submissions cause at most W + 4n internal events, plus
    W + 1 for each stop and one for each spurious wake-up; a destructor stops once.  So with
    terminating tasks the joins return.
  */
  lemma WorkIsBounded<T>(rejects: bool, workers: nat, es: seq<Event<T>>, s: State<T>)
    requires Path(Init(rejects, workers), es, s)
    ensures Internals(es) <= workers + Stops(es) * (workers + 1) + 4 * Submits(es) + Chances(es)
    ensures Stops(es) <= 1 ==> Internals(es) <= 2 * workers + 1 + 4 * Submits(es) + Chances(es)
  {
    PathCost(Init(rejects, workers), es, s);
  }

  // ---------------------------------------------------------------- exactly once

  /** Ticket k has run exactly once, as the task that was submitted k-th. */
  ghost predicate RanOnce<T>(s: State<T>, k: nat) {
    && k < |s.accepted|
    && exists i :: 0 <= i < |s.finished| && s.finished[i] == Job(k, s.accepted[k])
                && forall j :: 0 <= j < |s.finished| && j != i ==> s.finished[j].ticket != k
  }

  lemma TakenRanOnce<T>(s: State<T>, k: nat)
    requires Tickets(s) && Covered(s) && s.busy == {} && k < s.taken
    ensures RanOnce(s, k)
  {
    assert Done(s, k) || InProgress(s, k);
    var i :| 0 <= i < |s.finished| && s.finished[i].ticket == k;
    assert IsJob(s, s.finished[i]);
  }

  /**
    When the joins have returned, each task submitted before the stop has run exactly once.
    Holds for both pools.
  */
  lemma EarlyTasksRanOnce<T>(rejects: bool, workers: nat, es: seq<Event<T>>, s: State<T>, k: nat)
    requires workers > 0 && Path(Init(rejects, workers), es, s)
    requires AllExited(s) && k < s.acceptedAtStop
    ensures RanOnce(s, k)
  {
    Reachable(rejects, workers, es, s);
    assert 0 in s.exited;
    assert s.busy == {};
    TakenRanOnce(s, k);
  }

  /**
    Exactly-once execution of the rejecting pool: when the joins have returned, nothing is
    queued, each accepted task has run exactly once, nothing else has run, and accepted plus
    rejected is the number of submissions.
  */
  lemma ExactlyOnce<T>(workers: nat, es: seq<Event<T>>, s: State<T>)
    requires workers > 0 && Path(Init(true, workers), es, s) && AllExited(s)
    ensures s.tasks == [] && |s.finished| == |s.accepted|
    ensures forall k: nat :: k < |s.accepted| ==> RanOnce(s, k)
    ensures s.attempts == |s.accepted| + s.rejected
  {
    Reachable(true, workers, es, s);
    assert 0 in s.exited;
    assert s.busy == {};
    forall k: nat | k < |s.accepted| ensures RanOnce(s, k) {
      EarlyTasksRanOnce(true, workers, es, s, k);
    }
  }

  /** Tasks leave the queue in submission order: the k-th to be taken is the k-th accepted. */
  lemma TakenInOrder<T>(rejects: bool, workers: nat, es: seq<Event<T>>, s: State<T>, w: Wid)
    requires Path(Init(rejects, workers), es, s)
    requires Enabled(s, Enter(w)) && s.tasks != []
    ensures s.taken < |s.accepted| && w in Apply(s, Enter(w)).job
    ensures Apply(s, Enter(w)).job[w] == Job(s.taken, s.accepted[s.taken])
  {
    Reachable(rejects, workers, es, s);
  }

  /** The tasks accepted when every worker has already left, in order. */
  ghost function Late<T>(s: State<T>, es: seq<Event<T>>): seq<T>
    decreases |es|
  {
    if es == [] || !Enabled(s, es[0]) then []
    else
      (if AllExited(s) && es[0].Submit? && !(s.stopped && s.rejects) then [es[0].x] else [])
      + Late(Apply(s, es[0]), es[1..])
  }

  /** The last worker leaves an empty queue, and what is accepted afterwards stays. */
  lemma StepLate<T>(s: State<T>, e: Event<T>)
    requires Placed(s) && Enabled(s, e)
    ensures AllExited(s) ==> AllExited(Apply(s, e))
    ensures AllExited(s) ==>
              Apply(s, e).tasks == s.tasks + if e.Submit? && !(s.stopped && s.rejects) then [e.x] else []
    ensures !AllExited(s) && AllExited(Apply(s, e)) ==> Apply(s, e).tasks == []
  {
    hide Path;
  }

  lemma {:induction false} PathLate<T>(s: State<T>, es: seq<Event<T>>, s': State<T>)
    requires Placed(s) && Path(s, es, s')
    ensures AllExited(s') ==> s'.tasks == (if AllExited(s) then s.tasks else []) + Late(s, es)
    decreases |es|
  {
    hide Placed, Apply, Enabled, AllExited;
    if es != [] {
      StepPlaced(s, es[0]);
      StepLate(s, es[0]);
      PathLate(Apply(s, es[0]), es[1..], s');
    }
  }

  lemma RanOnceIsTaken<T>(s: State<T>, k: nat)
    requires Tickets(s) && Covered(s) && Queued(s) && s.busy == {}
    ensures RanOnce(s, k) <==> k < s.taken
  {
    if k < s.taken {
      TakenRanOnce(s, k);
    } else {
      assert forall i :: 0 <= i < |s.finished| ==> IsJob(s, s.finished[i]);
    }
  }

  /**
    Exactly when a task of either pool is lost: once the joins have returned, the tasks left in the
    queue are those accepted after the last worker had left, and all others have run exactly once.
  */
  lemma LostExactlyWhenLate<T>(rejects: bool, workers: nat, es: seq<Event<T>>, s: State<T>, k: nat)
    requires workers > 0 && Path(Init(rejects, workers), es, s) && AllExited(s)
    requires k < |s.accepted|
    ensures s.tasks == Late(Init(rejects, workers), es)
    ensures RanOnce(s, k) <==> k < |s.accepted| - |Late(Init(rejects, workers), es)|
  {
    var start: State<T> := Init(rejects, workers);
    Reachable(rejects, workers, es, s);
    assert 0 in s.exited && s.busy == {};
    RanOnceIsTaken(s, k);
    assert !AllExited(start) by { assert 0 !in start.exited; }
    PathLate(start, es, s);
  }

  lemma PathFrom<T>(s: State<T>, e: Event<T>, es: seq<Event<T>>, s': State<T>)
    requires Enabled(s, e) && Path(Apply(s, e), es, s')
    ensures Path(s, [e] + es, s')
  {
    assert ([e] + es)[1..] == es;
  }

  /**
    The pool without rejection gives no such promise for later submissions: here the only worker
    has left and a task stays queued for ever.
  */
  lemma LateTaskIsLost<T(!new)>(x: T) returns (es: seq<Event<T>>, s: State<T>)
    ensures Path(Init(false, 1), es, s) && Quiescent(s)
    ensures AllExited(s) && s.tasks == [x] && s.accepted == [x] && s.finished == []
  {
    var s0: State<T> := Init(false, 1);
    var s1 := Apply(s0, Stop);
    var s2 := Apply(s1, NotifyAll);
    var s3 := Apply(s2, Enter(0));
    var s4 := Apply(s3, Submit(x));
    s := Apply(s4, NotifyOne(None));
    assert AllExited(s) && s.tasks == [x] && Quiescent(s);
    hide Apply, Enabled;
    PathFrom(s4, NotifyOne(None), [], s);
    PathFrom(s3, Submit(x), [NotifyOne(None)], s);
    PathFrom(s2, Enter(0), [Submit(x)] + [NotifyOne(None)], s);
    PathFrom(s1, NotifyAll, [Enter(0)] + ([Submit(x)] + [NotifyOne(None)]), s);
    es := [Stop] + ([NotifyAll] + ([Enter(0)] + ([Submit(x)] + [NotifyOne(None)])));
    PathFrom(s0, Stop, [NotifyAll] + ([Enter(0)] + ([Submit(x)] + [NotifyOne(None)])), s);
  }

  // ---------------------------------------------------------------- the class

  datatype Section<T> = Blocked | Exit | Run(task: T)

  class Pool<T> {
    const rejects: bool
    const workers: nat
    var tasks: seq<T>
    var stopped: bool
    var rejected: nat

    ghost var ready: set<Wid>
    ghost var asleep: set<Wid>
    ghost var woken: set<Wid>
    ghost var busy: set<Wid>
    ghost var job: map<Wid, Job<T>>
    ghost var exited: set<Wid>
    ghost var owed: nat
    ghost var owedAll: nat
    ghost var attempts: nat
    ghost var accepted: seq<T>
    ghost var acceptedAtStop: nat
    ghost var taken: nat
    ghost var finished: seq<Job<T>>

    ghost function Abs(): State<T>
      reads this
    {
      State(rejects, workers, tasks, stopped, rejected, ready, asleep, woken, busy, job, exited,
            owed, owedAll, attempts, accepted, acceptedAtStop, taken, finished)
    }

    constructor (rejects: bool, workers: nat)
      ensures Abs() == Init(rejects, workers)
    {
      this.rejects, this.workers := rejects, workers;
      tasks, stopped, rejected := [], false, 0;
      ready, asleep, woken, busy, job, exited := Ids(0, workers), {}, {}, {}, map[], {};
      owed, owedAll, attempts := 0, 0, 0;
      accepted, acceptedAtStop, taken, finished := [], 0, 0, [];
    }

    /** submit up to the release of the lock; an accepted call still owes its notify_one. */
    method Submit(x: T) returns (ok: bool)
      modifies this
      ensures Abs() == Apply(old(Abs()), Event.Submit(x))
      ensures ok <==> accepted == old(accepted) + [x]
    {
      attempts := attempts + 1;
      if stopped && rejects {
        rejected := rejected + 1;
        return false;
      }
      tasks, accepted := tasks + [x], accepted + [x];
      owed := owed + 1;
      return true;
    }

    ghost method SubmitNotifyOne() returns (w: Option<Wid>)
      requires owed > 0
      modifies this
      ensures Enabled(old(Abs()), NotifyOne(w)) && Abs() == Apply(old(Abs()), NotifyOne(w))
    {
      owed := owed - 1;
      w := None;
      if asleep != {} {
        var c :| c in asleep;
        w := Some(c);
        asleep, woken := asleep - {c}, woken + {c};
      }
    }

    ghost method Sleep(w: Wid)
      modifies this`ready, this`woken, this`asleep
      ensures Abs() == old(Abs()).(ready := old(ready) - {w}, woken := old(woken) - {w},
                                   asleep := old(asleep) + {w})
    {
      ready, woken, asleep := ready - {w}, woken - {w}, asleep + {w};
    }

    ghost method Leave(w: Wid)
      modifies this`ready, this`woken, this`exited
      ensures Abs() == old(Abs()).(ready := old(ready) - {w}, woken := old(woken) - {w},
                                   exited := old(exited) + {w})
    {
      ready, woken, exited := ready - {w}, woken - {w}, exited + {w};
    }

    ghost method Take(w: Wid)
      requires tasks != []
      modifies this`ready, this`woken, this`busy, this`job, this`taken
      ensures Abs() == old(Abs()).(ready := old(ready) - {w}, woken := old(woken) - {w},
                                   busy := old(busy) + {w}, taken := old(taken) + 1,
                                   job := old(job)[w := Job(old(taken), tasks[0])])
    {
      ready, woken, busy := ready - {w}, woken - {w}, busy + {w};
      job, taken := job[w := Job(taken, tasks[0])], taken + 1;
    }

    /** The locked section of workerLoop. */
    method WorkerSection(ghost w: Wid) returns (r: Section<T>)
      requires w in ready || w in woken
      modifies this
      ensures Abs() == Apply(old(Abs()), Enter(w))
      ensures r == if old(tasks) != [] then Run(old(tasks)[0]) else if old(stopped) then Exit else Blocked
    {
      if !(stopped || tasks != []) {
        Sleep(w);
        r := Blocked;
      } else if stopped && tasks == [] {
        Leave(w);
        r := Exit;
      } else {
        r := Run(tasks[0]);
        Take(w);
        tasks := tasks[1..];
      }
    }

    /** The task has returned; the worker goes back to the head of its loop. */
    ghost method TaskReturned(w: Wid)
      requires w in busy && w in job
      modifies this
      ensures Abs() == Apply(old(Abs()), Finish(w))
    {
      finished, ready := finished + [job[w]], ready + {w};
      busy := busy - {w};
    }

    /** The destructor up to the release of the lock. */
    method DestructorStop()
      modifies this
      ensures Abs() == Apply(old(Abs()), Stop)
    {
      if !stopped {
        acceptedAtStop := |accepted|;
      }
      stopped, owedAll := true, owedAll + 1;
    }

    ghost method DestructorNotifyAll()
      requires owedAll > 0
      modifies this
      ensures Abs() == Apply(old(Abs()), NotifyAll)
    {
      asleep, woken, owedAll := {}, woken + asleep, owedAll - 1;
    }
  }
}
