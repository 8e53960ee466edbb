/**
  The bounded multi-producer multi-consumer queue.

  Every section of code that runs under `mtx_` is one atomic event.  The kernel's side of the
  two condition variables is explicit: for each of them the threads asleep in `wait`, and the
  threads that were woken (by a notification or spuriously) and must still re-acquire the lock.
  `shutdown` notifies after it has released the lock, so its two `notify_all` calls are events of
  their own and a caller may be interrupted before either.
*/
module BoundedQueue {
  import opened Prelude

  type Tid = nat

  /** A call that has taken effect, in the order of the locked sections. */
  datatype Call<T> =
    | PushOk(t: Tid, x: T)
    | PushClosed(t: Tid, x: T)
    | TryPushFail(t: Tid, x: T)
    | PopOk(t: Tid, x: T)
    | PopDrained(t: Tid)
    | TryPopEmpty(t: Tid)
    | Closed(t: Tid)

  datatype State<T> = State(
    cap: nat,
    q: seq<T>,
    closed: bool,
    asleepP: set<Tid>,    // blocked in not_full_.wait
    wokenP: set<Tid>,     // woken from not_full_.wait, lock not yet re-acquired
    asleepC: set<Tid>,    // blocked in not_empty_.wait
    wokenC: set<Tid>,     // woken from not_empty_.wait, lock not yet re-acquired
    arg: map<Tid, T>,     // the item a blocked push carries
    owesBoth: set<Tid>,   // in shutdown, both notify_all calls still to come
    owesEmpty: set<Tid>,  // in shutdown, not_empty_.notify_all still to come
    log: seq<Call<T>>)

  /** `w` is the sleeper a notify_one wakes; None when nobody sleeps or nothing is notified. */
  datatype Event<T> =
    | Push(t: Tid, x: T, w: Option<Tid>)
    | TryPush(t: Tid, x: T, w: Option<Tid>)
    | Pop(t: Tid, w: Option<Tid>)
    | TryPop(t: Tid, w: Option<Tid>)
    | Close(t: Tid)
    | NotifyNotFull(t: Tid)
    | NotifyNotEmpty(t: Tid)
    | SpuriousP(t: Tid)
    | SpuriousC(t: Tid)

  function Init<T>(cap: nat): State<T> {
    State(cap, [], false, {}, {}, {}, {}, map[], {}, {}, [])
  }

  ghost function InCall<T>(s: State<T>): set<Tid> {
    s.asleepP + s.wokenP + s.asleepC + s.wokenC + s.owesBoth + s.owesEmpty
  }

  predicate Picks(asleep: set<Tid>, w: Option<Tid>) {
    if asleep == {} then w == None else w.Some? && w.value in asleep
  }

  function Chosen(w: Option<Tid>): set<Tid> {
    if w.Some? then {w.value} else {}
  }

  ghost predicate Enabled<T>(s: State<T>, e: Event<T>) {
    match e
    case Push(t, x, w) =>
      && (t !in InCall(s) || (t in s.wokenP && t in s.arg && s.arg[t] == x))
      && (if !s.closed && |s.q| < s.cap then Picks(s.asleepC, w) else w == None)
    case TryPush(t, x, w) =>
      && t !in InCall(s)
      && (if !s.closed && |s.q| < s.cap then Picks(s.asleepC, w) else w == None)
    case Pop(t, w) =>
      && (t !in InCall(s) || t in s.wokenC)
      && (if s.q != [] then Picks(s.asleepP, w) else w == None)
    case TryPop(t, w) =>
      && t !in InCall(s)
      && (if s.q != [] then Picks(s.asleepP, w) else w == None)
    case Close(t) => t !in InCall(s)
    case NotifyNotFull(t) => t in s.owesBoth
    case NotifyNotEmpty(t) => t in s.owesEmpty
    case SpuriousP(t) => t in s.asleepP
    case SpuriousC(t) => t in s.asleepC
  }

  function Enqueue<T>(s: State<T>, t: Tid, x: T, w: Option<Tid>): State<T> {
    s.(q := s.q + [x],
       asleepC := s.asleepC - Chosen(w), wokenC := s.wokenC + Chosen(w),
       wokenP := s.wokenP - {t}, arg := s.arg - {t},
       log := s.log + [PushOk(t, x)])
  }

  function Dequeue<T>(s: State<T>, t: Tid, w: Option<Tid>): State<T>
    requires s.q != []
  {
    s.(q := s.q[1..],
       asleepP := s.asleepP - Chosen(w), wokenP := s.wokenP + Chosen(w),
       wokenC := s.wokenC - {t},
       log := s.log + [PopOk(t, s.q[0])])
  }

  function Apply<T>(s: State<T>, e: Event<T>): State<T> {
    match e
    case Push(t, x, w) =>
      if s.closed then
        s.(wokenP := s.wokenP - {t}, arg := s.arg - {t}, log := s.log + [PushClosed(t, x)])
      else if |s.q| < s.cap then
        Enqueue(s, t, x, w)
      else
        s.(asleepP := s.asleepP + {t}, wokenP := s.wokenP - {t}, arg := s.arg[t := x])
    case TryPush(t, x, w) =>
      if s.closed || |s.q| >= s.cap then
        s.(log := s.log + [TryPushFail(t, x)])
      else
        Enqueue(s, t, x, w)
    case Pop(t, w) =>
      if s.q != [] then
        Dequeue(s, t, w)
      else if s.closed then
        s.(wokenC := s.wokenC - {t}, log := s.log + [PopDrained(t)])
      else
        s.(asleepC := s.asleepC + {t}, wokenC := s.wokenC - {t})
    case TryPop(t, w) =>
      if s.q == [] then
        s.(log := s.log + [TryPopEmpty(t)])
      else
        Dequeue(s, t, w)
    case Close(t) =>
      s.(closed := true, owesBoth := s.owesBoth + {t}, log := s.log + [Closed(t)])
    case NotifyNotFull(t) =>
      s.(asleepP := {}, wokenP := s.wokenP + s.asleepP,
         owesBoth := s.owesBoth - {t}, owesEmpty := s.owesEmpty + {t})
    case NotifyNotEmpty(t) =>
      s.(asleepC := {}, wokenC := s.wokenC + s.asleepC, owesEmpty := s.owesEmpty - {t})
    case SpuriousP(t) => s.(asleepP := s.asleepP - {t}, wokenP := s.wokenP + {t})
    case SpuriousC(t) => s.(asleepC := s.asleepC - {t}, wokenC := s.wokenC + {t})
  }

  /** `es` leads from `s` to `s'`, any threads, any interleaving. */
  ghost predicate Path<T>(s: State<T>, es: seq<Event<T>>, s': State<T>)
    decreases |es|
  {
    if es == [] then s' == s
    else Enabled(s, es[0]) && Path(Apply(s, es[0]), es[1..], s')
  }

  // ---------------------------------------------------------------- the sequential queue

  /** The queue as one thread would see it: no condition variables, no waiting. */
  datatype Spec<T> = Spec(q: seq<T>, closed: bool)

  /** None: this outcome is not possible in this state. */
  function SpecStep<T(==)>(cap: nat, s: Spec<T>, c: Call<T>): Option<Spec<T>> {
    match c
    case PushOk(_, x) => if s.closed || |s.q| >= cap then None else Some(s.(q := s.q + [x]))
    case PushClosed(_, _) => if s.closed then Some(s) else None
    case TryPushFail(_, _) => if s.closed || |s.q| >= cap then Some(s) else None
    case PopOk(_, x) => if s.q != [] && s.q[0] == x then Some(s.(q := s.q[1..])) else None
    case PopDrained(_) => if s.closed && s.q == [] then Some(s) else None
    case TryPopEmpty(_) => if s.q == [] then Some(s) else None
    case Closed(_) => Some(s.(closed := true))
  }

  function Replay<T(==)>(cap: nat, log: seq<Call<T>>): Option<Spec<T>> {
    if log == [] then Some(Spec([], false))
    else
      var before := Replay(cap, log[..|log| - 1]);
      if before.None? then None else SpecStep(cap, before.value, log[|log| - 1])
  }

  function Pushed<T>(log: seq<Call<T>>): seq<T> {
    if log == [] then []
    else
      var c := log[|log| - 1];
      Pushed(log[..|log| - 1]) + if c.PushOk? then [c.x] else []
  }

  function Popped<T>(log: seq<Call<T>>): seq<T> {
    if log == [] then []
    else
      var c := log[|log| - 1];
      Popped(log[..|log| - 1]) + if c.PopOk? then [c.x] else []
  }

  lemma ReplayAppend<T>(cap: nat, log: seq<Call<T>>, c: Call<T>)
    ensures Pushed(log + [c]) == Pushed(log) + if c.PushOk? then [c.x] else []
    ensures Popped(log + [c]) == Popped(log) + if c.PopOk? then [c.x] else []
    ensures Replay(cap, log + [c]) ==
            if Replay(cap, log).None? then None else SpecStep(cap, Replay(cap, log).value, c)
  {
    assert (log + [c])[..|log|] == log;
  }

  /** First in, first out: a possible log pops what was pushed, in order, up to what is queued. */
  lemma {:induction false} PossibleLogIsFifo<T>(cap: nat, log: seq<Call<T>>)
    requires Replay(cap, log).Some?
    ensures Pushed(log) == Popped(log) + Replay(cap, log).value.q
    ensures |Replay(cap, log).value.q| <= cap
  {
    if log != [] {
      var front, c := log[..|log| - 1], log[|log| - 1];
      PossibleLogIsFifo(cap, front);
      var before := Replay(cap, front).value;
      if c.PopOk? {
        assert before.q == [c.x] + before.q[1..];
      }
    }
  }

  // ---------------------------------------------------------------- what every step keeps

  /** Each thread is in one place, and exactly the blocked pushes carry an item. */
  ghost predicate Placed<T>(s: State<T>) {
    && s.asleepP !! s.wokenP !! s.asleepC !! s.wokenC !! s.owesBoth !! s.owesEmpty
    && s.arg.Keys == s.asleepP + s.wokenP
  }

  /**
    No lost wake-up.  Open: while a consumer sleeps, at least one consumer per queued item is
    already awake, and symmetrically for producers and free slots.  Closed: a sleeper implies
    that some shutdown caller still owes the notify_all that will wake it.
  */
  ghost predicate NoLostWakeup<T>(s: State<T>) {
    && |s.q| <= s.cap
    && (!s.closed ==>
          && s.owesBoth == {} && s.owesEmpty == {}
          && (s.asleepC != {} ==> |s.wokenC| >= |s.q|)
          && (s.asleepP != {} ==> |s.wokenP| >= s.cap - |s.q|))
    && (s.closed ==>
          && (s.asleepP != {} ==> s.owesBoth != {})
          && (s.asleepC != {} ==> s.owesBoth + s.owesEmpty != {}))
  }

  /** The log is one the sequential queue can produce, and it ends in the present queue. */
  ghost predicate Linearized<T>(s: State<T>) {
    Replay(s.cap, s.log) == Some(Spec(s.q, s.closed))
  }

  ghost predicate Inv<T>(s: State<T>) {
    Placed(s) && NoLostWakeup(s) && Linearized(s)
  }

  lemma StepPlaced<T>(s: State<T>, e: Event<T>)
    requires Placed(s) && Enabled(s, e)
    ensures Placed(Apply(s, e))
  {
  }

  /** A push or try_push that stores its item: one waiter fewer, one item more, one wake-up. */
  lemma EnqueueWakeup<T>(s: State<T>, t: Tid, x: T, w: Option<Tid>)
    requires Placed(s) && NoLostWakeup(s)
    requires t !in InCall(s) || t in s.wokenP
    requires !s.closed && |s.q| < s.cap && Picks(s.asleepC, w)
    ensures NoLostWakeup(Enqueue(s, t, x, w))
  {
    assert |s.wokenP - {t}| >= |s.wokenP| - 1;
    if w.Some? {
      assert |s.wokenC + {w.value}| == |s.wokenC| + 1;
    }
  }

  lemma DequeueWakeup<T>(s: State<T>, t: Tid, w: Option<Tid>)
    requires Placed(s) && NoLostWakeup(s)
    requires t !in InCall(s) || t in s.wokenC
    requires s.q != [] && Picks(s.asleepP, w)
    ensures NoLostWakeup(Dequeue(s, t, w))
  {
    assert |s.wokenC - {t}| >= |s.wokenC| - 1;
    if w.Some? {
      assert |s.wokenP + {w.value}| == |s.wokenP| + 1;
    }
  }

  lemma PushWakeup<T>(s: State<T>, t: Tid, x: T, w: Option<Tid>)
    requires Placed(s) && NoLostWakeup(s) && Enabled(s, Push(t, x, w))
    ensures NoLostWakeup(Apply(s, Push(t, x, w)))
  {
    if !s.closed && |s.q| < s.cap { EnqueueWakeup(s, t, x, w); }
  }

  lemma PopWakeup<T>(s: State<T>, t: Tid, w: Option<Tid>)
    requires Placed(s) && NoLostWakeup(s) && Enabled(s, Pop(t, w))
    ensures NoLostWakeup(Apply(s, Pop(t, w)))
  {
    if s.q != [] { DequeueWakeup(s, t, w); }
  }

  lemma ShutdownWakeup<T>(s: State<T>, e: Event<T>)
    requires NoLostWakeup(s) && Enabled(s, e)
    requires e.Close? || e.NotifyNotFull? || e.NotifyNotEmpty?
    ensures NoLostWakeup(Apply(s, e))
  {
    var s' := Apply(s, e);
    if e.Close? {
      assert e.t in s'.owesBoth;
    } else if e.NotifyNotFull? {
      assert e.t in s'.owesBoth + s'.owesEmpty;
    }
  }

  /** try_push, try_pop and spurious wake-ups. */
  lemma TryWakeup<T>(s: State<T>, e: Event<T>)
    requires Placed(s) && NoLostWakeup(s) && Enabled(s, e)
    requires e.TryPush? || e.TryPop?
    ensures NoLostWakeup(Apply(s, e))
  {
    if e.TryPush? {
      if !s.closed && |s.q| < s.cap { EnqueueWakeup(s, e.t, e.x, e.w); }
    } else {
      if s.q != [] { DequeueWakeup(s, e.t, e.w); }
    }
  }

  lemma SpuriousWakeup<T>(s: State<T>, e: Event<T>)
    requires Placed(s) && NoLostWakeup(s) && Enabled(s, e)
    requires e.SpuriousP? || e.SpuriousC?
    ensures NoLostWakeup(Apply(s, e))
  {
    hide Enqueue, Dequeue;
    if e.SpuriousP? {
      assert |s.wokenP + {e.t}| == |s.wokenP| + 1;
    } else {
      assert |s.wokenC + {e.t}| == |s.wokenC| + 1;
    }
  }

  lemma StepWakeup<T>(s: State<T>, e: Event<T>)
    requires Placed(s) && NoLostWakeup(s) && Enabled(s, e)
    ensures NoLostWakeup(Apply(s, e))
  {
    match e
    case Push(t, x, w) => PushWakeup(s, t, x, w);
    case TryPush(_, _, _) => TryWakeup(s, e);
    case TryPop(_, _) => TryWakeup(s, e);
    case SpuriousP(_) => SpuriousWakeup(s, e);
    case SpuriousC(_) => SpuriousWakeup(s, e);
    case Pop(t, w) => PopWakeup(s, t, w);
    case _ => ShutdownWakeup(s, e);
  }

  lemma StepLinearized<T>(s: State<T>, e: Event<T>)
    requires Linearized(s) && Enabled(s, e)
    ensures Linearized(Apply(s, e))
  {
    hide Replay, Pushed, Popped;
    var s' := Apply(s, e);
    if s'.log != s.log {
      ReplayAppend(s.cap, s.log, s'.log[|s.log|]);
      assert s'.log == s.log + [s'.log[|s.log|]];
    }
  }

  lemma StepKeepsInv<T>(s: State<T>, e: Event<T>)
    requires Inv(s) && Enabled(s, e)
    ensures Inv(Apply(s, e)) && Apply(s, e).cap == s.cap
  {
    StepPlaced(s, e);
    StepWakeup(s, e);
    StepLinearized(s, e);
  }

  lemma {:induction false} PathKeepsInv<T>(s: State<T>, es: seq<Event<T>>, s': State<T>)
    requires Inv(s) && Path(s, es, s')
    ensures Inv(s') && s'.cap == s.cap
    decreases |es|
  {
    if es != [] {
      StepKeepsInv(s, es[0]);
      PathKeepsInv(Apply(s, es[0]), es[1..], s');
    }
  }

  // ---------------------------------------------------------------- facts about whole runs

  /** In every reachable state no wake-up has been lost. */
  lemma NoWakeupLost<T>(cap: nat, es: seq<Event<T>>, s: State<T>)
    requires Path(Init(cap), es, s)
    ensures NoLostWakeup(s)
  {
    PathKeepsInv(Init(cap), es, s);
  }

  /**
    When every thread inside a call is asleep, each of them has a reason: the queue is open,
    consumers sleep on an empty queue, producers on a full one, and never both unless the
    capacity is zero.
  */
  lemma SleepIsJustified<T>(cap: nat, es: seq<Event<T>>, s: State<T>)
    requires Path(Init(cap), es, s)
    requires InCall(s) == s.asleepP + s.asleepC
    ensures s.closed ==> InCall(s) == {}
    ensures s.asleepC != {} ==> s.q == []
    ensures s.asleepP != {} ==> |s.q| == cap
    ensures s.asleepP != {} && s.asleepC != {} ==> cap == 0
  {
    PathKeepsInv(Init(cap), es, s);
    assert s.wokenP == {} by { assert s.wokenP <= InCall(s); }
    assert s.wokenC == {} by { assert s.wokenC <= InCall(s); }
    assert s.owesBoth == {} by { assert s.owesBoth <= InCall(s); }
    assert s.owesEmpty == {} by { assert s.owesEmpty <= InCall(s); }
  }

  /**
    Linearisability and FIFO: in every run of any number of threads the completed calls, in the
    order of their locked sections, are a run of the sequential queue that ends in the present
    contents; what was popped, followed by what is queued, is what was pushed.
  */
  lemma LinearisableFifo<T>(cap: nat, es: seq<Event<T>>, s: State<T>)
    requires Path(Init(cap), es, s)
    ensures Replay(cap, s.log) == Some(Spec(s.q, s.closed))
    ensures Pushed(s.log) == Popped(s.log) + s.q
    ensures |s.q| <= cap
  {
    PathKeepsInv(Init(cap), es, s);
    PossibleLogIsFifo(cap, s.log);
  }

  /** Closed and empty is permanent, and from then on nothing is accepted or delivered. */
  lemma {:induction false} DrainedForever<T>(s: State<T>, es: seq<Event<T>>, s': State<T>)
    requires s.closed && s.q == [] && Path(s, es, s')
    ensures s'.closed && s'.q == []
    ensures Pushed(s'.log) == Pushed(s.log) && Popped(s'.log) == Popped(s.log)
    decreases |es|
  {
    if es != [] {
      var s1 := Apply(s, es[0]);
      if s1.log != s.log {
        assert s1.log == s.log + [s1.log[|s.log|]];
        ReplayAppend(s.cap, s.log, s1.log[|s.log|]);
      }
      DrainedForever(s1, es[1..], s');
    }
  }

  // ---------------------------------------------------------------- the class

  datatype Section<T> = Blocked | Returned(ok: bool) | Took(x: T)

  /** The C++ class; each method is one locked section of the member function it is named after. */
  class BlockingQueue<T> {
    const capacity: nat
    var q: seq<T>
    var closed: bool

    ghost var asleepP: set<Tid>
    ghost var wokenP: set<Tid>
    ghost var asleepC: set<Tid>
    ghost var wokenC: set<Tid>
    ghost var arg: map<Tid, T>
    ghost var owesBoth: set<Tid>
    ghost var owesEmpty: set<Tid>
    ghost var log: seq<Call<T>>

    ghost function Abs(): State<T>
      reads this
    {
      State(capacity, q, closed, asleepP, wokenP, asleepC, wokenC, arg, owesBoth, owesEmpty, log)
    }

    constructor (cap: nat)
      ensures Abs() == Init(cap)
    {
      capacity := cap;
      q, closed := [], false;
      asleepP, wokenP, asleepC, wokenC, arg := {}, {}, {}, {}, map[];
      owesBoth, owesEmpty, log := {}, {}, [];
    }

    ghost method NotifyOneNotEmpty() returns (w: Option<Tid>)
      modifies this`asleepC, this`wokenC
      ensures Picks(old(asleepC), w)
      ensures asleepC == old(asleepC) - Chosen(w) && wokenC == old(wokenC) + Chosen(w)
    {
      w := None;
      if asleepC != {} {
        var c :| c in asleepC;
        w := Some(c);
        asleepC, wokenC := asleepC - {c}, wokenC + {c};
      }
    }

    ghost method NotifyOneNotFull() returns (w: Option<Tid>)
      modifies this`asleepP, this`wokenP
      ensures Picks(old(asleepP), w)
      ensures asleepP == old(asleepP) - Chosen(w) && wokenP == old(wokenP) + Chosen(w)
    {
      w := None;
      if asleepP != {} {
        var p :| p in asleepP;
        w := Some(p);
        asleepP, wokenP := asleepP - {p}, wokenP + {p};
      }
    }

    /** push: entry, or re-entry after a wake-up; tests the predicate, then blocks or returns. */
    method PushSection(ghost t: Tid, x: T) returns (r: Section<T>, ghost e: Event<T>)
      requires Placed(Abs())
      requires t !in InCall(Abs()) || (t in wokenP && t in arg && arg[t] == x)
      modifies this
      ensures e.Push? && e.t == t && e.x == x
      ensures Enabled(old(Abs()), e) && Abs() == Apply(old(Abs()), e)
      ensures r == if t in asleepP then Blocked else Returned(!old(closed))
    {
      ghost var w := None;
      if !(closed || |q| < capacity) {
        asleepP, wokenP, arg := asleepP + {t}, wokenP - {t}, arg[t := x];
        r := Blocked;
      } else {
        wokenP, arg := wokenP - {t}, arg - {t};
        if closed {
          log := log + [PushClosed(t, x)];
          r := Returned(false);
        } else {
          q, log := q + [x], log + [PushOk(t, x)];
          w := NotifyOneNotEmpty();
          r := Returned(true);
        }
      }
      e := Push(t, x, w);
    }

    method TryPush(ghost t: Tid, x: T) returns (ok: bool, ghost e: Event<T>)
      requires Placed(Abs()) && t !in InCall(Abs())
      modifies this
      ensures e.TryPush? && e.t == t && e.x == x
      ensures Enabled(old(Abs()), e) && Abs() == Apply(old(Abs()), e)
      ensures ok <==> q == old(q) + [x]
    {
      ghost var w := None;
      if closed || |q| >= capacity {
        log := log + [TryPushFail(t, x)];
        ok := false;
      } else {
        q, log := q + [x], log + [PushOk(t, x)];
        w := NotifyOneNotEmpty();
        ok := true;
      }
      e := Event.TryPush(t, x, w);
      assert wokenP - {t} == wokenP && arg - {t} == arg;
    }

    /** pop: entry, or re-entry after a wake-up; tests the predicate, then blocks or returns. */
    method PopSection(ghost t: Tid) returns (r: Section<T>, ghost e: Event<T>)
      requires Placed(Abs())
      requires t !in InCall(Abs()) || t in wokenC
      modifies this
      ensures e.Pop? && e.t == t
      ensures Enabled(old(Abs()), e) && Abs() == Apply(old(Abs()), e)
      ensures r == if old(q) != [] then Took(old(q)[0])
                   else if old(closed) then Returned(false) else Blocked
    {
      ghost var w := None;
      if !(closed || q != []) {
        asleepC, wokenC := asleepC + {t}, wokenC - {t};
        r := Blocked;
      } else {
        wokenC := wokenC - {t};
        if q == [] {
          log := log + [PopDrained(t)];
          r := Returned(false);
        } else {
          r := Took(q[0]);
          log := log + [PopOk(t, q[0])];
          q := q[1..];
          w := NotifyOneNotFull();
        }
      }
      e := Pop(t, w);
    }

    method TryPop(ghost t: Tid) returns (r: Option<T>, ghost e: Event<T>)
      requires Placed(Abs()) && t !in InCall(Abs())
      modifies this
      ensures e.TryPop? && e.t == t
      ensures Enabled(old(Abs()), e) && Abs() == Apply(old(Abs()), e)
      ensures r == if old(q) == [] then None else Some(old(q)[0])
    {
      ghost var w := None;
      if q == [] {
        log := log + [TryPopEmpty(t)];
        r := None;
      } else {
        r := Some(q[0]);
        log := log + [PopOk(t, q[0])];
        q := q[1..];
        w := NotifyOneNotFull();
      }
      e := Event.TryPop(t, w);
      assert wokenC - {t} == wokenC;
    }

    /** shutdown, up to the release of the lock. */
    method ShutdownClose(ghost t: Tid)
      requires t !in InCall(Abs())
      modifies this
      ensures Enabled(old(Abs()), Close(t)) && Abs() == Apply(old(Abs()), Close(t))
    {
      closed := true;
      owesBoth, log := owesBoth + {t}, log + [Closed(t)];
    }

    ghost method ShutdownNotifyNotFull(t: Tid)
      requires t in owesBoth
      modifies this
      ensures Enabled(old(Abs()), NotifyNotFull(t)) && Abs() == Apply(old(Abs()), NotifyNotFull(t))
    {
      asleepP, wokenP := {}, wokenP + asleepP;
      owesBoth, owesEmpty := owesBoth - {t}, owesEmpty + {t};
    }

    ghost method ShutdownNotifyNotEmpty(t: Tid)
      requires t in owesEmpty
      modifies this
      ensures Enabled(old(Abs()), NotifyNotEmpty(t)) && Abs() == Apply(old(Abs()), NotifyNotEmpty(t))
    {
      asleepC, wokenC := {}, wokenC + asleepC;
      owesEmpty := owesEmpty - {t};
    }
  }
}
