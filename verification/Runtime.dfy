/**
  The robot runtime: the state machine of runtime_state_machine.hpp and the node that drives it.

  The node runs two threads.  The executor takes one callback at a time; its goal callbacks are
  cut into one step per access to shared data.  The task thread runs executeTask.  Any executor
  step may fall between any two task steps.  Sensor freshness, cancel requests and the shutdown
  of the middleware are free choices of the environment.
*/
module Runtime {
  import opened Prelude

  datatype RuntimeState = Idle | Standby | Running | Fault | Recovery

  datatype RuntimeEvent =
    | SensorHealthy
    | SensorTimeout
    | JointInvalid
    | StartTask
    | TaskSucceeded
    | TaskCanceled
    | TaskFailed
    | ResetFault
    | RecoveryDone

  datatype RuntimeError = NoError | TimeoutError | JointStateInvalid | TaskFailedError | RecoveryFailed

  datatype Machine = Machine(state: RuntimeState, error: RuntimeError)

  // ---------------------------------------------------------------- the state machine

  /** Events that mean trouble, and the error each leaves in the given state. */
  function ErrorOf(s: RuntimeState, e: RuntimeEvent): RuntimeError {
    if e == SensorTimeout && s == Recovery then RecoveryFailed
    else if e == SensorTimeout then TimeoutError
    else if e == JointInvalid then JointStateInvalid
    else if e == TaskFailed && s == Running then TaskFailedError
    else NoError
  }

  /** The normal cycle: where an event leads that is not trouble. */
  function Onward(s: RuntimeState, e: RuntimeEvent): RuntimeState {
    match (s, e)
    case (Idle, SensorHealthy) => Standby
    case (Standby, StartTask) => Running
    case (Running, TaskSucceeded) => Standby
    case (Running, TaskCanceled) => Standby
    case (Fault, ResetFault) => Recovery
    case (Recovery, RecoveryDone) => Standby
    case _ => s
  }

  /** Trouble anywhere but in Fault leads to Fault with its error; a move onward clears the error. */
  function Next(m: Machine, e: RuntimeEvent): Machine {
    if m.state != Fault && ErrorOf(m.state, e) != NoError then Machine(Fault, ErrorOf(m.state, e))
    else if Onward(m.state, e) != m.state then Machine(Onward(m.state, e), NoError)
    else m
  }

  class RuntimeStateMachine {
    var state: RuntimeState
    var error: RuntimeError

    ghost function Abs(): Machine
      reads this
    {
      Machine(state, error)
    }

    constructor (initial: RuntimeState)
      ensures Abs() == Machine(initial, NoError)
    {
      state, error := initial, NoError;
    }

    method Reset(to: RuntimeState)
      modifies this
      ensures Abs() == Machine(to, NoError)
    {
      state, error := to, NoError;
    }

    method Process(event: RuntimeEvent) returns (transitioned: bool)
      modifies this
      ensures Abs() == Next(old(Abs()), event)
      ensures transitioned <==> state != old(state)
    {
      var current := state;
      var next, nextError := current, error;
      match current {
        case Idle =>
          if event == SensorHealthy {
            next, nextError := Standby, NoError;
          } else if event == SensorTimeout {
            next, nextError := Fault, TimeoutError;
          } else if event == JointInvalid {
            next, nextError := Fault, JointStateInvalid;
          }
        case Standby =>
          if event == StartTask {
            next, nextError := Running, NoError;
          } else if event == SensorTimeout {
            next, nextError := Fault, TimeoutError;
          } else if event == JointInvalid {
            next, nextError := Fault, JointStateInvalid;
          }
        case Running =>
          if event == TaskSucceeded || event == TaskCanceled {
            next, nextError := Standby, NoError;
          } else if event == TaskFailed {
            next, nextError := Fault, TaskFailedError;
          } else if event == SensorTimeout {
            next, nextError := Fault, TimeoutError;
          } else if event == JointInvalid {
            next, nextError := Fault, JointStateInvalid;
          }
        case Fault =>
          if event == ResetFault {
            next, nextError := Recovery, NoError;
          }
        case Recovery =>
          if event == RecoveryDone {
            next, nextError := Standby, NoError;
          } else if event == SensorTimeout {
            next, nextError := Fault, RecoveryFailed;
          } else if event == JointInvalid {
            next, nextError := Fault, JointStateInvalid;
          }
      }
      if next == current && nextError == error {
        return false;
      }
      state, error := next, nextError;
      transitioned := next != current;
    }
  }

  // ---------------------------------------------------------------- the node

  datatype TaskState = TaskIdle | TaskRunning | TaskCompleted | TaskCanceledState | TaskFailedState

  datatype Verdict = Succeeded | Canceled | Aborted

  /** Where the executor stands in handleGoal and handleAccepted. */
  datatype Executor =
    | Free
    | ReadState(target: int)            // next: currentRuntimeState()
    | Exchange(target: int)             // next: compare_exchange_strong
    | Claimed(goal: nat, target: int)   // next: the two stores
    | Stored(goal: nat, target: int)    // next: processRuntimeEvent(StartTask)
    | Accepted(goal: nat, target: int)  // next: join the old thread, start the new one

  datatype Task =
    | NoTask
    | AtStep(goal: nat, target: int, step: int, feedback: seq<int>)
    | Releasing(goal: nat, target: int, feedback: seq<int>, verdict: Verdict)
    | Posting(goal: nat, verdict: Verdict)
    | Ended

  /** Whose StartTask has last moved the machine to Running. */
  datatype Starter = Service | Goal(goal: nat)

  /** What a goal's client was told: the feedback steps, the verdict, the step of a cancel. */
  datatype Report = Report(goal: nat, target: int, feedback: seq<int>, verdict: Verdict, atStep: int)

  datatype Node = Node(
    machine: Machine,
    imuCount: nat,
    jointCount: nat,
    jointValid: bool,
    active: bool,              // task_active_
    taskState: TaskState,
    currentStep: int,          // task_current_step_
    executor: Executor,
    task: Task,
    startedBy: Starter,
    goals: nat,                // goals claimed so far
    open: set<nat>,            // goals whose exchange succeeded and that are not yet released
    reports: seq<Report>,
    fired: seq<RuntimeEvent>)  // the events that moved the machine, in order

  datatype Step =
    | ImuMessage
    | JointMessage(valid: bool)
    | UpdateState(timeout: bool)       // heartbeat timer, query_status
    | ApplyEvent(e: RuntimeEvent)      // apply_event and reset_fault services
    | GoalRequest(target: int, timeout: bool)
    | GoalStep
    | TaskStep(canceling: bool, ok: bool)

  const START := Node(Machine(Idle, NoError), 0, 0, false, false, TaskIdle, 0,
                      Free, NoTask, Service, 0, {}, [], [])

  /** processRuntimeEvent, called for `who`. */
  function Post(n: Node, e: RuntimeEvent, who: Starter): Node {
    var m := Next(n.machine, e);
    n.(machine := m, fired := if m.state != n.machine.state then n.fired + [e] else n.fired,
       startedBy := if m.state == Running && n.machine.state != Running then who else n.startedBy)
  }

  /** updateRuntimeState */
  function Update(n: Node, timeout: bool): Node {
    if n.imuCount == 0 || n.jointCount == 0 then n.(machine := Machine(Idle, NoError))
    else if timeout then Post(n, SensorTimeout, Service)
    else if !n.jointValid then Post(n, JointInvalid, Service)
    else Post(n, SensorHealthy, Service)
  }

  function EventOf(v: Verdict): RuntimeEvent {
    match v case Succeeded => TaskSucceeded case Canceled => TaskCanceled case Aborted => TaskFailed
  }

  predicate Enabled(n: Node, s: Step) {
    match s
    case GoalStep => !n.executor.Free? && (n.executor.Accepted? ==> n.task.NoTask? || n.task.Ended?)
    case TaskStep(_, _) => !n.task.NoTask? && !n.task.Ended?
    case _ => n.executor.Free?
  }

  function ApplyGoal(n: Node): Node
    requires !n.executor.Free?
  {
    match n.executor
    case ReadState(target) =>
      n.(executor := if n.machine.state == Standby then Exchange(target) else Free)
    case Exchange(target) =>
      if n.active then n.(executor := Free)
      else n.(active := true, executor := Claimed(n.goals, target), open := n.open + {n.goals},
              goals := n.goals + 1)
    case Claimed(g, target) =>
      n.(taskState := TaskRunning, currentStep := 0, executor := Stored(g, target))
    case Stored(g, target) => Post(n, StartTask, Goal(g)).(executor := Accepted(g, target))
    case Accepted(g, target) => n.(executor := Free, task := AtStep(g, target, 1, []))
  }

  function ApplyTask(n: Node, canceling: bool, ok: bool): Node
    requires !n.task.NoTask? && !n.task.Ended?
  {
    match n.task
    case AtStep(g, target, step, feedback) =>
      if step > target then
        n.(taskState := TaskCompleted, task := Releasing(g, target, feedback, Succeeded))
      else if canceling then
        n.(currentStep := step - 1, taskState := TaskCanceledState,
           task := Releasing(g, target, feedback, Canceled))
      else if !ok then
        n.(taskState := TaskFailedState, task := Releasing(g, target, feedback, Aborted))
      else
        n.(currentStep := step, task := AtStep(g, target, step + 1, feedback + [step]))
    case Releasing(g, target, feedback, verdict) =>
      n.(active := false, open := n.open - {g}, task := Posting(g, verdict),
         reports := n.reports + [Report(g, target, feedback, verdict, n.currentStep)])
    case Posting(g, verdict) => Post(n, EventOf(verdict), Goal(g)).(task := Ended)
  }

  function Apply(n: Node, s: Step): Node
    requires Enabled(n, s)
  {
    match s
    case ImuMessage => n.(imuCount := n.imuCount + 1)
    case JointMessage(valid) => n.(jointCount := n.jointCount + 1, jointValid := valid)
    case UpdateState(timeout) => Update(n, timeout)
    case ApplyEvent(e) => Post(n, e, Service)
    case GoalRequest(target, timeout) =>
      var n1 := Update(n, timeout);
      if target <= 0 then n1 else n1.(executor := ReadState(target))
    case GoalStep => ApplyGoal(n)
    case TaskStep(canceling, ok) => ApplyTask(n, canceling, ok)
  }

  ghost predicate Path(n: Node, ss: seq<Step>, n': Node)
    decreases |ss|
  {
    if ss == [] then n' == n
    else Enabled(n, ss[0]) && Path(Apply(n, ss[0]), ss[1..], n')
  }

  // ---------------------------------------------------------------- what single events do

  /** The moves of the state machine that leave no error behind. */
  const CYCLE := {(Idle, SensorHealthy, Standby), (Standby, StartTask, Running),
                  (Running, TaskSucceeded, Standby), (Running, TaskCanceled, Standby),
                  (Fault, ResetFault, Recovery), (Recovery, RecoveryDone, Standby)}

  /**
    Every event either makes one of the moves of the cycle and clears the error, or leads to Fault
    and records why, or changes nothing.
  */
  lemma EventMoves(n: Node, e: RuntimeEvent, who: Starter)
    ensures var s, n' := n.machine.state, Post(n, e, who);
            if exists to :: (s, e, to) in CYCLE then
              (s, e, n'.machine.state) in CYCLE && n'.machine.error == NoError && n'.fired == n.fired + [e]
            else if s != Fault && (e == SensorTimeout || e == JointInvalid || (e == TaskFailed && s == Running)) then
              n'.machine.state == Fault && n'.fired == n.fired + [e]
            else n'.machine == n.machine && n'.fired == n.fired
  {
    assert forall s, ev, to :: (s, ev, to) in CYCLE ==> Onward(s, ev) == to;
    var s := n.machine.state;
    assert Onward(s, e) != s ==> (s, e, Onward(s, e)) in CYCLE;
  }

  /** The error a fault records: what went wrong, but a timeout during Recovery is a failed recovery. */
  lemma FaultRecords(n: Node, e: RuntimeEvent, who: Starter)
    requires n.machine.state != Fault && Post(n, e, who).machine.state == Fault
    ensures var error := Post(n, e, who).machine.error;
            && (e == SensorTimeout && n.machine.state == Recovery ==> error == RecoveryFailed)
            && (e == SensorTimeout && n.machine.state != Recovery ==> error == TimeoutError)
            && (e == JointInvalid ==> error == JointStateInvalid)
            && (e == TaskFailed ==> error == TaskFailedError)
            && (e == SensorTimeout || e == JointInvalid || e == TaskFailed)
  {
  }

  /** A heartbeat: Idle until both sensors were heard, then a fault for stale or invalid sensors. */
  lemma HeartbeatDecides(n: Node, timeout: bool)
    requires Enabled(n, UpdateState(timeout))
    ensures var n' := Apply(n, UpdateState(timeout));
            if n.imuCount == 0 || n.jointCount == 0 then n'.machine == Machine(Idle, NoError)
            else if n.machine.state == Fault then n'.machine == n.machine
            else if timeout then
              n'.machine == Machine(Fault, if n.machine.state == Recovery then RecoveryFailed else TimeoutError)
            else if !n.jointValid then n'.machine == Machine(Fault, JointStateInvalid)
            else if n.machine.state == Idle then n'.machine == Machine(Standby, NoError)
            else n'.machine == n.machine
  {
  }

  /** updateRuntimeState and processRuntimeEvent touch the machine and nothing else. */
  lemma UpdateFrame(n: Node, timeout: bool)
    ensures Update(n, timeout) ==
            n.(machine := Update(n, timeout).machine, fired := Update(n, timeout).fired,
               startedBy := Update(n, timeout).startedBy)
  {
    hide Next;
  }

  /** A request waits for its turn exactly when its target is positive; nothing is claimed yet. */
  lemma RequestIsChecked(n: Node, target: int, timeout: bool)
    requires Enabled(n, GoalRequest(target, timeout))
    ensures var n' := Apply(n, GoalRequest(target, timeout));
            && n'.executor == (if target > 0 then ReadState(target) else Free)
            && n'.machine == Apply(n, UpdateState(timeout)).machine
            && n'.active == n.active && n'.open == n.open && n'.goals == n.goals
  {
    UpdateFrame(n, timeout);
  }

  /** A goal gets the slot exactly when the node is in Standby at its check and the slot is free after it. */
  lemma GoalTakesSlot(n: Node, target: int)
    requires Enabled(n, GoalStep)
    ensures n.executor == ReadState(target) ==>
              Apply(n, GoalStep) == n.(executor := if n.machine.state == Standby then Exchange(target) else Free)
    ensures n.executor == Exchange(target) && n.active ==> Apply(n, GoalStep) == n.(executor := Free)
    ensures n.executor == Exchange(target) && !n.active ==>
              var n' := Apply(n, GoalStep);
              n'.active && n'.executor == Claimed(n.goals, target) && n'.open == n.open + {n.goals}
  {
  }

  /** A claimed goal resets the step counter, starts the machine if it is still in Standby, then its thread. */
  lemma GoalStarts(n: Node, g: nat, target: int)
    requires Enabled(n, GoalStep)
    ensures n.executor == Claimed(g, target) ==>
              var n' := Apply(n, GoalStep);
              n'.taskState == TaskRunning && n'.currentStep == 0 && n'.executor == Stored(g, target)
    ensures n.executor == Stored(g, target) ==>
              var n' := Apply(n, GoalStep);
              && n'.executor == Accepted(g, target)
              && n'.machine == (if n.machine.state == Standby then Machine(Running, NoError) else n.machine)
    ensures n.executor == Accepted(g, target) ==>
              var n' := Apply(n, GoalStep);
              n'.executor == Free && n'.task == AtStep(g, target, 1, []) && n'.machine == n.machine
  {
  }

  /** One round of the task loop: what the client is told, and what the status service will show. */
  lemma TaskRound(n: Node, g: nat, target: int, step: int, feedback: seq<int>, canceling: bool, ok: bool)
    requires n.task == AtStep(g, target, step, feedback)
    ensures var n' := Apply(n, TaskStep(canceling, ok));
            && n'.machine == n.machine && n'.active == n.active
            && if step > target then
                 n'.task == Releasing(g, target, feedback, Succeeded) && n'.taskState == TaskCompleted
               else if canceling then
                 && n'.task == Releasing(g, target, feedback, Canceled)
                 && n'.taskState == TaskCanceledState && n'.currentStep == step - 1
               else if !ok then
                 n'.task == Releasing(g, target, feedback, Aborted) && n'.taskState == TaskFailedState
               else
                 n'.task == AtStep(g, target, step + 1, feedback + [step]) && n'.currentStep == step
  {
  }

  /** The last event of a goal, posted to a Running machine, is the one of its verdict. */
  lemma FinishedGoalPosts(n: Node, g: nat, v: Verdict, canceling: bool, ok: bool)
    requires n.machine.state == Running && n.task == Posting(g, v)
    ensures var n' := Apply(n, TaskStep(canceling, ok));
            && n'.task == Ended
            && (v == Succeeded ==> n'.machine == Machine(Standby, NoError) && n'.fired == n.fired + [TaskSucceeded])
            && (v == Canceled ==> n'.machine == Machine(Standby, NoError) && n'.fired == n.fired + [TaskCanceled])
            && (v == Aborted ==> n'.machine == Machine(Fault, TaskFailedError) && n'.fired == n.fired + [TaskFailed])
  {
  }

  /** Posted to a machine that is no longer Running it does nothing. */
  lemma LateEventIsIgnored(n: Node, g: nat, v: Verdict, canceling: bool, ok: bool)
    requires n.machine.state != Running && n.task == Posting(g, v)
    ensures Apply(n, TaskStep(canceling, ok)) == n.(task := Ended)
  {
  }

  /** The goal whose event is due is the last one reported, with that verdict. */
  ghost predicate PostsLastReport(n: Node) {
    n.task.Posting? ==>
      && n.reports != []
      && var r := n.reports[|n.reports| - 1];
         r.goal == n.task.goal && r.verdict == n.task.verdict
  }

  lemma StepPostsLastReport(n: Node, s: Step)
    requires PostsLastReport(n) && Enabled(n, s)
    ensures PostsLastReport(Apply(n, s))
  {
    hide Next;
  }

  lemma {:induction false} PathPostsLastReport(n: Node, ss: seq<Step>, n': Node)
    requires PostsLastReport(n) && Path(n, ss, n')
    ensures PostsLastReport(n')
    decreases |ss|
  {
    hide PostsLastReport, Apply;
    if ss != [] {
      StepPostsLastReport(n, ss[0]);
      PathPostsLastReport(Apply(n, ss[0]), ss[1..], n');
    }
  }

  /**
    The machine follows what the client was told: in every run, when a goal's last event reaches a
    Running machine, the node is back in Standby after a reported success or cancel, and in Fault
    with the task's error after a reported abort.
  */
  lemma ReportDecidesState(ss: seq<Step>, n: Node, canceling: bool, ok: bool)
    requires Path(START, ss, n) && n.task.Posting? && n.machine.state == Running
    ensures n.reports != []
    ensures var r, n' := n.reports[|n.reports| - 1], Apply(n, TaskStep(canceling, ok));
            && r.goal == n.task.goal
            && n'.machine == (if r.verdict == Aborted then Machine(Fault, TaskFailedError)
                              else Machine(Standby, NoError))
            && n'.fired == n.fired + [if r.verdict == Succeeded then TaskSucceeded
                                      else if r.verdict == Canceled then TaskCanceled else TaskFailed]
  {
    PathPostsLastReport(START, ss, n);
    FinishedGoalPosts(n, n.task.goal, n.task.verdict, canceling, ok);
  }

  // ---------------------------------------------------------------- fault and error

  predicate FaultIffError(m: Machine) { m.state == Fault <==> m.error != NoError }

  lemma PostKeepsFault(n: Node, e: RuntimeEvent, who: Starter)
    requires FaultIffError(n.machine)
    ensures FaultIffError(Post(n, e, who).machine)
  {
  }

  lemma NoFault(state: RuntimeState)
    requires state != Fault
    ensures FaultIffError(Machine(state, NoError))
  {
  }

  lemma StepKeepsFault(n: Node, s: Step)
    requires FaultIffError(n.machine) && Enabled(n, s)
    ensures FaultIffError(Apply(n, s).machine)
  {
    forall e, who ensures FaultIffError(Post(n, e, who).machine) { PostKeepsFault(n, e, who); }
    hide Next, FaultIffError;
    assert FaultIffError(Machine(Idle, NoError)) by { NoFault(Idle); }
  }

  lemma {:induction false} PathKeepsFault(n: Node, ss: seq<Step>, n': Node)
    requires FaultIffError(n.machine) && Path(n, ss, n')
    ensures FaultIffError(n'.machine)
    decreases |ss|
  {
    if ss != [] {
      StepKeepsFault(n, ss[0]);
      PathKeepsFault(Apply(n, ss[0]), ss[1..], n');
    }
  }

  /** In every reachable state of the node, Fault holds exactly when an error is recorded. */
  lemma FaultAlwaysHasAnError(ss: seq<Step>, n: Node)
    requires Path(START, ss, n)
    ensures n.machine.state == Fault <==> n.machine.error != NoError
  {
    PathKeepsFault(START, ss, n);
  }

  // ---------------------------------------------------------------- explicit recovery

  ghost predicate OneOf(t: seq<RuntimeEvent>, a: RuntimeEvent) { exists i :: 0 <= i < |t| && t[i] == a }

  ghost predicate TwoInOrder(t: seq<RuntimeEvent>, a: RuntimeEvent, b: RuntimeEvent) {
    exists i, j :: 0 <= i < j < |t| && t[i] == a && t[j] == b
  }

  ghost predicate ThreeInOrder(t: seq<RuntimeEvent>, a: RuntimeEvent, b: RuntimeEvent, c: RuntimeEvent) {
    exists i, j, k :: 0 <= i < j < k < |t| && t[i] == a && t[j] == b && t[k] == c
  }

  /** How far the events since a fault have brought the machine. */
  ghost predicate Progress(state: RuntimeState, since: seq<RuntimeEvent>) {
    match state
    case Idle => false
    case Fault => true
    case Recovery => OneOf(since, ResetFault)
    case Standby => TwoInOrder(since, ResetFault, RecoveryDone)
    case Running => ThreeInOrder(since, ResetFault, RecoveryDone, StartTask)
  }

  lemma ProgressFurther(m: Machine, since: seq<RuntimeEvent>, e: RuntimeEvent)
    requires Progress(m.state, since)
    ensures Progress(Next(m, e).state, if Next(m, e).state != m.state then since + [e] else since)
  {
    var to := Next(m, e).state;
    var t := since + [e];
    if to != m.state {
      if m.state == Fault {
        assert t[|since|] == ResetFault;
      } else if m.state == Recovery && to == Standby {
        var i :| 0 <= i < |since| && since[i] == ResetFault;
        assert t[i] == ResetFault && t[|since|] == RecoveryDone;
      } else if m.state == Standby && to == Running {
        var i, j :| 0 <= i < j < |since| && since[i] == ResetFault && since[j] == RecoveryDone;
        assert t[i] == ResetFault && t[j] == RecoveryDone && t[|since|] == StartTask;
      } else if m.state == Running && to == Standby {
        var i, j, k :| 0 <= i < j < k < |since| && since[i] == ResetFault && since[j] == RecoveryDone && since[k] == StartTask;
        assert t[i] == ResetFault && t[j] == RecoveryDone;
      }
    }
  }

  ghost predicate Since(n: Node, from: nat) {
    && n.imuCount > 0 && n.jointCount > 0
    && from <= |n.fired| && Progress(n.machine.state, n.fired[from..])
  }

  lemma PostProgress(n: Node, e: RuntimeEvent, who: Starter, from: nat)
    requires Since(n, from)
    ensures Since(Post(n, e, who), from)
  {
    ProgressFurther(n.machine, n.fired[from..], e);
    assert (n.fired + [e])[from..] == n.fired[from..] + [e];
  }

  lemma UpdateProgress(n: Node, timeout: bool, from: nat)
    requires Since(n, from)
    ensures Since(Update(n, timeout), from)
  {
    PostProgress(n, SensorTimeout, Service, from);
    PostProgress(n, JointInvalid, Service, from);
    PostProgress(n, SensorHealthy, Service, from);
  }

  lemma StepProgress(n: Node, s: Step, from: nat)
    requires Since(n, from) && Enabled(n, s)
    ensures Since(Apply(n, s), from)
  {
    hide Progress, Next;
    match s
    case UpdateState(_) => UpdateProgress(n, s.timeout, from);
    case GoalRequest(_, _) => UpdateProgress(n, s.timeout, from);
    case ApplyEvent(e) => PostProgress(n, e, Service, from);
    case GoalStep => if n.executor.Stored? { PostProgress(n, StartTask, Goal(n.executor.goal), from); }
    case TaskStep(_, _) => if n.task.Posting? { PostProgress(n, EventOf(n.task.verdict), Goal(n.task.goal), from); }
    case _ =>
  }

  lemma FiredGrows(n: Node, s: Step)
    requires Enabled(n, s)
    ensures n.fired <= Apply(n, s).fired
  {
    hide Next;
  }

  lemma {:induction false} PathProgress(n: Node, ss: seq<Step>, n': Node, from: nat)
    requires Since(n, from) && Path(n, ss, n')
    ensures Since(n', from) && n.fired <= n'.fired
    decreases |ss|
  {
    if ss != [] {
      hide Since, Apply;
      StepProgress(n, ss[0], from);
      FiredGrows(n, ss[0]);
      PathProgress(Apply(n, ss[0]), ss[1..], n', from);
    }
  }

  /**
    Recovery is explicit: once both sensors have been heard, every run of callbacks and task steps
    that starts in Fault and ends in Running has fired ResetFault, then RecoveryDone, then
    StartTask.
  */
  lemma RecoveryIsExplicit(n: Node, ss: seq<Step>, n': Node)
    requires n.imuCount > 0 && n.jointCount > 0 && n.machine.state == Fault
    requires Path(n, ss, n') && n'.machine.state == Running
    ensures n.fired <= n'.fired
    ensures ThreeInOrder(n'.fired[|n.fired|..], ResetFault, RecoveryDone, StartTask)
  {
    PathProgress(n, ss, n', |n.fired|);
  }

  // ---------------------------------------------------------------- the single task slot

  function ExecutorGoals(x: Executor): set<nat> {
    match x
    case Claimed(g, _) => {g}
    case Stored(g, _) => {g}
    case Accepted(g, _) => {g}
    case _ => {}
  }

  function TaskGoals(t: Task): set<nat> {
    match t
    case AtStep(g, _, _, _) => {g}
    case Releasing(g, _, _, _) => {g}
    case _ => {}
  }

  predicate ExecutorHolds(x: Executor) { x.Claimed? || x.Stored? || x.Accepted? }

  predicate TaskHolds(t: Task) { t.AtStep? || t.Releasing? }

  /** The executor or the task thread holds the slot, never both, and task_active_ says whether. */
  ghost predicate SingleSlot(n: Node) {
    && !(ExecutorHolds(n.executor) && TaskHolds(n.task))
    && (n.active <==> ExecutorHolds(n.executor) || TaskHolds(n.task))
    && n.open == ExecutorGoals(n.executor) + TaskGoals(n.task)
  }

  /** The steps 1 .. k, in order. */
  ghost predicate CountsTo(feedback: seq<int>, k: int) {
    |feedback| == k && forall i :: 0 <= i < k ==> feedback[i] == i + 1
  }

  predicate Target(x: Executor) {
    match x
    case Free => true
    case ReadState(t) => t > 0
    case Exchange(t) => t > 0
    case Claimed(_, t) => t > 0
    case Stored(_, t) => t > 0
    case Accepted(_, t) => t > 0
  }

  /** The verdict fits the feedback that was published. */
  ghost predicate Fits(target: int, feedback: seq<int>, verdict: Verdict) {
    && CountsTo(feedback, |feedback|)
    && |feedback| <= target
    && (verdict == Succeeded <==> |feedback| == target)
  }

  ghost predicate TaskFeedback(n: Node) {
    match n.task
    case AtStep(_, target, step, feedback) =>
      target > 0 && 1 <= step <= target + 1 && CountsTo(feedback, step - 1) && n.currentStep == step - 1
    case Releasing(_, target, feedback, verdict) =>
      Fits(target, feedback, verdict) && n.currentStep == |feedback|
    case _ => true
  }

  ghost predicate GoodReport(r: Report) {
    && Fits(r.target, r.feedback, r.verdict)
    && r.atStep == |r.feedback|
  }

  ghost predicate Feedback(n: Node) {
    && Target(n.executor) && TaskFeedback(n)
    && (n.executor.Accepted? || n.executor.Stored? ==> n.currentStep == 0)
  }

  ghost predicate Reports(n: Node) {
    forall i :: 0 <= i < |n.reports| ==> GoodReport(n.reports[i])
  }

  ghost predicate TaskInv(n: Node) {
    SingleSlot(n) && Feedback(n) && Reports(n)
  }

  lemma GoalKeepsSlot(n: Node)
    requires SingleSlot(n) && Enabled(n, GoalStep)
    ensures SingleSlot(Apply(n, GoalStep))
  {
    hide Next;
  }

  lemma TaskKeepsSlot(n: Node, canceling: bool, ok: bool)
    requires SingleSlot(n) && Enabled(n, TaskStep(canceling, ok))
    ensures SingleSlot(Apply(n, TaskStep(canceling, ok)))
  {
    hide Next;
  }

  /** While the executor holds a claim no task is at its steps, so it alone sets the step to 0. */
  lemma GoalKeepsFeedback(n: Node)
    requires SingleSlot(n) && Feedback(n) && Enabled(n, GoalStep)
    ensures Feedback(Apply(n, GoalStep))
  {
    hide Next;
  }

  lemma TaskKeepsFeedback(n: Node, canceling: bool, ok: bool)
    requires SingleSlot(n) && Feedback(n) && Enabled(n, TaskStep(canceling, ok))
    ensures Feedback(Apply(n, TaskStep(canceling, ok)))
  {
    hide Next;
  }

  lemma StepKeepsReports(n: Node, s: Step)
    requires TaskFeedback(n) && Reports(n) && Enabled(n, s)
    ensures Reports(Apply(n, s))
  {
    hide Next, CountsTo;
  }

  lemma OtherKeepsSlot(n: Node, s: Step)
    requires SingleSlot(n) && Feedback(n) && Enabled(n, s) && !s.GoalStep? && !s.TaskStep?
    ensures SingleSlot(Apply(n, s)) && Feedback(Apply(n, s))
  {
    if s.UpdateState? || s.GoalRequest? { UpdateFrame(n, s.timeout); }
    hide Next, CountsTo, Update;
  }

  lemma StepKeepsSlot(n: Node, s: Step)
    requires TaskInv(n) && Enabled(n, s)
    ensures TaskInv(Apply(n, s))
  {
    StepKeepsReports(n, s);
    match s
    case GoalStep =>
      GoalKeepsSlot(n);
      GoalKeepsFeedback(n);
    case TaskStep(canceling, ok) =>
      TaskKeepsSlot(n, canceling, ok);
      TaskKeepsFeedback(n, canceling, ok);
    case _ => OtherKeepsSlot(n, s);
  }

  lemma {:induction false} PathKeepsSlot(n: Node, ss: seq<Step>, n': Node)
    requires TaskInv(n) && Path(n, ss, n')
    ensures TaskInv(n')
    decreases |ss|
  {
    hide TaskInv;
    if ss != [] {
      StepKeepsSlot(n, ss[0]);
      PathKeepsSlot(Apply(n, ss[0]), ss[1..], n');
    }
  }

  /**
    Single task slot: under every interleaving the goals between their successful exchange and
    their release are one if task_active_ is set and none otherwise.
  */
  lemma OneGoalAtATime(ss: seq<Step>, n: Node)
    requires Path(START, ss, n)
    ensures |n.open| == if n.active then 1 else 0
    ensures n.open == ExecutorGoals(n.executor) + TaskGoals(n.task)
  {
    PathKeepsSlot(START, ss, n);
    assert n.open == ExecutorGoals(n.executor) || n.open == TaskGoals(n.task);
  }

  /**
    Every finished goal was told the steps 1, 2, .. k in order: all of its target exactly when it
    succeeded, and up to the reported step when it was cancelled.
  */
  lemma FeedbackIsExact(ss: seq<Step>, n: Node, i: nat)
    requires Path(START, ss, n) && i < |n.reports|
    ensures var r := n.reports[i];
            && CountsTo(r.feedback, r.atStep) && r.atStep <= r.target
            && (r.verdict == Succeeded <==> r.atStep == r.target)
  {
    PathKeepsSlot(START, ss, n);
    assert GoodReport(n.reports[i]);
  }

  // ---------------------------------------------------------------- Running and the active task

  /** A goal has passed its state check and has not yet posted its start. */
  predicate BeforeStart(x: Executor) { x.Exchange? || x.Claimed? || x.Stored? }

  /** Goals are numbered as they are claimed, and the task thread has an earlier one than the executor. */
  ghost predicate Numbered(n: Node) {
    && (ExecutorHolds(n.executor) ==> n.executor.goal < n.goals)
    && (TaskHolds(n.task) || n.task.Posting? ==> n.task.goal < n.goals)
    && (ExecutorHolds(n.executor) && n.task.Posting? ==> n.task.goal < n.executor.goal)
  }

  /** While Running, the goal that started it is on its way from its acceptance to its last event. */
  ghost predicate Started(n: Node) {
    && (BeforeStart(n.executor) ==> n.machine.state != Running)
    && (n.machine.state == Running && n.executor.Accepted? ==> n.startedBy == Goal(n.executor.goal))
    && (n.machine.state == Running && n.startedBy.Goal? ==>
          || (n.executor.Accepted? && n.executor.goal == n.startedBy.goal)
          || ((TaskHolds(n.task) || n.task.Posting?) && n.task.goal == n.startedBy.goal))
  }

  ghost predicate StartInv(n: Node) { SingleSlot(n) && Numbered(n) && Started(n) }

  lemma GoalKeepsStart(n: Node)
    requires StartInv(n) && Enabled(n, GoalStep)
    ensures StartInv(Apply(n, GoalStep))
  {
  }

  lemma TaskKeepsStart(n: Node, canceling: bool, ok: bool)
    requires StartInv(n) && Enabled(n, TaskStep(canceling, ok))
    ensures StartInv(Apply(n, TaskStep(canceling, ok)))
  {
  }

  lemma OtherKeepsStart(n: Node, s: Step)
    requires StartInv(n) && Enabled(n, s) && !s.GoalStep? && !s.TaskStep?
    ensures StartInv(Apply(n, s))
  {
    if s.UpdateState? || s.GoalRequest? { UpdateFrame(n, s.timeout); }
  }

  lemma StepKeepsStart(n: Node, s: Step)
    requires StartInv(n) && Enabled(n, s)
    ensures StartInv(Apply(n, s))
  {
    hide StartInv;
    match s
    case GoalStep => GoalKeepsStart(n);
    case TaskStep(canceling, ok) => TaskKeepsStart(n, canceling, ok);
    case _ => OtherKeepsStart(n, s);
  }

  lemma {:induction false} PathKeepsStart(n: Node, ss: seq<Step>, n': Node)
    requires StartInv(n) && Path(n, ss, n')
    ensures StartInv(n')
    decreases |ss|
  {
    hide StartInv, Apply;
    if ss != [] {
      StepKeepsStart(n, ss[0]);
      PathKeepsStart(Apply(n, ss[0]), ss[1..], n');
    }
  }

  /**
    When a Running node has an active task.  Started by goal g, it has one, namely g, exactly as
    long as g has not released the slot; then only g's last event is still to come.
  */
  lemma RunningHasTaskUnlessPosting(ss: seq<Step>, n: Node, g: nat)
    requires Path(START, ss, n) && n.machine.state == Running && n.startedBy == Goal(g)
    ensures n.active <==> !(n.task.Posting? && n.task.goal == g)
    ensures n.open == if n.active then {g} else {}
  {
    PathKeepsStart(START, ss, n);
  }

  lemma PostStartedByGoal(n: Node, e: RuntimeEvent, who: Starter)
    requires n.machine.state == Running ==> n.startedBy.Goal?
    requires who.Goal? || e != StartTask
    ensures Post(n, e, who).machine.state == Running ==> Post(n, e, who).startedBy.Goal?
  {
  }

  lemma StepStartedByGoal(n: Node, s: Step)
    requires Enabled(n, s) && s != ApplyEvent(StartTask)
    requires n.machine.state == Running ==> n.startedBy.Goal?
    ensures Apply(n, s).machine.state == Running ==> Apply(n, s).startedBy.Goal?
  {
    hide Next, Post;
    if s.UpdateState? || s.GoalRequest? {
      PostStartedByGoal(n, SensorTimeout, Service);
      PostStartedByGoal(n, JointInvalid, Service);
      PostStartedByGoal(n, SensorHealthy, Service);
    } else if s.ApplyEvent? {
      PostStartedByGoal(n, s.e, Service);
    } else if s.GoalStep? && n.executor.Stored? {
      PostStartedByGoal(n, StartTask, Goal(n.executor.goal));
    } else if s.TaskStep? && n.task.Posting? {
      PostStartedByGoal(n, EventOf(n.task.verdict), Goal(n.task.goal));
    }
  }

  /** The outside world can start a run only by injecting the event. */
  lemma {:induction false} StartedByGoal(n: Node, ss: seq<Step>, n': Node)
    requires Path(n, ss, n') && ApplyEvent(StartTask) !in ss
    requires n.machine.state == Running ==> n.startedBy.Goal?
    ensures n'.machine.state == Running ==> n'.startedBy.Goal?
    decreases |ss|
  {
    if ss != [] {
      assert ss[0] != ApplyEvent(StartTask);
      StepStartedByGoal(n, ss[0]);
      StartedByGoal(Apply(n, ss[0]), ss[1..], n');
    }
  }

  /**
    What a caller can rely on: unless StartTask is injected through apply_event, a Running node has
    an active task exactly when the goal that started it is not between releasing the slot and its
    last event; so if it has none, a task thread is about to post.
  */
  lemma RunningHasTaskWithoutInjection(ss: seq<Step>, n: Node)
    requires Path(START, ss, n) && ApplyEvent(StartTask) !in ss && n.machine.state == Running
    ensures n.active <==> !(n.task.Posting? && n.startedBy == Goal(n.task.goal))
  {
    StartedByGoal(START, ss, n);
    RunningHasTaskUnlessPosting(ss, n, n.startedBy.goal);
  }

  /** Two steps in a row. */
  lemma PathOfTwo(n: Node, s: Step, t: Step)
    requires Enabled(n, s) && Enabled(Apply(n, s), t)
    ensures Path(n, [s, t], Apply(Apply(n, s), t))
  {
    assert [s, t][1..] == [t] && [t][1..] == [];
    assert Path(Apply(n, s), [t], Apply(Apply(n, s), t));
  }

  lemma {:induction false} PathConcat(n: Node, ss: seq<Step>, mid: Node, ts: seq<Step>, n': Node)
    requires Path(n, ss, mid) && Path(mid, ts, n')
    ensures Path(n, ss + ts, n')
    decreases |ss|
  {
    if ss == [] {
      assert ss + ts == ts;
    } else {
      assert (ss + ts)[1..] == ss[1..] + ts;
      PathConcat(Apply(n, ss[0]), ss[1..], mid, ts, n');
    }
  }

  const HEARD := START.(imuCount := 1, jointCount := 1, jointValid := true)

  const READY := HEARD.(machine := Machine(Standby, NoError), fired := [SensorHealthy])

  const STARTED := READY.(machine := Machine(Running, NoError), fired := [SensorHealthy, StartTask])

  lemma SensorsHeard()
    ensures Path(START, [ImuMessage, JointMessage(true)], HEARD)
  {
    PathOfTwo(START, ImuMessage, JointMessage(true));
  }

  /** Running without an active task, first: apply_event posts StartTask by itself. */
  lemma RunningByService() returns (ss: seq<Step>, n: Node)
    ensures Path(START, ss, n) && n.machine.state == Running && !n.active && n.startedBy == Service
  {
    n := STARTED;
    PathOfTwo(HEARD, UpdateState(false), ApplyEvent(StartTask));
    assert Path(HEARD, [UpdateState(false), ApplyEvent(StartTask)], n);
    ss := [ImuMessage, JointMessage(true)] + [UpdateState(false), ApplyEvent(StartTask)];
    SensorsHeard();
    PathConcat(START, [ImuMessage, JointMessage(true)], HEARD, [UpdateState(false), ApplyEvent(StartTask)], n);
  }

  const CLAIMED := READY.(active := true, taskState := TaskRunning, executor := Stored(0, 1), goals := 1,
                          open := {0})

  const ACCEPTED := STARTED.(active := true, taskState := TaskRunning, executor := Accepted(0, 1),
                             startedBy := Goal(0), goals := 1, open := {0})

  const RELEASED := ACCEPTED.(active := false, taskState := TaskCanceledState, executor := Free,
                              task := Posting(0, Canceled), open := {},
                              reports := [Report(0, 1, [], Canceled, 0)])

  lemma GoalAccepted()
    ensures Path(HEARD, [GoalRequest(1, false), GoalStep] + [GoalStep, GoalStep],
                 CLAIMED)
  {
    var n1 := READY.(executor := Exchange(1));
    PathOfTwo(HEARD, GoalRequest(1, false), GoalStep);
    assert Path(HEARD, [GoalRequest(1, false), GoalStep], n1);
    PathOfTwo(n1, GoalStep, GoalStep);
    assert {} + {0} == {0};
    assert Path(n1, [GoalStep, GoalStep], CLAIMED);
    PathConcat(HEARD, [GoalRequest(1, false), GoalStep], n1, [GoalStep, GoalStep], CLAIMED);
  }

  lemma GoalReleased()
    ensures Path(CLAIMED,
                 [GoalStep, GoalStep] + [TaskStep(true, true), TaskStep(false, true)], RELEASED)
  {
    var n1 := ACCEPTED.(executor := Free, task := AtStep(0, 1, 1, []));
    PathOfTwo(CLAIMED, GoalStep, GoalStep);
    assert Path(CLAIMED, [GoalStep, GoalStep], n1);
    PathOfTwo(n1, TaskStep(true, true), TaskStep(false, true));
    assert Path(n1, [TaskStep(true, true), TaskStep(false, true)], RELEASED);
    PathConcat(CLAIMED, [GoalStep, GoalStep], n1, [TaskStep(true, true), TaskStep(false, true)], RELEASED);
  }

  /** Second: a goal has released the slot and not yet posted its event. */
  lemma RunningWhilePosting() returns (ss: seq<Step>, n: Node)
    ensures Path(START, ss, n) && ApplyEvent(StartTask) !in ss
    ensures n.machine.state == Running && !n.active && n.task == Posting(0, Canceled)
  {
    hide Path;
    var heard := [ImuMessage, JointMessage(true)];
    var claim := [GoalRequest(1, false), GoalStep] + [GoalStep, GoalStep];
    var release := [GoalStep, GoalStep] + [TaskStep(true, true), TaskStep(false, true)];
    SensorsHeard();
    GoalAccepted();
    GoalReleased();
    n := RELEASED;
    ss := heard + claim + release;
    PathConcat(START, heard, HEARD, claim, CLAIMED);
    PathConcat(START, heard + claim, CLAIMED, release, n);
  }

  // ---------------------------------------------------------------- the node's methods

  /** RuntimeNode; `executor` and `task` are the program counters of its two threads. */
  class RuntimeNode {
    const machine: RuntimeStateMachine
    var imuCount: nat
    var jointCount: nat
    var jointValid: bool
    var active: bool
    var taskState: TaskState
    var currentStep: int
    var executor: Executor
    var task: Task
    var goals: nat
    ghost var startedBy: Starter
    ghost var open: set<nat>
    ghost var reports: seq<Report>
    ghost var fired: seq<RuntimeEvent>

    ghost function Abs(): Node
      reads this, machine
    {
      Node(machine.Abs(), imuCount, jointCount, jointValid, active, taskState, currentStep,
           executor, task, startedBy, goals, open, reports, fired)
    }

    constructor ()
      ensures Abs() == START && fresh(machine)
    {
      machine := new RuntimeStateMachine(Idle);
      imuCount, jointCount, jointValid := 0, 0, false;
      active, taskState, currentStep := false, TaskIdle, 0;
      executor, task := Free, NoTask;
      goals, startedBy, open, reports, fired := 0, Service, {}, [], [];
    }

    method OnImu()
      requires executor.Free?
      modifies this
      ensures Abs() == Apply(old(Abs()), ImuMessage)
    {
      imuCount := imuCount + 1;
    }

    method OnJointState(names: nat, positions: nat, velocities: nat)
      requires executor.Free?
      modifies this
      ensures Abs() == Apply(old(Abs()), JointMessage(names != 0 && positions == names && velocities == names))
    {
      jointCount := jointCount + 1;
      jointValid := names != 0 && positions == names && velocities == names;
    }

    method ProcessRuntimeEvent(event: RuntimeEvent, ghost who: Starter) returns (transitioned: bool)
      modifies this`fired, this`startedBy, machine
      ensures Abs() == Post(old(Abs()), event, who)
      ensures transitioned <==> machine.state != old(machine.state)
    {
      transitioned := machine.Process(event);
      if transitioned {
        fired := fired + [event];
        if machine.state == Running {
          startedBy := who;
        }
      }
    }

    method UpdateRuntimeState(timeout: bool)
      modifies this`fired, this`startedBy, machine
      ensures Abs() == Update(old(Abs()), timeout)
    {
      if imuCount == 0 || jointCount == 0 {
        machine.Reset(Idle);
        return;
      }
      var event := if timeout then SensorTimeout else if !jointValid then JointInvalid else SensorHealthy;
      var _ := ProcessRuntimeEvent(event, Service);
    }

    method HandleGoal(target: int, timeout: bool) returns (rejected: bool)
      requires executor.Free?
      modifies this, machine
      ensures Abs() == Apply(old(Abs()), GoalRequest(target, timeout))
      ensures rejected <==> executor.Free?
      ensures rejected <==> target <= 0
    {
      UpdateRuntimeState(timeout);
      rejected := target <= 0;
      if !rejected {
        executor := ReadState(target);
      }
    }

    /** The next access to shared data of handleGoal or handleAccepted. */
    method ExecutorStep()
      requires Enabled(Abs(), GoalStep)
      modifies this, machine
      ensures Abs() == Apply(old(Abs()), GoalStep)
    {
      match executor {
        case ReadState(target) =>
          executor := if machine.state == Standby then Exchange(target) else Free;
        case Exchange(target) =>
          if active {
            executor := Free;
          } else {
            active, executor := true, Claimed(goals, target);
            open, goals := open + {goals}, goals + 1;
          }
        case Claimed(g, target) =>
          taskState, currentStep := TaskRunning, 0;
          executor := Stored(g, target);
        case Stored(g, target) =>
          var _ := ProcessRuntimeEvent(StartTask, Goal(g));
          executor := Accepted(g, target);
        case Accepted(g, target) =>
          executor, task := Free, AtStep(g, target, 1, []);
      }
    }

    /** The next piece of executeTask: one round of its loop, the release of the slot, the event. */
    method TaskThreadStep(canceling: bool, ok: bool)
      requires Enabled(Abs(), TaskStep(canceling, ok))
      modifies this, machine
      ensures Abs() == Apply(old(Abs()), TaskStep(canceling, ok))
      ensures old(task.Posting? && machine.state == Running) ==>
                machine.Abs() == if old(task).verdict == Aborted then Machine(Fault, TaskFailedError)
                                 else Machine(Standby, NoError)
    {
      match task {
        case AtStep(g, target, step, feedback) =>
          if step > target {
            taskState := TaskCompleted;
            task := Releasing(g, target, feedback, Succeeded);
          } else if canceling {
            currentStep, taskState := step - 1, TaskCanceledState;
            task := Releasing(g, target, feedback, Canceled);
          } else if !ok {
            taskState := TaskFailedState;
            task := Releasing(g, target, feedback, Aborted);
          } else {
            currentStep := step;
            task := AtStep(g, target, step + 1, feedback + [step]);
          }
        case Releasing(g, target, feedback, verdict) =>
          active := false;
          open, reports := open - {g}, reports + [Report(g, target, feedback, verdict, currentStep)];
          task := Posting(g, verdict);
        case Posting(g, verdict) =>
          var _ := ProcessRuntimeEvent(EventOf(verdict), Goal(g));
          task := Ended;
      }
    }
  }
}
