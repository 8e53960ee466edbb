/**
  The generic state machine with packed keys, the robot arm that fills its table, and the same
  arm written as a chain of ifs.  Enumeration values are the 64-bit numbers they are cast to; an
  action is the message it logs, or nothing.
*/
module StateMachine {
  import opened Prelude

  /** An enumerator or a packed key, as size_t. */
  datatype Code = Code(bits: bv64)

  type Action = Option<string>

  datatype Transition = Transition(to: Code, action: Action)

  /** One call of add. */
  datatype Rule = Rule(from: Code, event: Code, to: Code, action: Action)

  predicate StateFits(c: Code) { c.bits < 0x1_0000_0000_0000 }

  predicate EventFits(c: Code) { c.bits < 0x1_0000 }

  /** tr_key */
  function Key(from: Code, event: Code): Code { Code((from.bits << 16) | event.bits) }

  /** Events below 2^16 and states below 2^48 share no key with another pair. */
  lemma KeyIsInjective(f: Code, e: Code, f': Code, e': Code)
    requires StateFits(f) && EventFits(e) && StateFits(f') && EventFits(e')
    ensures Key(f, e) == Key(f', e') <==> f == f' && e == e'
  {
  }

  /** Beyond either bound two pairs do collide. */
  lemma KeysCollide()
    ensures Key(Code(0), Code(0x1_0000)) == Key(Code(1), Code(0))
    ensures Key(Code(0x1_0000_0000_0000), Code(0)) == Key(Code(0), Code(0))
  {
  }

  /** The pair inside the bounds that an arbitrary pair is packed like. */
  function ReducedState(f: Code, e: Code): Code { Code((f.bits | (e.bits >> 16)) & 0xFFFF_FFFF_FFFF) }

  function ReducedEvent(e: Code): Code { Code(e.bits & 0xFFFF) }

  lemma ReducedFits(f: Code, e: Code)
    ensures StateFits(ReducedState(f, e)) && EventFits(ReducedEvent(e))
  {
  }

  lemma ReducedHasSameKey(f: Code, e: Code)
    ensures Key(ReducedState(f, e), ReducedEvent(e)) == Key(f, e)
  {
  }

  /** So a pair shares its key with some other pair inside the bounds exactly when it is outside them. */
  lemma CollidesExactlyOutsideBounds(f: Code, e: Code)
    ensures (exists f', e' :: StateFits(f') && EventFits(e') && (f' != f || e' != e) && Key(f', e') == Key(f, e))
            <==> !(StateFits(f) && EventFits(e))
  {
    hide Key, StateFits, EventFits, ReducedState, ReducedEvent;
    if StateFits(f) && EventFits(e) {
      forall f', e' | StateFits(f') && EventFits(e') && Key(f', e') == Key(f, e) ensures f' == f && e' == e {
        KeyIsInjective(f', e', f, e);
      }
    } else {
      ReducedFits(f, e);
      ReducedHasSameKey(f, e);
      var f', e' := ReducedState(f, e), ReducedEvent(e);
      assert f' != f || e' != e;
    }
  }

  // ---------------------------------------------------------------- the table as a list of rules

  /** The last rule registered for a pair. */
  function LastRule(rules: seq<Rule>, from: Code, event: Code): Option<Rule> {
    if rules == [] then None
    else
      var r := rules[|rules| - 1];
      if r.from == from && r.event == event then Some(r)
      else LastRule(rules[..|rules| - 1], from, event)
  }

  ghost predicate Fits(rules: seq<Rule>) {
    forall r :: r in rules ==> StateFits(r.from) && StateFits(r.to) && EventFits(r.event)
  }

  /** The hash table has the last rule of the pair under its key, or nothing. */
  ghost predicate Holds(table: map<Code, Transition>, rules: seq<Rule>, from: Code, event: Code) {
    match LastRule(rules, from, event)
    case None => Key(from, event) !in table
    case Some(r) => Key(from, event) in table && table[Key(from, event)] == Transition(r.to, r.action)
  }

  ghost predicate TableOf(table: map<Code, Transition>, rules: seq<Rule>) {
    forall from, event :: StateFits(from) && EventFits(event) ==> Holds(table, rules, from, event)
  }

  lemma AddHolds(table: map<Code, Transition>, rules: seq<Rule>, r: Rule, from: Code, event: Code)
    requires Holds(table, rules, from, event)
    requires Key(from, event) == Key(r.from, r.event) <==> from == r.from && event == r.event
    ensures Holds(table[Key(r.from, r.event) := Transition(r.to, r.action)], rules + [r], from, event)
  {
    var table' := table[Key(r.from, r.event) := Transition(r.to, r.action)];
    assert (rules + [r])[..|rules|] == rules;
    if from == r.from && event == r.event {
      assert LastRule(rules + [r], from, event) == Some(r);
      assert Holds(table', rules + [r], from, event);
    } else {
      assert LastRule(rules + [r], from, event) == LastRule(rules, from, event);
      assert Key(from, event) != Key(r.from, r.event);
      assert Key(from, event) in table' <==> Key(from, event) in table;
      assert Holds(table', rules + [r], from, event);
    }
  }

  lemma AddKeepsTable(table: map<Code, Transition>, rules: seq<Rule>, r: Rule)
    requires TableOf(table, rules) && StateFits(r.from) && EventFits(r.event)
    ensures TableOf(table[Key(r.from, r.event) := Transition(r.to, r.action)], rules + [r])
  {
    hide Holds;
    forall from, event | StateFits(from) && EventFits(event)
      ensures Holds(table[Key(r.from, r.event) := Transition(r.to, r.action)], rules + [r], from, event)
    {
      KeyIsInjective(from, event, r.from, r.event);
      AddHolds(table, rules, r, from, event);
    }
  }

  function Said(a: Action): seq<string> { if a.Some? then [a.value] else [] }

  function Hook(hooks: map<Code, Action>, s: Code): seq<string> {
    if s in hooks then Said(hooks[s]) else []
  }

  lemma {:induction false} LastRuleIsRule(rules: seq<Rule>, from: Code, event: Code)
    requires LastRule(rules, from, event).Some?
    ensures LastRule(rules, from, event).value in rules
  {
    var r := rules[|rules| - 1];
    if !(r.from == from && r.event == event) {
      LastRuleIsRule(rules[..|rules| - 1], from, event);
    }
  }

  class Machine {
    var current: Code
    var transitions: map<Code, Transition>
    var enter: map<Code, Action>
    var exit: map<Code, Action>
    /** Messages of all actions called so far, in order. */
    var log: seq<string>
    ghost var rules: seq<Rule>

    ghost predicate Valid()
      reads this
    {
      TableOf(transitions, rules) && Fits(rules) && StateFits(current)
    }

    constructor (initial: Code)
      requires StateFits(initial)
      ensures Valid() && current == initial && rules == [] && log == []
      ensures enter == map[] && exit == map[]
    {
      current, transitions, enter, exit, log, rules := initial, map[], map[], map[], [], [];
    }

    method OnEnter(s: Code, a: Action)
      modifies this`enter
      ensures enter == old(enter)[s := a]
    {
      enter := enter[s := a];
    }

    method OnExit(s: Code, a: Action)
      modifies this`exit
      ensures exit == old(exit)[s := a]
    {
      exit := exit[s := a];
    }

    method Add(from: Code, event: Code, to: Code, action: Action)
      requires Valid() && StateFits(from) && StateFits(to) && EventFits(event)
      modifies this`transitions, this`rules
      ensures Valid() && rules == old(rules) + [Rule(from, event, to, action)]
    {
      AddKeepsTable(transitions, rules, Rule(from, event, to, action));
      transitions := transitions[Key(from, event) := Transition(to, action)];
      rules := rules + [Rule(from, event, to, action)];
    }

    method Call(a: Action)
      modifies this`log
      ensures log == old(log) + Said(a)
    {
      if a.Some? {
        log := log + [a.value];
      }
    }

    /** The last registration wins; exit, then the transition's action, then enter. */
    method Process(event: Code) returns (fired: bool)
      requires Valid() && EventFits(event)
      modifies this`current, this`log
      ensures Valid()
      ensures fired <==> LastRule(rules, old(current), event).Some?
      ensures !fired ==> current == old(current) && log == old(log)
      ensures fired ==>
                var r := LastRule(rules, old(current), event).value;
                && current == r.to
                && log == old(log) + Hook(exit, old(current)) + Said(r.action) + Hook(enter, r.to)
    {
      assert Holds(transitions, rules, current, event);
      hide TableOf, LastRule, Key, StateFits, EventFits;
      var key := Key(current, event);
      if key !in transitions {
        return false;
      }
      var tr := transitions[key];
      LastRuleIsRule(rules, current, event);
      if current in exit {
        Call(exit[current]);
      }
      Call(tr.action);
      current := tr.to;
      if current in enter {
        Call(enter[current]);
      }
      fired := true;
    }
  }

  // ---------------------------------------------------------------- the robot arm, twice

  datatype ArmState = IDLE | MOVING | GRASPING | HOLDING | RETURNING

  datatype ArmEvent = START | ARRIVED | GRASPED | RELEASE | HOME | ERROR

  function StateCode(s: ArmState): Code {
    match s
    case IDLE => Code(0) case MOVING => Code(1) case GRASPING => Code(2) case HOLDING => Code(3)
    case RETURNING => Code(4)
  }

  function EventCode(e: ArmEvent): Code {
    match e
    case START => Code(0) case ARRIVED => Code(1) case GRASPED => Code(2) case RELEASE => Code(3)
    case HOME => Code(4) case ERROR => Code(5)
  }

  function ArmRule(from: ArmState, e: ArmEvent, to: ArmState, action: Action): Rule {
    Rule(StateCode(from), EventCode(e), StateCode(to), action)
  }

  const EMERGENCY_STOP: Action := Some("!!! EMERGENCY STOP !!!")

  const ACTIVE := [MOVING, GRASPING, HOLDING, RETURNING]

  function NormalRules(): seq<Rule> {
    [ArmRule(IDLE, START, MOVING, None), ArmRule(MOVING, ARRIVED, GRASPING, None),
     ArmRule(GRASPING, GRASPED, HOLDING, None), ArmRule(HOLDING, RELEASE, RETURNING, None),
     ArmRule(RETURNING, HOME, IDLE, None)]
  }

  function StopRules(n: nat): seq<Rule>
    requires n <= |ACTIVE|
  {
    if n == 0 then [] else StopRules(n - 1) + [ArmRule(ACTIVE[n - 1], ERROR, IDLE, EMERGENCY_STOP)]
  }

  /** The five normal transitions, then ERROR from each active state. */
  function ArmRules(): seq<Rule> { NormalRules() + StopRules(|ACTIVE|) }

  /** The if-chain of the observer's arm. */
  function Chain(s: ArmState, e: ArmEvent): Option<ArmState> {
    if s == IDLE && e == START then Some(MOVING)
    else if s == MOVING && e == ARRIVED then Some(GRASPING)
    else if s == GRASPING && e == GRASPED then Some(HOLDING)
    else if s == HOLDING && e == RELEASE then Some(RETURNING)
    else if s == RETURNING && e == HOME then Some(IDLE)
    else if e == ERROR && s != IDLE then Some(IDLE)
    else None
  }

  lemma CodesAreDistinct()
    ensures forall s, t :: StateCode(s) == StateCode(t) <==> s == t
    ensures forall e, f :: EventCode(e) == EventCode(f) <==> e == f
  {
  }

  /** Looking an arm transition up in a table that ends with another one. */
  lemma LookUp(rules: seq<Rule>, f: ArmState, g: ArmEvent, to: ArmState, a: Action, s: ArmState, e: ArmEvent)
    ensures LastRule(rules + [ArmRule(f, g, to, a)], StateCode(s), EventCode(e)) ==
            if f == s && g == e then Some(ArmRule(f, g, to, a))
            else LastRule(rules, StateCode(s), EventCode(e))
  {
    CodesAreDistinct();
    hide StateCode, EventCode;
    assert (rules + [ArmRule(f, g, to, a)])[..|rules|] == rules;
  }

  lemma LookUpNothing(s: ArmState, e: ArmEvent)
    ensures LastRule([], StateCode(s), EventCode(e)) == None
  {
  }

  lemma LookUpNormal(s: ArmState, e: ArmEvent)
    ensures LastRule(NormalRules(), StateCode(s), EventCode(e)) ==
            if e != ERROR && Chain(s, e).Some? then Some(ArmRule(s, e, Chain(s, e).value, None)) else None
  {
    hide LastRule, StateCode, EventCode, ArmRule;
    var r0: seq<Rule> := [];
    var r1 := r0 + [ArmRule(IDLE, START, MOVING, None)];
    var r2 := r1 + [ArmRule(MOVING, ARRIVED, GRASPING, None)];
    var r3 := r2 + [ArmRule(GRASPING, GRASPED, HOLDING, None)];
    var r4 := r3 + [ArmRule(HOLDING, RELEASE, RETURNING, None)];
    LookUpNothing(s, e);
    LookUp(r0, IDLE, START, MOVING, None, s, e);
    LookUp(r1, MOVING, ARRIVED, GRASPING, None, s, e);
    LookUp(r2, GRASPING, GRASPED, HOLDING, None, s, e);
    LookUp(r3, HOLDING, RELEASE, RETURNING, None, s, e);
    LookUp(r4, RETURNING, HOME, IDLE, None, s, e);
    assert NormalRules() == r4 + [ArmRule(RETURNING, HOME, IDLE, None)];
  }

  lemma {:induction false} LookUpStops(n: nat, s: ArmState, e: ArmEvent)
    requires n <= |ACTIVE|
    ensures LastRule(NormalRules() + StopRules(n), StateCode(s), EventCode(e)) ==
            if e == ERROR && s in ACTIVE[..n] then Some(ArmRule(s, e, IDLE, EMERGENCY_STOP))
            else LastRule(NormalRules(), StateCode(s), EventCode(e))
  {
    hide LastRule, StateCode, EventCode, ArmRule, NormalRules;
    if n == 0 {
      assert NormalRules() + StopRules(0) == NormalRules();
    } else {
      LookUpStops(n - 1, s, e);
      LookUp(NormalRules() + StopRules(n - 1), ACTIVE[n - 1], ERROR, IDLE, EMERGENCY_STOP, s, e);
      assert NormalRules() + StopRules(n)
          == NormalRules() + StopRules(n - 1) + [ArmRule(ACTIVE[n - 1], ERROR, IDLE, EMERGENCY_STOP)];
      assert ACTIVE[..n] == ACTIVE[..n - 1] + [ACTIVE[n - 1]];
    }
  }

  lemma ActiveStates(s: ArmState)
    ensures s in ACTIVE <==> s != IDLE
  {
    assert ACTIVE[0] == MOVING && ACTIVE[1] == GRASPING && ACTIVE[2] == HOLDING && ACTIVE[3] == RETURNING;
  }

  /** The table has a rule exactly where the chain has a branch, and to the same state. */
  lemma TableIsChain(s: ArmState, e: ArmEvent)
    ensures LastRule(ArmRules(), StateCode(s), EventCode(e)).Some? <==> Chain(s, e).Some?
    ensures Chain(s, e).Some? ==>
              LastRule(ArmRules(), StateCode(s), EventCode(e)).value.to == StateCode(Chain(s, e).value)
  {
    hide LastRule, StateCode, EventCode, NormalRules, StopRules;
    LookUpNormal(s, e);
    LookUpStops(|ACTIVE|, s, e);
    assert ACTIVE[..|ACTIVE|] == ACTIVE;
    assert s in ACTIVE <==> s != IDLE by { ActiveStates(s); }
  }

  /** State and acceptance history of the table arm over a trace of events. */
  function TableRun(events: seq<ArmEvent>): (Code, seq<bool>) {
    if events == [] then (StateCode(IDLE), [])
    else
      var (s, accepted) := TableRun(events[..|events| - 1]);
      match LastRule(ArmRules(), s, EventCode(events[|events| - 1]))
      case None => (s, accepted + [false])
      case Some(r) => (r.to, accepted + [true])
  }

  function ChainRun(events: seq<ArmEvent>): (ArmState, seq<bool>) {
    if events == [] then (IDLE, [])
    else
      var (s, accepted) := ChainRun(events[..|events| - 1]);
      match Chain(s, events[|events| - 1])
      case None => (s, accepted + [false])
      case Some(to) => (to, accepted + [true])
  }

  predicate Latest(accepted: seq<bool>) { accepted != [] && accepted[|accepted| - 1] }

  /** On every trace of events the two arms accept the same events and reach the same state. */
  lemma {:induction false} ArmsAgree(events: seq<ArmEvent>)
    ensures TableRun(events).0 == StateCode(ChainRun(events).0)
    ensures TableRun(events).1 == ChainRun(events).1
  {
    if events != [] {
      ArmsAgree(events[..|events| - 1]);
      TableIsChain(ChainRun(events[..|events| - 1]).0, events[|events| - 1]);
    }
  }

  lemma ArmCodesFit()
    ensures forall s :: StateFits(StateCode(s))
    ensures forall e :: EventFits(EventCode(e))
  {
  }

  function Greeting(s: ArmState): string {
    match s
    case IDLE => "waiting for command"
    case MOVING => "moving to target position..."
    case GRASPING => "closing gripper..."
    case HOLDING => "object secured"
    case RETURNING => "returning to home position..."
  }

  function Farewell(s: ArmState): seq<string> {
    if s == MOVING || s == RETURNING then ["(motion stopped)"] else []
  }

  ghost predicate Greets(enter: map<Code, Action>) {
    forall s :: Hook(enter, StateCode(s)) == [Greeting(s)]
  }

  ghost predicate TakesLeave(exit: map<Code, Action>) {
    forall s :: Hook(exit, StateCode(s)) == Farewell(s)
  }

  /** What the arm says when it goes from s to s' on e. */
  function Announced(s: ArmState, e: ArmEvent, s': ArmState): seq<string> {
    Farewell(s) + (if e == ERROR then ["!!! EMERGENCY STOP !!!"] else []) + [Greeting(s')]
  }

  /** The action of the rule the table finds. */
  lemma ActionOf(s: ArmState, e: ArmEvent)
    requires Chain(s, e).Some?
    ensures LastRule(ArmRules(), StateCode(s), EventCode(e)).Some?
    ensures Said(LastRule(ArmRules(), StateCode(s), EventCode(e)).value.action) ==
            if e == ERROR then ["!!! EMERGENCY STOP !!!"] else []
  {
    hide LastRule, StateCode, EventCode, NormalRules, StopRules;
    LookUpNormal(s, e);
    LookUpStops(|ACTIVE|, s, e);
    assert ACTIVE[..|ACTIVE|] == ACTIVE;
    assert s in ACTIVE <==> s != IDLE by { ActiveStates(s); }
  }

  /** One event more: what the table finds, in terms of the chain. */
  lemma TraceStep(trace: seq<ArmEvent>, e: ArmEvent)
    ensures TableRun(trace).0 == StateCode(ChainRun(trace).0)
    ensures TableRun(trace + [e]).0 == StateCode(ChainRun(trace + [e]).0)
    ensures var s, r := ChainRun(trace).0, LastRule(ArmRules(), TableRun(trace).0, EventCode(e));
            if Chain(s, e).None? then r == None && ChainRun(trace + [e]).0 == s
            else
              && r.Some? && r.value.to == TableRun(trace + [e]).0
              && Said(r.value.action) == if e == ERROR then ["!!! EMERGENCY STOP !!!"] else []
  {
    var s := ChainRun(trace).0;
    ArmsAgree(trace);
    ArmsAgree(trace + [e]);
    TableIsChain(s, e);
    if Chain(s, e).Some? { ActionOf(s, e); }
    hide StateCode, EventCode, ArmRules, LastRule, Chain;
    assert (trace + [e])[..|trace|] == trace;
  }

  /** The table arm: the constructor registers the rules, send drives the machine. */
  class TableArm {
    const sm: Machine
    ghost var trace: seq<ArmEvent>

    ghost predicate Valid()
      reads this, sm
    {
      && sm.Valid() && sm.rules == ArmRules() && sm.current == TableRun(trace).0
      && Greets(sm.enter) && TakesLeave(sm.exit)
    }

    constructor ()
      ensures Valid() && trace == [] && fresh(sm) && sm.log == []
    {
      sm := new Machine(StateCode(IDLE));
      trace := [];
      new;
      Fill(sm);
    }

    static method Fill(sm: Machine)
      requires sm.Valid() && sm.rules == [] && sm.enter == sm.exit == map[]
      modifies sm`enter, sm`exit, sm`transitions, sm`rules
      ensures sm.Valid() && sm.rules == ArmRules() && Greets(sm.enter) && TakesLeave(sm.exit)
    {
      hide TableOf, Fits, StateFits, Greets, TakesLeave;
      AddGreetings(sm);
      AddFarewells(sm);
      AddNormal(sm);
      AddStops(sm);
    }

    static method AddGreetings(sm: Machine)
      requires sm.enter == map[]
      modifies sm`enter
      ensures Greets(sm.enter)
    {
      sm.OnEnter(StateCode(IDLE), Some("waiting for command"));
      sm.OnEnter(StateCode(MOVING), Some("moving to target position..."));
      sm.OnEnter(StateCode(GRASPING), Some("closing gripper..."));
      sm.OnEnter(StateCode(HOLDING), Some("object secured"));
      sm.OnEnter(StateCode(RETURNING), Some("returning to home position..."));
    }

    static method AddFarewells(sm: Machine)
      requires sm.exit == map[]
      modifies sm`exit
      ensures TakesLeave(sm.exit)
    {
      sm.OnExit(StateCode(MOVING), Some("(motion stopped)"));
      sm.OnExit(StateCode(RETURNING), Some("(motion stopped)"));
    }

    static method AddNormal(sm: Machine)
      requires sm.Valid() && sm.rules == []
      modifies sm`transitions, sm`rules
      ensures sm.Valid() && sm.rules == NormalRules()
    {
      hide TableOf, Fits, LastRule, StateFits, EventFits;
      ArmCodesFit();
      sm.Add(StateCode(IDLE), EventCode(START), StateCode(MOVING), None);
      sm.Add(StateCode(MOVING), EventCode(ARRIVED), StateCode(GRASPING), None);
      sm.Add(StateCode(GRASPING), EventCode(GRASPED), StateCode(HOLDING), None);
      sm.Add(StateCode(HOLDING), EventCode(RELEASE), StateCode(RETURNING), None);
      sm.Add(StateCode(RETURNING), EventCode(HOME), StateCode(IDLE), None);
    }

    static method AddStops(sm: Machine)
      requires sm.Valid() && sm.rules == NormalRules()
      modifies sm`transitions, sm`rules
      ensures sm.Valid() && sm.rules == ArmRules()
    {
      hide TableOf, Fits, LastRule, StateFits, EventFits;
      ArmCodesFit();
      for i := 0 to |ACTIVE|
        invariant sm.Valid() && sm.rules == NormalRules() + StopRules(i)
      {
        sm.Add(StateCode(ACTIVE[i]), EventCode(ERROR), StateCode(IDLE), EMERGENCY_STOP);
      }
    }

    /** Fires, moves and speaks as the if-chain of the other arm says for the present state. */
    method Send(e: ArmEvent) returns (fired: bool)
      requires Valid()
      modifies this`trace, sm
      ensures Valid() && trace == old(trace) + [e]
      ensures fired <==> Chain(ChainRun(old(trace)).0, e).Some?
      ensures sm.current == StateCode(ChainRun(trace).0)
      ensures sm.log == old(sm.log) +
                if fired then Announced(ChainRun(old(trace)).0, e, ChainRun(trace).0) else []
    {
      ArmCodesFit();
      TraceStep(trace, e);
      hide TableOf, Fits, LastRule, StateFits, EventFits, ArmRules, StateCode, EventCode;
      hide Hook, Said, Chain, TableRun, ChainRun, Farewell, Greeting;
      fired := sm.Process(EventCode(e));
      trace := trace + [e];
    }
  }

  datatype StateChange = StateChange(from: ArmState, to: ArmState, trigger: ArmEvent)

  /** The observer's arm: observers are told of the change before the state moves. */
  class ChainArm {
    var state: ArmState
    /** Changes sent to the observers, in order. */
    var notified: seq<StateChange>
    ghost var trace: seq<ArmEvent>

    ghost predicate Valid()
      reads this
    {
      state == ChainRun(trace).0
    }

    constructor ()
      ensures Valid() && trace == [] && notified == []
    {
      state, notified, trace := IDLE, [], [];
    }

    method Send(e: ArmEvent) returns (fired: bool)
      requires Valid()
      modifies this
      ensures Valid() && trace == old(trace) + [e]
      ensures fired <==> Latest(ChainRun(trace).1)
      ensures notified == old(notified) + if fired then [StateChange(old(state), state, e)] else []
    {
      var next := Chain(state, e);
      trace := trace + [e];
      assert trace[..|trace| - 1] == old(trace);
      if next.None? {
        return false;
      }
      notified := notified + [StateChange(state, next.value, e)];
      state := next.value;
      fired := true;
    }
  }
}
