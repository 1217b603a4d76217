/**
  The state machine runner of src/stateMachine.c. The callbacks are an oracle: a script says what
  each callback in turn asks of the machine, and a run that would go on for ever is followed as
  far as its script goes.
 */
module StateMachine {
  import opened Wrappers

  /** The callbacks of a visit, in the order in which the runner comes to them. */
  datatype Phase = ClassEntry | StateEntry | StateExit | ClassExit

  /** A state and which of the four callbacks it has, its class's included. */
  datatype State = State(name: string, callbacks: set<Phase>)

  /** What a callback may ask of the machine. */
  datatype Action = SetNext(state: Option<State>) | SetExit

  datatype Call = Call(phase: Phase, actions: seq<Action>)
  datatype Visit = Visit(state: State, calls: seq<Call>)

  // ---------- what a run should be ----------

  /** The callbacks that a full visit makes. */
  function Due(s: State): seq<Phase> { DueIn(s, [ClassEntry, StateEntry, StateExit, ClassExit]) }

  function DueIn(s: State, phases: seq<Phase>): seq<Phase> {
    if phases == [] then [] else (if phases[0] in s.callbacks then [phases[0]] else []) + DueIn(s, phases[1..])
  }

  /** The place of a callback in a visit. */
  function Place(p: Phase): nat {
    match p
    case ClassEntry => 0
    case StateEntry => 1
    case StateExit => 2
    case ClassExit => 3
  }

  ghost predicate Ascending(phases: seq<Phase>) {
    forall i, j :: 0 <= i < j < |phases| ==> Place(phases[i]) < Place(phases[j])
  }

  lemma {:induction false} DueInOrder(s: State, phases: seq<Phase>)
    requires Ascending(phases)
    ensures Ascending(DueIn(s, phases))
    ensures forall p :: p in DueIn(s, phases) <==> p in phases && p in s.callbacks
  {
    if phases != [] {
      var rest := DueIn(s, phases[1..]);
      DueInOrder(s, phases[1..]);
      forall i | 0 <= i < |rest| ensures Place(phases[0]) < Place(rest[i]) {
        assert rest[i] in phases[1..];
      }
    }
  }

  /** A full visit makes exactly the callbacks that the state has, each once: the entry of the class
      before that of the state, then the exit of the state and that of the class. */
  lemma DueOnce(s: State)
    ensures Ascending(Due(s)) && forall p :: p in Due(s) <==> p in s.callbacks
  {
    var phases := [ClassEntry, StateEntry, StateExit, ClassExit];
    DueInOrder(s, phases);
    forall p: Phase ensures p in phases { assert phases[Place(p)] == p; }
  }

  function PhasesOf(calls: seq<Call>): seq<Phase> {
    if calls == [] then [] else PhasesOf(calls[..|calls| - 1]) + [calls[|calls| - 1].phase]
  }

  function ActionsOf(calls: seq<Call>): seq<Action> {
    if calls == [] then [] else ActionsOf(calls[..|calls| - 1]) + calls[|calls| - 1].actions
  }

  /** All next states asked for, NULL among them. */
  function Sets(actions: seq<Action>): seq<Option<State>> {
    if actions == [] then []
    else (if actions[0].SetNext? then [actions[0].state] else []) + Sets(actions[1..])
  }

  function FirstSome(sets: seq<Option<State>>): Option<State> {
    if sets == [] then None else if sets[0].Some? then sets[0] else FirstSome(sets[1..])
  }

  /** The next state that the callbacks of a visit decide on: the first one asked for under Nuance
      semantics, the last one otherwise. */
  function Chosen(nuance: bool, actions: seq<Action>): Option<State> {
    var sets := Sets(actions);
    if nuance then FirstSome(sets) else if sets == [] then None else sets[|sets| - 1]
  }

  predicate Quiet(calls: seq<Call>) { forall i :: 0 <= i < |calls| ==> SetExit !in calls[i].actions }

  /** A visit made in full, that leads on to the next state. */
  ghost predicate LeadsTo(nuance: bool, v: Visit, next: Option<State>) {
    PhasesOf(v.calls) == Due(v.state) && Quiet(v.calls) && Chosen(nuance, ActionsOf(v.calls)) == next
  }

  /** The beginning of a visit, in which only the last callback may have asked for an exit. */
  ghost predicate Begun(v: Visit) {
    PhasesOf(v.calls) <= Due(v.state) && (v.calls != [] ==> Quiet(v.calls[..|v.calls| - 1]))
  }

  /** A run: full visits, each leading to the next one, and the beginning of a last visit. */
  ghost predicate IsRun(nuance: bool, initial: State, visits: seq<Visit>) {
    && visits != [] && visits[0].state == initial
    && (forall i :: 0 <= i < |visits| - 1 ==> LeadsTo(nuance, visits[i], Some(visits[i + 1].state)))
    && Begun(visits[|visits| - 1])
  }

  /** Why a run is over: an exit was asked for in the last callback, or the last visit was made in
      full and no next state was set. */
  ghost predicate Over(nuance: bool, v: Visit) {
    !Quiet(v.calls) || LeadsTo(nuance, v, None)
  }

  lemma QuietPrefix(calls: seq<Call>, j: nat)
    requires j < |calls| - 1 && Quiet(calls[..|calls| - 1])
    ensures SetExit !in calls[j].actions
  {
    assert calls[..|calls| - 1][j] == calls[j];
  }

  lemma QuietVisit(nuance: bool, initial: State, visits: seq<Visit>, i: nat)
    requires IsRun(nuance, initial, visits) && i < |visits| - 1
    ensures Quiet(visits[i].calls)
  {
    assert LeadsTo(nuance, visits[i], Some(visits[i + 1].state));
  }

  /** In a run, no callback comes after one that asked for an exit. */
  lemma ExitIsLast(nuance: bool, initial: State, visits: seq<Visit>, i: nat, j: nat)
    requires IsRun(nuance, initial, visits) && i < |visits| && j < |visits[i].calls|
    requires SetExit in visits[i].calls[j].actions
    ensures i == |visits| - 1 && j == |visits[i].calls| - 1
  {
    if i < |visits| - 1 {
      QuietVisit(nuance, initial, visits, i);
      assert false;
    }
    if j < |visits[i].calls| - 1 {
      QuietPrefix(visits[i].calls, j);
      assert false;
    }
  }

  // ---------- the next state ----------

  function After(nuance: bool, next: Option<State>, a: Action): Option<State> {
    match a
    case SetNext(state) => if nuance && next.Some? then next else state
    case SetExit => next
  }

  function AfterAll(nuance: bool, next: Option<State>, actions: seq<Action>): Option<State>
    decreases |actions|
  {
    if actions == [] then next else AfterAll(nuance, After(nuance, next, actions[0]), actions[1..])
  }

  lemma {:induction false} SomeStays(next: Option<State>, actions: seq<Action>)
    requires next.Some?
    ensures AfterAll(true, next, actions) == next
    decreases |actions|
  {
    if actions != [] { SomeStays(After(true, next, actions[0]), actions[1..]); }
  }

  /** What setNextState keeps in one field is the choice by first or by last. */
  lemma {:induction false} KeepsTheChoice(nuance: bool, next: Option<State>, actions: seq<Action>)
    requires nuance ==> next == None
    ensures AfterAll(nuance, next, actions) ==
            if !nuance && Sets(actions) == [] then next else Chosen(nuance, actions)
    decreases |actions|
  {
    if actions != [] {
      var next', sets, rest := After(nuance, next, actions[0]), Sets(actions), Sets(actions[1..]);
      assert rest != [] ==> sets[|sets| - 1] == rest[|rest| - 1];
      assert actions[0].SetNext? ==> sets[0] == actions[0].state && sets[1..] == rest;
      assert !actions[0].SetNext? ==> sets == rest;
      if nuance && next'.Some? {
        SomeStays(next', actions[1..]);
      } else {
        KeepsTheChoice(nuance, next', actions[1..]);
      }
    }
  }

  lemma {:induction false} AfterConcat(nuance: bool, next: Option<State>, actions: seq<Action>, more: seq<Action>)
    ensures AfterAll(nuance, next, actions + more) == AfterAll(nuance, AfterAll(nuance, next, actions), more)
    decreases |actions|
  {
    if actions == [] {
      assert actions + more == more;
    } else {
      AfterConcat(nuance, After(nuance, next, actions[0]), actions[1..], more);
      assert (actions + more)[1..] == actions[1..] + more;
    }
  }

  // ---------- the machine ----------

  class Machine {
    const nuanceSemantics: bool
    var currentState: Option<State>
    var nextState: Option<State>
    var immediateExit: bool

    /** stateMachine_create */
    constructor (nuance: bool)
      ensures nuanceSemantics == nuance
    {
      nuanceSemantics, currentState, nextState, immediateExit := nuance, None, None, false;
    }

    /** stateMachine_setNextState; FALSE is the error it returns. */
    method SetNextState(state: Option<State>) returns (ok: bool)
      modifies this`nextState
      ensures ok <==> !(nuanceSemantics && old(nextState).Some?)
      ensures nextState == After(nuanceSemantics, old(nextState), SetNext(state))
    {
      if nuanceSemantics && nextState != None {
        return false;
      }
      nextState := state;
      ok := true;
    }

    /** A callback, which calls stateMachine_setNextState and stateMachine_setImmediateExit. */
    method CallBack(actions: seq<Action>)
      modifies this`nextState, this`immediateExit
      ensures nextState == AfterAll(nuanceSemantics, old(nextState), actions)
      ensures immediateExit == (old(immediateExit) || SetExit in actions)
    {
      for i := 0 to |actions|
        invariant AfterAll(nuanceSemantics, nextState, actions[i..]) ==
                  AfterAll(nuanceSemantics, old(nextState), actions)
        invariant immediateExit == (old(immediateExit) || SetExit in actions[..i])
      {
        match actions[i] {
          case SetNext(state) => var _ := SetNextState(state);
          case SetExit => immediateExit := true;
        }
        assert actions[i..][1..] == actions[i + 1..];
        assert actions[..i + 1] == actions[..i] + [actions[i]];
      }
      assert actions[..|actions|] == actions;
    }

    /** The fields hold what the callbacks of the visit so far have asked for. */
    ghost predicate Reflects(calls: seq<Call>)
      reads this
    {
      && nextState == AfterAll(nuanceSemantics, None, ActionsOf(calls))
      && immediateExit == !Quiet(calls)
    }

    /** One phase of a visit; `stuck` when the script has nothing more for a callback. */
    method DoPhase(s: State, p: Phase, ghost rest: seq<Phase>, calls: seq<Call>, script: seq<seq<Action>>, used: nat)
      returns (calls': seq<Call>, stuck: bool)
      requires used + |calls| <= |script| && FromScript(calls, script, used)
      requires Reflects(calls) && Quiet(calls) && PhasesOf(calls) + DueIn(s, [p] + rest) == Due(s)
      modifies this`nextState, this`immediateExit
      ensures used + |calls'| <= |script| && FromScript(calls', script, used)
      ensures Reflects(calls') && Begun(Visit(s, calls'))
      ensures stuck ==> Waits(s, calls', script, used)
      ensures !stuck ==> PhasesOf(calls') + DueIn(s, rest) == Due(s)
    {
      assert ([p] + rest)[1..] == rest;
      calls', stuck := calls, false;
      if p in s.callbacks {
        if used + |calls| == |script| {
          stuck := true;
          return;
        }
        var actions := script[used + |calls|];
        calls' := calls + [Call(p, actions)];
        AfterConcat(nuanceSemantics, None, ActionsOf(calls), actions);
        assert calls'[..|calls|] == calls;
        CallBack(actions);
        assert calls'[|calls|].actions == actions;
      }
    }

    /** The callbacks of the loop of stateMachine_run (268-353); `cut` when it breaks off. */
    method MakeVisit(s: State, script: seq<seq<Action>>, used: nat) returns (calls: seq<Call>, stuck: bool, cut: bool)
      requires used <= |script| && nextState == None && !immediateExit
      modifies this`nextState, this`immediateExit
      ensures used + |calls| <= |script| && FromScript(calls, script, used)
      ensures Reflects(calls) && Begun(Visit(s, calls))
      ensures stuck ==> Waits(s, calls, script, used)
      ensures cut ==> immediateExit && !stuck
      ensures !stuck && !cut ==> PhasesOf(calls) == Due(s)
    {
      cut := false;
      calls, stuck := DoPhase(s, ClassEntry, [StateEntry, StateExit, ClassExit], [], script, used);
      if stuck || immediateExit {
        return calls, stuck, !stuck;
      }
      calls, stuck := DoPhase(s, StateEntry, [StateExit, ClassExit], calls, script, used);
      if stuck || immediateExit {
        return calls, stuck, !stuck;
      }
      calls, stuck := DoPhase(s, StateExit, [ClassExit], calls, script, used);
      if stuck || immediateExit {
        return calls, stuck, !stuck;
      }
      calls, stuck := DoPhase(s, ClassExit, [], calls, script, used);
    }

    /** The same, in terms of what a run should be. */
    method VisitState(s: State, script: seq<seq<Action>>, used: nat) returns (v: Visit, stuck: bool, cut: bool)
      requires used <= |script| && nextState == None && !immediateExit
      modifies this`nextState, this`immediateExit
      ensures v.state == s && Begun(v) && used + |v.calls| <= |script| && FromScript(v.calls, script, used)
      ensures stuck ==> used + |v.calls| == |script| && Unfinished(v)
      ensures cut ==> immediateExit && !stuck
      ensures immediateExit ==> !Quiet(v.calls)
      ensures !stuck && !immediateExit ==> LeadsTo(nuanceSemantics, v, nextState) && (nextState.Some? ==> v.calls != [])
    {
      var calls;
      calls, stuck, cut := MakeVisit(s, script, used);
      KeepsTheChoice(nuanceSemantics, None, ActionsOf(calls));
      v := Visit(s, calls);
    }

    /** stateMachine_run. Every callback it makes is one of the visits, with the actions that the
        script has for it in this order; the visits are a run; and if it returns by itself the run
        is over, otherwise the next callback is one for which the script has no actions. */
    method Run(initialState: State, script: seq<seq<Action>>) returns (visits: seq<Visit>, stuck: bool)
      modifies this
      ensures IsRun(nuanceSemantics, initialState, visits)
      ensures AllActions(visits) <= script
      ensures !stuck ==> Over(nuanceSemantics, visits[|visits| - 1])
      ensures stuck ==> AllActions(visits) == script && Unfinished(visits[|visits| - 1])
    {
      currentState, nextState, immediateExit := Some(initialState), None, false;
      visits := [];
      var used := 0;
      while true
        invariant currentState.Some? && nextState == None && !immediateExit
        invariant used <= |script| && AllActions(visits) == script[..used]
        invariant Visited(nuanceSemantics, initialState, visits, currentState)
        decreases |script| - used
      {
        var v, cut;
        v, stuck, cut := VisitState(currentState.value, script, used);
        OneMoreBegun(nuanceSemantics, initialState, visits, v);
        OneMoreUsed(visits, v, script, used);
        if stuck || cut {
          visits := visits + [v];
          return;
        }
        if !immediateExit {
          OneMoreVisited(nuanceSemantics, initialState, visits, v, nextState);
        }
        visits := visits + [v];
        currentState, nextState := nextState, None;
        if immediateExit || currentState == None {
          return;
        }
        used := used + |v.calls|;
      }
    }
  }

  /** The state that comes after visit i. */
  ghost function Following(visits: seq<Visit>, i: nat, current: Option<State>): Option<State> {
    if i + 1 < |visits| then Some(visits[i + 1].state) else current
  }

  /** Full visits, which lead to a current state. */
  ghost predicate Visited(nuance: bool, initial: State, visits: seq<Visit>, current: Option<State>) {
    && (if visits == [] then current == Some(initial) else visits[0].state == initial)
    && (forall i {:trigger visits[i]} :: 0 <= i < |visits| ==>
          LeadsTo(nuance, visits[i], Following(visits, i, current)))
  }

  lemma OneMoreVisited(nuance: bool, initial: State, visits: seq<Visit>, v: Visit, next: Option<State>)
    requires Visited(nuance, initial, visits, Some(v.state)) && LeadsTo(nuance, v, next)
    ensures Visited(nuance, initial, visits + [v], next)
  {
    var visits' := visits + [v];
    forall i | 0 <= i < |visits'| ensures LeadsTo(nuance, visits'[i], Following(visits', i, next)) {
      if i < |visits| {
        assert visits'[i] == visits[i];
        assert Following(visits', i, next) == Following(visits, i, Some(v.state));
      }
    }
  }

  lemma OneMoreBegun(nuance: bool, initial: State, visits: seq<Visit>, v: Visit)
    requires Visited(nuance, initial, visits, Some(v.state)) && Begun(v)
    ensures IsRun(nuance, initial, visits + [v])
  {
    var visits' := visits + [v];
    forall i | 0 <= i < |visits'| - 1 ensures LeadsTo(nuance, visits'[i], Some(visits'[i + 1].state)) {
      assert visits'[i] == visits[i];
      assert Some(visits'[i + 1].state) == Following(visits, i, Some(v.state));
    }
  }

  lemma OneMoreUsed(visits: seq<Visit>, v: Visit, script: seq<seq<Action>>, used: nat)
    requires used + |v.calls| <= |script| && AllActions(visits) == script[..used] && FromScript(v.calls, script, used)
    ensures AllActions(visits + [v]) == script[..used + |v.calls|]
  {
    assert (visits + [v])[..|visits|] == visits;
  }

  /** The calls took their actions from the script, from a point on. */
  ghost predicate FromScript(calls: seq<Call>, script: seq<seq<Action>>, used: nat)
    requires used + |calls| <= |script|
  {
    forall i :: 0 <= i < |calls| ==> calls[i].actions == script[used + i]
  }

  /** A callback is due for which the script has nothing. */
  ghost predicate Waits(s: State, calls: seq<Call>, script: seq<seq<Action>>, used: nat) {
    used + |calls| == |script| && Unfinished(Visit(s, calls))
  }

  ghost predicate Unfinished(v: Visit) { Quiet(v.calls) && PhasesOf(v.calls) < Due(v.state) }

  /** The actions of all callbacks of a run. */
  function AllActions(visits: seq<Visit>): seq<seq<Action>> {
    if visits == [] then [] else AllActions(visits[..|visits| - 1]) + CallActions(visits[|visits| - 1].calls)
  }

  function CallActions(calls: seq<Call>): seq<seq<Action>> {
    seq(|calls|, i requires 0 <= i < |calls| => calls[i].actions)
  }
}
