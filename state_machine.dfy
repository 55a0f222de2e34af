/**
 * The generic entity state machine (StateMachine.cs): a registry of state
 * children by class name, the Exit-then-Enter change of state, and tick forwarding.
 * States are named by their child index; what a state does on Enter, Exit or a
 * tick is its own module's business, so the machine records the calls it makes.
 */
module StateMachine {
  import opened Wrappers

  /** A state's class name. */
  type StateId = string

  /** A child node of the machine: a state with its class name, or any other node. */
  datatype Child = StateNode(stateId: StateId) | OtherNode

  /** A call the machine makes on one of its states (named by child index). */
  datatype Call =
    | Init(state: nat)
    | Enter(state: nat)
    | Exit(state: nat)
    | Process(state: nat, delta: real)
    | PhysicsProcess(state: nat, delta: real)

  /** The registry _Ready builds from the children, in order. */
  function Registry(children: seq<Child>): map<StateId, nat>
  {
    if |children| == 0 then map[]
    else
      var last := |children| - 1;
      var r := Registry(children[..last]);
      if children[last].StateNode? then r[children[last].stateId := last] else r
  }

  /**
   * Every state child is registered under its name, every entry points at a
   * state child of that name, and a later child of the same name wins.
   */
  lemma {:induction false} RegistryKeepsLastStateOfEachName(children: seq<Child>)
    ensures forall id :: id in Registry(children) ==>
      Registry(children)[id] < |children| && children[Registry(children)[id]] == StateNode(id)
    ensures forall id, j :: id in Registry(children) && Registry(children)[id] < j < |children| ==> children[j] != StateNode(id)
    ensures forall i :: 0 <= i < |children| && children[i].StateNode? ==> children[i].stateId in Registry(children)
  {
    if |children| > 0 {
      var last := |children| - 1;
      var prefix := children[..last];
      RegistryKeepsLastStateOfEachName(prefix);
      var r := Registry(prefix);
      assert Registry(children) == if children[last].StateNode? then r[children[last].stateId := last] else r;
      forall id | id in Registry(children)
        ensures Registry(children)[id] < |children| && children[Registry(children)[id]] == StateNode(id)
      {
        if children[last] != StateNode(id) {
          assert prefix[r[id]] == children[r[id]];
        }
      }
      forall id, j | id in Registry(children) && Registry(children)[id] < j < |children|
        ensures children[j] != StateNode(id)
      {
        if children[last] != StateNode(id) && j < last {
          assert prefix[j] == children[j];
        }
      }
      forall i | 0 <= i < |children| && children[i].StateNode?
        ensures children[i].stateId in Registry(children)
      {
        if i < last {
          assert prefix[i] == children[i];
        }
      }
    }
  }

  /** The Init calls _Ready makes, one per state child, in child order. */
  function InitCalls(children: seq<Child>): (calls: seq<Call>)
    ensures |calls| <= |children|
    ensures forall k :: 0 <= k < |calls| ==> calls[k].Init? && calls[k].state < |children| && children[calls[k].state].StateNode?
  {
    if |children| == 0 then []
    else
      var last := |children| - 1;
      var before := InitCalls(children[..last]);
      if children[last].StateNode? then before + [Init(last)] else before
  }

  /** The machine's state as a value. */
  datatype Machine = Machine(registry: map<StateId, nat>, current: Option<nat>, calls: seq<Call>)

  /** The Exit call owed to the current state, if there is one. */
  function ExitCurrent(current: Option<nat>): seq<Call>
  {
    if current.Some? then [Exit(current.value)] else []
  }

  /**
   * ChangeState as a value: None when the id is not registered (the source throws
   * before touching anything); otherwise the old state is exited and the new one,
   * already current, is entered.
   */
  function Change(m: Machine, id: StateId): (r: Option<Machine>)
    ensures r.None? <==> id !in m.registry
    ensures r.Some? ==> r.value.registry == m.registry && r.value.current == Some(m.registry[id])
    ensures r.Some? ==> |r.value.calls| > |m.calls| && r.value.calls[..|m.calls|] == m.calls
    ensures r.Some? ==> r.value.calls[|r.value.calls| - 1] == Enter(m.registry[id])
  {
    if id !in m.registry then None
    else
      var calls := m.calls + ExitCurrent(m.current) + [Enter(m.registry[id])];
      assert calls[..|m.calls|] == m.calls;
      Some(Machine(m.registry, Some(m.registry[id]), calls))
  }

  /**
   * A ChangeState issued from inside Enter runs completely before the outer one
   * returns: the nested target ends up current, after Exit of the state just entered.
   */
  lemma NestedChangeLandsOnInnerTarget(m: Machine, outer: StateId, inner: StateId)
    requires outer in m.registry && inner in m.registry
    ensures Change(m, outer).Some?
    ensures Change(Change(m, outer).value, inner).Some?
    ensures var r := Change(Change(m, outer).value, inner).value;
      r.current == Some(m.registry[inner]) &&
      r.calls == m.calls + ExitCurrent(m.current) + [Enter(m.registry[outer]), Exit(m.registry[outer]), Enter(m.registry[inner])]
  {
  }

  /** Changing to the current state exits it and enters it again. */
  lemma SelfChangeReenters(m: Machine, id: StateId)
    requires id in m.registry && m.current == Some(m.registry[id])
    ensures Change(m, id).Some?
    ensures Change(m, id).value.calls == m.calls + [Exit(m.registry[id]), Enter(m.registry[id])]
    ensures Change(m, id).value.current == m.current
  {
  }

  class StateMachine {
    var registry: map<StateId, nat>
    var current: Option<nat>
    var calls: seq<Call>

    constructor ()
      ensures registry == map[] && current.None? && calls == []
    {
      registry := map[];
      current := None;
      calls := [];
    }

    function Snapshot(): Machine
      reads this
    {
      Machine(registry, current, calls)
    }

    /** _Ready: registers and initialises every state child in order, skipping other children. */
    method Ready(children: seq<Child>)
      modifies this
      ensures registry == old(registry) + Registry(children)
      ensures calls == old(calls) + InitCalls(children)
      ensures current == old(current)
    {
      var i := 0;
      while i < |children|
        invariant 0 <= i <= |children|
        invariant registry == old(registry) + Registry(children[..i])
        invariant calls == old(calls) + InitCalls(children[..i])
        invariant current == old(current)
      {
        assert children[..i + 1][..i] == children[..i];
        if children[i].StateNode? {
          assert Registry(children[..i + 1]) == Registry(children[..i])[children[i].stateId := i];
          assert (old(registry) + Registry(children[..i]))[children[i].stateId := i]
              == old(registry) + Registry(children[..i])[children[i].stateId := i];
          registry := registry[children[i].stateId := i];
          calls := calls + [Init(i)];
        }
        i := i + 1;
      }
      assert children[..|children|] == children;
    }

    /** ChangeState: `thrown` when the id is unregistered, and then nothing changes. */
    method ChangeState(id: StateId) returns (thrown: bool)
      modifies this
      ensures thrown <==> Change(old(Snapshot()), id).None?
      ensures thrown ==> Snapshot() == old(Snapshot())
      ensures !thrown ==> Snapshot() == Change(old(Snapshot()), id).value
    {
      if id !in registry {
        return true;
      }
      calls := calls + ExitCurrent(current);
      current := Some(registry[id]);
      calls := calls + [Enter(current.value)];
      return false;
    }

    /** _Process: forwarded to the current state only. */
    method ProcessTick(delta: real)
      modifies this
      ensures calls == old(calls) + (if current.Some? then [Process(current.value, delta)] else [])
      ensures registry == old(registry) && current == old(current)
    {
      if current.Some? {
        calls := calls + [Process(current.value, delta)];
      }
    }

    /** _PhysicsProcess: forwarded to the current state only. */
    method PhysicsTick(delta: real)
      modifies this
      ensures calls == old(calls) + (if current.Some? then [PhysicsProcess(current.value, delta)] else [])
      ensures registry == old(registry) && current == old(current)
    {
      if current.Some? {
        calls := calls + [PhysicsProcess(current.value, delta)];
      }
    }
  }

  /**
   * A machine whose children are Idle, a label, Move and a second Idle registers
   * the later Idle, and an unknown state id throws without exiting anything.
   */
  method DuplicateNameAndUnknownState() returns (idle: nat, thrown: bool, calls: seq<Call>)
    ensures idle == 3 && thrown
    ensures calls == [Init(0), Init(2), Init(3), Enter(3)]
  {
    var machine := new StateMachine();
    var children := [StateNode("IdleState"), OtherNode, StateNode("MoveState"), StateNode("IdleState")];
    machine.Ready(children);
    assert children[..3][..2][..1] == [StateNode("IdleState")];
    assert children[..3][..2] == [StateNode("IdleState"), OtherNode];
    assert children[..3] == [StateNode("IdleState"), OtherNode, StateNode("MoveState")];
    assert [StateNode("IdleState")][..0] == [];
    assert Registry([StateNode("IdleState")]) == map["IdleState" := 0];
    assert Registry(children[..3]) == map["IdleState" := 0, "MoveState" := 2];
    assert Registry(children) == map["IdleState" := 3, "MoveState" := 2];
    assert InitCalls([StateNode("IdleState")]) == [Init(0)];
    assert InitCalls(children) == [Init(0), Init(2), Init(3)];
    var t := machine.ChangeState("IdleState");
    thrown := machine.ChangeState("DashState");
    idle := machine.registry["IdleState"];
    calls := machine.calls;
  }
}
