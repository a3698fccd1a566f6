/**
 * The Action behaviour tree: an ActionList runs each of its "Actions" children
 * once per update, in order, and only after the whole pass appends the actions
 * that its ActionCreateAction children asked for. Actions are tagged variants;
 * one update of an action is the function Step, and the top-level list whose
 * table createAction and update change in place is the class ActionList.
 */
module Actions {
  import opened Prelude

  /** One action of the tree. */
  datatype Action =
      /** ActionList: a name and the ordered "Actions" table. */
    | List(name: string, actions: seq<Action>)
      /** ActionIncrement: counts its updates. */
    | Increment(name: string, count: int)
      /** ActionCreateAction: asks its owning list for a new instanceName instance of class prototype. */
    | Creator(name: string, prototype: string, instanceName: string)
      /** ActionListIf: a condition and the "Then" and "Else" lists. */
    | ListIf(name: string, condition: bool, thenActions: seq<Action>, elseActions: seq<Action>)

  /** The class names the action factories are registered for. */
  predicate IsKnownClass(className: string)
  {
    className == "ActionList" || className == "ActionIncrement" ||
    className == "ActionCreateAction" || className == "ActionListIf"
  }

  /** A freshly constructed action: empty tables, a zero count, no prototype, a false condition. */
  predicate IsFresh(a: Action)
  {
    match a
    case List(_, actions) => actions == []
    case Increment(_, count) => count == 0
    case Creator(_, prototype, instanceName) => prototype == "" && instanceName == ""
    case ListIf(_, condition, thenActions, elseActions) => !condition && thenActions == [] && elseActions == []
  }

  /**
   * The factory lookup: a fresh action of the named class carrying instanceName,
   * or None for a class no factory is registered for.
   */
  function Instantiate(className: string, instanceName: string): (r: Option<Action>)
    ensures r.Some? <==> IsKnownClass(className)
    ensures r.Some? ==> r.value.name == instanceName && IsFresh(r.value)
    ensures r.Some? ==> (className == "ActionList" <==> r.value.List?)
    ensures r.Some? ==> (className == "ActionIncrement" <==> r.value.Increment?)
    ensures r.Some? ==> (className == "ActionCreateAction" <==> r.value.Creator?)
    ensures r.Some? ==> (className == "ActionListIf" <==> r.value.ListIf?)
  {
    if className == "ActionList" then Some(List(instanceName, []))
    else if className == "ActionIncrement" then Some(Increment(instanceName, 0))
    else if className == "ActionCreateAction" then Some(Creator(instanceName, "", ""))
    else if className == "ActionListIf" then Some(ListIf(instanceName, false, [], []))
    else None
  }

  /** A creation request: (prototype class name, instance name). */
  type Request = (string, string)

  /** The requests the Creator children of a table record during one pass, in order. */
  function Requests(cs: seq<Action>): (r: seq<Request>)
    ensures |r| <= |cs|
    decreases |cs|
  {
    if cs == [] then []
    else
      var last := cs[|cs| - 1];
      Requests(cs[..|cs| - 1]) + (if last.Creator? then [(last.prototype, last.instanceName)] else [])
  }

  /** Applying the requests after the pass: each known prototype is instantiated, unknown ones are dropped. */
  function Materialize(requests: seq<Request>): (r: seq<Action>)
    ensures |r| <= |requests|
    decreases |requests|
  {
    if requests == [] then []
    else
      var last := requests[|requests| - 1];
      Materialize(requests[..|requests| - 1]) +
        (match Instantiate(last.0, last.1) case Some(a) => [a] case None => [])
  }

  /** update on one action. */
  function Step(a: Action): Action
    decreases a, 1
  {
    match a
    case List(name, actions) => List(name, RunPass(actions))
    case Increment(name, count) => Increment(name, count + 1)
    case Creator(_, _, _) => a
    case ListIf(name, condition, thenActions, elseActions) =>
      if condition then ListIf(name, condition, RunPass(thenActions), elseActions)
      else ListIf(name, condition, thenActions, RunPass(elseActions))
  }

  /** Every child of a table updated once, in order. */
  function StepAll(cs: seq<Action>): (r: seq<Action>)
    ensures |r| == |cs| && forall i :: 0 <= i < |cs| ==> r[i] == Step(cs[i])
    decreases cs, 0
  {
    if cs == [] then [] else [Step(cs[0])] + StepAll(cs[1..])
  }

  /** One pass of a list over its table: every child updated, then the requested actions appended. */
  function RunPass(cs: seq<Action>): seq<Action>
    decreases cs, 1
  {
    StepAll(cs) + Materialize(Requests(cs))
  }

  /** The action after k updates. */
  function StepN(a: Action, k: nat): Action
    decreases k
  {
    if k == 0 then a else StepN(Step(a), k - 1)
  }

  /** Every action present at the start of a pass runs exactly once in it, and keeps its place. */
  lemma PassRunsEachChildOnce(cs: seq<Action>)
    ensures |RunPass(cs)| >= |cs|
    ensures forall i :: 0 <= i < |cs| ==> RunPass(cs)[i] == Step(cs[i])
  {
  }

  /**
   * The actions appended after a pass are fresh instances, one per request with
   * a known prototype, carrying the requested instance names; they did not run.
   */
  lemma {:induction false} MaterializeSpec(requests: seq<Request>)
    ensures forall k :: 0 <= k < |Materialize(requests)| ==> IsFresh(Materialize(requests)[k])
    ensures (forall k :: 0 <= k < |requests| ==> IsKnownClass(requests[k].0)) ==>
              |Materialize(requests)| == |requests| &&
              forall k :: 0 <= k < |requests| ==> Materialize(requests)[k] == Instantiate(requests[k].0, requests[k].1).value
    ensures (forall k :: 0 <= k < |requests| ==> !IsKnownClass(requests[k].0)) ==> Materialize(requests) == []
    decreases |requests|
  {
    if requests != [] {
      var init := requests[..|requests| - 1];
      MaterializeSpec(init);
      assert forall k :: 0 <= k < |init| ==> init[k] == requests[k];
    }
  }

  /** The requests of a table are those of its Creator children, in order. */
  lemma {:induction false} RequestsSpec(cs: seq<Action>)
    ensures (forall i :: 0 <= i < |cs| ==> !cs[i].Creator?) ==> Requests(cs) == []
    ensures (forall i :: 0 <= i < |cs| ==> cs[i].Creator?) ==>
              |Requests(cs)| == |cs| &&
              forall i :: 0 <= i < |cs| ==> Requests(cs)[i] == (cs[i].prototype, cs[i].instanceName)
    decreases |cs|
  {
    if cs != [] {
      var init := cs[..|cs| - 1];
      RequestsSpec(init);
      assert forall i :: 0 <= i < |init| ==> init[i] == cs[i];
    }
  }

  /** The requests of two tables one after the other are the first table's followed by the second's. */
  lemma {:induction false} RequestsAppend(a: seq<Action>, b: seq<Action>)
    ensures Requests(a + b) == Requests(a) + Requests(b)
    decreases |b|
  {
    if b == [] {
      assert a + b == a;
    } else {
      var c := a + b;
      var init := b[..|b| - 1];
      assert c[..|c| - 1] == a + init;
      assert c[|c| - 1] == b[|b| - 1];
      RequestsAppend(a, init);
    }
  }

  /** Materializing two request lists one after the other is materializing each in turn. */
  lemma {:induction false} MaterializeAppend(a: seq<Request>, b: seq<Request>)
    ensures Materialize(a + b) == Materialize(a) + Materialize(b)
    decreases |b|
  {
    if b == [] {
      assert a + b == a;
    } else {
      var c := a + b;
      var init := b[..|b| - 1];
      assert c[..|c| - 1] == a + init;
      assert c[|c| - 1] == b[|b| - 1];
      MaterializeAppend(a, init);
    }
  }

  /** The actions one child has created after a pass: a Creator with a known prototype creates one, everything else none. */
  function CreatedBy(x: Action): (r: seq<Action>)
    ensures |r| <= 1
    ensures |r| == 1 <==> x.Creator? && IsKnownClass(x.prototype)
    ensures |r| == 1 ==> r[0] == Instantiate(x.prototype, x.instanceName).value
  {
    if x.Creator? then
      match Instantiate(x.prototype, x.instanceName)
      case Some(a) => [a]
      case None => []
    else []
  }

  /** The actions a table's children create in a pass, child by child from the front: an independent reference for Materialize(Requests(cs)). */
  function Created(cs: seq<Action>): seq<Action>
    decreases |cs|
  {
    if cs == [] then [] else CreatedBy(cs[0]) + Created(cs[1..])
  }

  /**
   * For any table, creators and other children mixed, the actions appended
   * after a pass are exactly those its Creator children with a known prototype
   * create, one each, in the children's order.
   */
  lemma {:induction false} AppendedAreCreated(cs: seq<Action>)
    ensures Materialize(Requests(cs)) == Created(cs)
    decreases |cs|
  {
    if cs != [] {
      var head, rest := cs[0], cs[1..];
      assert cs == [head] + rest;
      RequestsAppend([head], rest);
      MaterializeAppend(Requests([head]), Requests(rest));
      assert [head][..0] == [];
      assert Requests([head]) == if head.Creator? then [(head.prototype, head.instanceName)] else [];
      if head.Creator? {
        var req := (head.prototype, head.instanceName);
        assert [req][..0] == [];
        assert Materialize([req]) == CreatedBy(head);
      }
      AppendedAreCreated(rest);
    }
  }

  /** A pass over any table: every child updated in place, then what its creators create, in their order. */
  lemma PassOverMixedTable(cs: seq<Action>)
    ensures RunPass(cs) == StepAll(cs) + Created(cs)
  {
    AppendedAreCreated(cs);
  }

  /** A table without Creator children keeps its length over a pass: nothing is created. */
  lemma NoCreatorNoGrowth(cs: seq<Action>)
    requires forall i :: 0 <= i < |cs| ==> !cs[i].Creator?
    ensures RunPass(cs) == StepAll(cs)
  {
    RequestsSpec(cs);
  }

  /** An ActionIncrement counts its updates: k updates add exactly k. */
  lemma {:induction false} IncrementCounts(name: string, count: int, k: nat)
    ensures StepN(Increment(name, count), k) == Increment(name, count + k)
    decreases k
  {
    if k > 0 {
      IncrementCounts(name, count + 1, k - 1);
    }
  }

  /** An ActionListIf runs exactly one branch: the "Then" list when its condition holds, else the "Else" list. */
  lemma ListIfRunsOneBranch(a: Action)
    requires a.ListIf?
    ensures Step(a).ListIf? && Step(a).name == a.name && Step(a).condition == a.condition
    ensures a.condition ==> Step(a).thenActions == RunPass(a.thenActions) && Step(a).elseActions == a.elseActions
    ensures !a.condition ==> Step(a).elseActions == RunPass(a.elseActions) && Step(a).thenActions == a.thenActions
  {
  }

  /** A child ActionList updates by running one pass over its own table. */
  lemma StepListRunsItsPass(name: string, cs: seq<Action>)
    ensures Step(List(name, cs)) == List(name, RunPass(cs))
  {
  }

  /** An ActionCreateAction is left as it is by its update; it only records its request in the owning list's pass. */
  lemma StepCreatorIsIdle(a: Action)
    requires a.Creator?
    ensures Step(a) == a
  {
  }

  /** An update never renames an action nor changes its variant. */
  lemma StepKeepsIdentity(a: Action)
    ensures Step(a).name == a.name
    ensures Step(a).List? == a.List? && Step(a).Increment? == a.Increment?
    ensures Step(a).Creator? == a.Creator? && Step(a).ListIf? == a.ListIf?
  {
  }

  class ActionList {
    var name: string              // the "Name" attribute
    var actions: seq<Action>      // the "Actions" table

    /** ActionList(): no name and an empty table. */
    constructor ()
      ensures name == "" && actions == []
    {
      name := "";
      actions := [];
    }

    /** Name() */
    function Name(): string
      reads this
    {
      name
    }

    /** SetName(name): only the name changes. */
    method SetName(newName: string)
      modifies this`name
      ensures Name() == newName
    {
      name := newName;
    }

    /**
     * createAction(className, instanceName): a fresh action of that class is
     * appended to the table and returned; an unknown class name adds nothing.
     */
    method CreateAction(className: string, instanceName: string) returns (created: Option<Action>)
      modifies this`actions
      ensures created == Instantiate(className, instanceName)
      ensures created.Some? ==> actions == old(actions) + [created.value]
      ensures created.None? ==> actions == old(actions)
    {
      created := Instantiate(className, instanceName);
      if created.Some? {
        actions := actions + [created.value];
      }
    }

    /**
     * update(worldState): updates each child in order while collecting the
     * creation requests, then appends the requested actions.
     */
    method Update()
      modifies this`actions
      ensures actions == RunPass(old(actions))
    {
      var children := actions;
      var stepped: seq<Action> := [];
      var requests: seq<Request> := [];
      var i := 0;
      while i < |children|
        invariant 0 <= i <= |children|
        invariant |stepped| == i && forall k :: 0 <= k < i ==> stepped[k] == Step(children[k])
        invariant requests == Requests(children[..i])
      {
        assert children[..i + 1][..i] == children[..i];
        stepped := stepped + [Step(children[i])];
        if children[i].Creator? {
          requests := requests + [(children[i].prototype, children[i].instanceName)];
        }
        i := i + 1;
      }
      assert children[..i] == children;
      actions := stepped + Materialize(requests);
    }
  }

  /** A default list is named "", and SetName("Dale") renames it. */
  method NameScenario() returns (list: ActionList)
    ensures list.Name() == "Dale"
  {
    list := new ActionList();
    assert list.Name() == "";
    list.SetName("Dale");
  }

  /** createAction("ActionList", ...) on an empty list yields an action at index 0 of the table. */
  method CreateActionScenario() returns (list: ActionList, created: Option<Action>)
    ensures created.Some? && created.value.List? && list.actions == [created.value]
  {
    list := new ActionList();
    created := list.CreateAction("ActionList", "newAction");
  }

  /**
   * An ActionCreateAction child whose prototype was set to "ActionList": after
   * one update of the list, index 1 of the table holds a new ActionList.
   */
  lemma CreatorScenario(name: string, instanceName: string)
    ensures |RunPass([Creator(name, "ActionList", instanceName)])| == 2
    ensures RunPass([Creator(name, "ActionList", instanceName)])[1] == List(instanceName, [])
  {
    var cs := [Creator(name, "ActionList", instanceName)];
    RequestsSpec(cs);
    var requests := [("ActionList", instanceName)];
    assert Requests(cs) == requests;
    MaterializeSpec(requests);
    assert Materialize(requests) == [List(instanceName, [])];
    assert StepAll(cs) == cs;
  }

  /** An ActionListIf with a true condition and an ActionIncrement under "Then": one update moves its count from 0 to 1. */
  lemma ListIfScenario(name: string, increment: string)
    ensures Step(ListIf(name, true, [Increment(increment, 0)], [])).thenActions == [Increment(increment, 1)]
  {
    NoCreatorNoGrowth([Increment(increment, 0)]);
  }
}
