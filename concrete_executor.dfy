/**
 * The concrete flow walker of the server
 * (server/src/app/evaluators/executors/concrete_executor.py): starting below
 * the Start node, it consumes the node list one node per step, follows the
 * branch a conditional's expression selects, and answers with the response
 * of the End node it reaches. Expression evaluation is a parameter `eval`
 * (the parser and the evaluator's tree walk are not part of this model).
 */
module ConcreteExecutor {
  import opened Wrappers
  import opened Text
  import opened PyValues

  /** server/src/app/models/metadata_model.py */
  datatype InputType = NumberInput | TextInput | BoolInput
  datatype Input = Input(displayName: string, inputType: InputType, required: bool)

  /** The metadata of each node type; the node type is the metadata's variant. */
  datatype Metadata = StartMeta(inputs: seq<Input>) | ConditionalMeta(expression: string) | EndMeta(response: Value)

  /** `AnyNode` of server/src/app/models/node_model.py */
  datatype FlowNode = FlowNode(
    nodeId: string,
    nodeName: string,
    parentNodeId: Option<string>,
    isFalseCase: Option<bool>,
    metadata: Metadata)

  /** The filter of the walker's `next(...)` searches: this parent, and this branch flag when one is given. */
  predicate Matches(n: FlowNode, parentId: string, flag: Option<bool>) {
    n.parentNodeId == Some(parentId) && (flag.None? || n.isFalseCase == flag)
  }

  /** `next((node for node in nodes if …), None)`: the first matching node. */
  function First(ns: seq<FlowNode>, parentId: string, flag: Option<bool>): (r: Option<FlowNode>)
    ensures r.None? <==> forall i :: 0 <= i < |ns| ==> !Matches(ns[i], parentId, flag)
    ensures r.Some? ==> exists i :: (0 <= i < |ns| && ns[i] == r.value && Matches(ns[i], parentId, flag)
      && forall j :: 0 <= j < i ==> !Matches(ns[j], parentId, flag))
  {
    if ns == [] then None
    else if Matches(ns[0], parentId, flag) then Some(ns[0])
    else
      var r := First(ns[1..], parentId, flag);
      assert forall i :: 0 <= i < |ns[1..]| ==> ns[1..][i] == ns[i + 1];
      if r.Some? then
        var i :| 0 <= i < |ns[1..]| && ns[1..][i] == r.value && Matches(ns[1..][i], parentId, flag)
          && forall j :: 0 <= j < i ==> !Matches(ns[1..][j], parentId, flag);
        assert ns[i + 1] == r.value;
        r
      else r
  }

  /** The position `list.remove` deletes: the first element equal to `x`, or -1 (`ValueError`). */
  function IndexOf(ns: seq<FlowNode>, x: FlowNode): (i: int)
    ensures -1 <= i < |ns|
    ensures i == -1 <==> x !in ns
    ensures i != -1 ==> ns[i] == x && x !in ns[..i]
  {
    if ns == [] then -1
    else if ns[0] == x then 0
    else
      var k := IndexOf(ns[1..], x);
      assert ns == [ns[0]] + ns[1..];
      if k == -1 then -1
      else
        assert ns[..k + 1] == [ns[0]] + ns[1..][..k];
        k + 1
  }

  /** The rule string handed to the evaluator: single quotes become double quotes, whitespace is stripped. */
  function Rule(expression: string): string {
    Trim(ReplaceChar(expression, '\'', '"'))
  }

  /** The state of the walker's `next_node` variable: not yet bound, or bound to a search result. */
  datatype NextBinding = Unbound | Bound(next: Option<FlowNode>)

  /** What a walk ends with: a response or an exception, and the list left behind. */
  datatype Run = Run(outcome: Result<Value, PyError>, remaining: seq<FlowNode>)

  /**
   * The walk from `current` over the list `ns`. Each step removes the
   * current node first; an empty list then means a broken flow, even at an
   * End node. A conditional moves to the first child whose `isFalseCase`
   * is the negated result; a Start node falls through to whatever
   * `next_node` still holds.
   */
  function Walk(ns: seq<FlowNode>, current: FlowNode, prev: NextBinding, eval: string -> bool): Run
    decreases |ns|
  {
    var k := IndexOf(ns, current);
    if k == -1 then Run(Err(ValueError), ns)
    else
      var rest := ns[..k] + ns[k + 1..];
      if |rest| == 0 then Run(Err(InvalidFlow), rest)
      else
        match current.metadata
        case EndMeta(response) => Run(Ok(response), rest)
        case ConditionalMeta(expression) =>
          if current.parentNodeId.None? then Run(Err(AssertionError), rest)
          else
            var next := First(rest, current.nodeId, Some(!eval(Rule(expression))));
            if next.None? then Run(Err(InvalidFlow), rest)
            else Walk(rest, next.value, Bound(next), eval)
        case StartMeta(_) =>
          match prev
          case Unbound => Run(Err(UnboundLocalError), rest)
          case Bound(next) =>
            if next.None? then Run(Err(InvalidFlow), rest)
            else Walk(rest, next.value, prev, eval)
  }

  /** `execute`: the walk from the first node hung below the start id; without one the assert fails. */
  function Execution(ns: seq<FlowNode>, startId: string, eval: string -> bool): Run {
    var first := First(ns, startId, None);
    if first.None? then Run(Err(AssertionError), ns)
    else Walk(ns, first.value, Unbound, eval)
  }

  /**
   * Each step removes the current node: the list left behind is never
   * longer, and strictly shorter once the current node was in the list, so
   * the loop runs at most the list's length times.
   */
  lemma {:induction false} WalkShrinks(ns: seq<FlowNode>, current: FlowNode, prev: NextBinding, eval: string -> bool)
    ensures |Walk(ns, current, prev, eval).remaining| <= |ns|
    ensures current in ns ==> |Walk(ns, current, prev, eval).remaining| < |ns|
    decreases |ns|
  {
    if IndexOf(ns, current) != -1 {
      var k := IndexOf(ns, current);
      assert |ns[..k] + ns[k + 1..]| == |ns| - 1;
      var step := WalkStep(ns, current, prev, eval);
      if step.Some? {
        WalkShrinks(ns[..k] + ns[k + 1..], step.value.0, step.value.1, eval);
      }
    }
  }

  /** The walk only ever removes nodes: what is left is a sub-multiset of the list. */
  lemma {:induction false} WalkOnlyRemoves(ns: seq<FlowNode>, current: FlowNode, prev: NextBinding, eval: string -> bool)
    ensures multiset(Walk(ns, current, prev, eval).remaining) <= multiset(ns)
    decreases |ns|
  {
    if IndexOf(ns, current) != -1 {
      var k := IndexOf(ns, current);
      var rest := ns[..k] + ns[k + 1..];
      RemovalIsSubMultiset(ns, k);
      var step := WalkStep(ns, current, prev, eval);
      if step.Some? {
        WalkOnlyRemoves(rest, step.value.0, step.value.1, eval);
      }
    }
  }

  /** Dropping the element at `k` leaves a sub-multiset. */
  lemma RemovalIsSubMultiset(ns: seq<FlowNode>, k: int)
    requires 0 <= k < |ns|
    ensures multiset(ns[..k] + ns[k + 1..]) <= multiset(ns)
  {
    assert ns == ns[..k] + [ns[k]] + ns[k + 1..];
  }

  /** A response is always the `response` of an End node of the list, never invented. */
  lemma {:induction false} ResponseFromEndNode(ns: seq<FlowNode>, current: FlowNode, prev: NextBinding, eval: string -> bool)
    ensures Walk(ns, current, prev, eval).outcome.Ok? ==>
      exists i :: 0 <= i < |ns| && ns[i].metadata == EndMeta(Walk(ns, current, prev, eval).outcome.value)
    decreases |ns|
  {
    if IndexOf(ns, current) != -1 {
      var k := IndexOf(ns, current);
      var rest := ns[..k] + ns[k + 1..];
      var step := WalkStep(ns, current, prev, eval);
      if step.Some? {
        ResponseFromEndNode(rest, step.value.0, step.value.1, eval);
        ElementOfRest(ns, k, rest, Walk(rest, step.value.0, step.value.1, eval).outcome);
      } else if Walk(ns, current, prev, eval).outcome.Ok? {
        assert ns[k].metadata == EndMeta(Walk(ns, current, prev, eval).outcome.value);
      }
    }
  }

  lemma ElementOfRest(ns: seq<FlowNode>, k: int, rest: seq<FlowNode>, outcome: Result<Value, PyError>)
    requires 0 <= k < |ns| && rest == ns[..k] + ns[k + 1..]
    requires outcome.Ok? ==> exists i :: 0 <= i < |rest| && rest[i].metadata == EndMeta(outcome.value)
    ensures outcome.Ok? ==> exists i :: 0 <= i < |ns| && ns[i].metadata == EndMeta(outcome.value)
  {
    if outcome.Ok? {
      var i :| 0 <= i < |rest| && rest[i].metadata == EndMeta(outcome.value);
      if i < k {
        assert rest[i] == ns[i];
      } else {
        assert rest[i] == ns[i + 1];
      }
    }
  }

  /**
   * What one step of the walk from a node of the list amounts to: it either
   * stops, leaving the rest of the list (with a response only at an End
   * node), or goes on over the rest from the node and binding in `step`.
   */
  predicate StepSound(ns: seq<FlowNode>, current: FlowNode, prev: NextBinding, eval: string -> bool,
                      step: Option<(FlowNode, NextBinding)>)
    requires IndexOf(ns, current) != -1
  {
    var k := IndexOf(ns, current);
    var rest := ns[..k] + ns[k + 1..];
    var w := Walk(ns, current, prev, eval);
    (step.None? ==> w.remaining == rest)
    && (step.None? && w.outcome.Ok? ==> current.metadata == EndMeta(w.outcome.value))
    && (step.Some? ==> w == Walk(rest, step.value.0, step.value.1, eval))
  }

  /** Every step of the walk from a node of the list is of that form. */
  lemma WalkStep(ns: seq<FlowNode>, current: FlowNode, prev: NextBinding, eval: string -> bool)
    returns (step: Option<(FlowNode, NextBinding)>)
    requires IndexOf(ns, current) != -1
    ensures StepSound(ns, current, prev, eval, step)
  {
    var k := IndexOf(ns, current);
    var rest := ns[..k] + ns[k + 1..];
    step := None;
    if |ns| == 1 {
      LastNodeBreaks(ns, current, prev, eval);
    } else if current.metadata.EndMeta? {
      EndAnswers(ns, current, prev, eval);
    } else if current.metadata.ConditionalMeta? {
      ConditionalChoosesBranch(ns, current, prev, eval);
      var next := First(rest, current.nodeId, Some(!eval(Rule(current.metadata.expression))));
      if current.parentNodeId.Some? && next.Some? {
        step := Some((next.value, Bound(next)));
      }
    } else {
      StartFallsThrough(ns, current, prev, eval);
      if prev.Bound? && prev.next.Some? {
        step := Some((prev.next.value, prev));
      }
    }
  }

  /** Removing the only node leaves nothing: the flow is broken, whatever the node. */
  lemma LastNodeBreaks(ns: seq<FlowNode>, current: FlowNode, prev: NextBinding, eval: string -> bool)
    requires current in ns && |ns| == 1
    ensures Walk(ns, current, prev, eval) == Run(Err(InvalidFlow), [])
  {
    var k := IndexOf(ns, current);
    assert k == 0 && ns[..k] + ns[k + 1..] == [];
  }

  /**
   * At a conditional the walk continues with the first remaining child of
   * that node whose `isFalseCase` is the negated result: a true condition
   * takes the `isFalseCase = false` branch. Without such a child the flow
   * is broken; without a parent the assertion fails.
   */
  lemma ConditionalChoosesBranch(ns: seq<FlowNode>, current: FlowNode, prev: NextBinding, eval: string -> bool)
    requires current in ns && |ns| >= 2 && current.metadata.ConditionalMeta?
    ensures var rest := ns[..IndexOf(ns, current)] + ns[IndexOf(ns, current) + 1..];
      var result := eval(Rule(current.metadata.expression));
      var next := First(rest, current.nodeId, Some(!result));
      (current.parentNodeId.None? ==> Walk(ns, current, prev, eval) == Run(Err(AssertionError), rest))
      && (current.parentNodeId.Some? && next.None? ==> Walk(ns, current, prev, eval) == Run(Err(InvalidFlow), rest))
      && (current.parentNodeId.Some? && next.Some? ==>
            next.value.parentNodeId == Some(current.nodeId) && next.value.isFalseCase == Some(!result)
            && Walk(ns, current, prev, eval) == Walk(rest, next.value, Bound(next), eval))
  {
    var k := IndexOf(ns, current);
    var rest := ns[..k] + ns[k + 1..];
    assert |rest| == |ns| - 1;
  }

  /**
   * A Start node sets no next node of its own: the walk goes on with
   * whatever `next_node` still holds, and before any conditional has bound
   * it the variable is unbound.
   */
  lemma StartFallsThrough(ns: seq<FlowNode>, current: FlowNode, prev: NextBinding, eval: string -> bool)
    requires current in ns && |ns| >= 2 && current.metadata.StartMeta?
    ensures var rest := ns[..IndexOf(ns, current)] + ns[IndexOf(ns, current) + 1..];
      (prev.Unbound? ==> Walk(ns, current, prev, eval) == Run(Err(UnboundLocalError), rest))
      && (prev.Bound? && prev.next.None? ==> Walk(ns, current, prev, eval) == Run(Err(InvalidFlow), rest))
      && (prev.Bound? && prev.next.Some? ==> Walk(ns, current, prev, eval) == Walk(rest, prev.next.value, prev, eval))
  {
    var k := IndexOf(ns, current);
    assert |ns[..k] + ns[k + 1..]| == |ns| - 1;
  }

  /**
   * The emptiness check comes before the End check: an End node that is the
   * last node of the list is a broken flow, while with any other node left
   * it answers its response.
   */
  lemma EndAnswers(ns: seq<FlowNode>, current: FlowNode, prev: NextBinding, eval: string -> bool)
    requires current in ns && current.metadata.EndMeta?
    ensures |ns| == 1 ==> Walk(ns, current, prev, eval).outcome == Err(InvalidFlow)
    ensures |ns| >= 2 ==>
      Walk(ns, current, prev, eval) == Run(Ok(current.metadata.response), ns[..IndexOf(ns, current)] + ns[IndexOf(ns, current) + 1..])
  {
    var k := IndexOf(ns, current);
    assert |ns[..k] + ns[k + 1..]| == |ns| - 1;
  }

  class Executor {
    /** `self.nodes`: consumed by `execute`. */
    var nodes: seq<FlowNode>

    constructor(nodes: seq<FlowNode>)
      ensures this.nodes == nodes
    {
      this.nodes := nodes;
    }

    /**
     * `ConcreteExecutor.execute`: the loop removes the current node, checks
     * that nodes remain, and either answers at an End node or moves to the
     * branch child. `eval` stands for `_evaluate` with the payload.
     */
    method Execute(startId: string, eval: string -> bool) returns (r: Result<Value, PyError>)
      modifies this
      ensures Run(r, nodes) == Execution(old(nodes), startId, eval)
    {
      var currentNode := First(nodes, startId, None);
      if currentNode.None? {
        return Err(AssertionError);
      }
      var current := currentNode.value;
      var nextNode := Unbound;
      while true
        invariant Walk(nodes, current, nextNode, eval) == Execution(old(nodes), startId, eval)
        decreases |nodes|
      {
        var k := IndexOf(nodes, current);
        if k == -1 {
          return Err(ValueError);
        }
        nodes := nodes[..k] + nodes[k + 1..];
        if |nodes| == 0 {
          return Err(InvalidFlow);
        }
        match current.metadata {
          case ConditionalMeta(expression) =>
            if current.parentNodeId.None? {
              return Err(AssertionError);
            }
            var result := eval(Rule(expression));
            nextNode := Bound(First(nodes, current.nodeId, Some(!result)));
          case EndMeta(response) =>
            return Ok(response);
          case StartMeta(_) =>
        }
        if nextNode.Unbound? {
          return Err(UnboundLocalError);
        }
        if nextNode.next.None? {
          return Err(InvalidFlow);
        }
        current := nextNode.next.value;
      }
    }
  }
}
