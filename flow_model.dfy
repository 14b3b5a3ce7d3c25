/**
 * The canvas data of the decision-flow editor (client/src/stores/flow.ts,
 * client/src/interfaces/node.ts): nodes with a parent reference and a
 * `children` list, edges derived from parent references, and the lookups the
 * store and the composables share.
 */
module FlowModel {
  import opened Wrappers

  /** A canvas point; the model uses integer pixels. */
  datatype Position = Position(x: int, y: int)

  /** The JSON values an End node may answer with (`string | number | boolean | null`). */
  datatype JsValue = JNull | JBool(b: bool) | JNum(n: int) | JStr(s: string)

  /** JavaScript falsiness of a response value (`0`, `''`, `null`, `false`). */
  predicate Falsy(v: JsValue) {
    v == JNull || v == JBool(false) || v == JNum(0) || v == JStr("")
  }

  /** client/src/interfaces/variables.ts */
  datatype VariableType = NumberVar | TextVar | BoolVar | ListVar
  datatype Variable = Variable(displayName: string, varType: VariableType, required: bool)

  /**
   * The kind-specific payload of a node: Start nodes carry `inputs`,
   * Conditional nodes an `expression`, End nodes a `response`. A field that
   * is `None` is absent from the JavaScript object; all-`None` is `{}`.
   */
  datatype Settings = Settings(inputs: Option<seq<Variable>>, expression: Option<string>, response: Option<JsValue>)

  const EmptySettings := Settings(None, None, None)

  /** `INode`: the `data` object of a canvas node. */
  datatype NodeData = NodeData(
    title: string,
    parent: Option<string>,
    children: Option<seq<string>>,
    isFalseCase: Option<bool>,
    settings: Settings)

  /** A vue-flow node: `id`, `type` (here `kind`), `position` and `data`. */
  datatype Node = Node(id: string, kind: string, position: Position, data: NodeData)

  /** A vue-flow edge; `sourceHandle` is set only for edges drawn from a conditional's handle. */
  datatype Edge = Edge(id: string, source: string, target: string, sourceHandle: Option<string>)

  /** `Partial<Node>`: the fields an `updateNode` override supplies. */
  datatype NodePatch = NodePatch(id: Option<string>, kind: Option<string>, position: Option<Position>, data: Option<NodeData>)

  const StartKind := "start"
  const ConditionalKind := "conditional"
  const EndKind := "end"
  const LeftHandle := "conditional-left"
  const RightHandle := "conditional-right"

  /** JavaScript truthiness of an optional string: absent and `''` are both false. */
  predicate Truthy(s: Option<string>) {
    s.Some? && s.value != ""
  }

  /** `node.data.children || []` */
  function ChildrenOf(n: Node): seq<string> {
    n.data.children.GetOr([])
  }

  /** `{ ...n, ...p }`: every field the override supplies replaces the node's; `data` is replaced whole. */
  function Merge(n: Node, p: NodePatch): Node {
    Node(p.id.GetOr(n.id), p.kind.GetOr(n.kind), p.position.GetOr(n.position), p.data.GetOr(n.data))
  }

  /** The override `{ ...n }` that spreads a whole node. */
  function FullPatch(n: Node): NodePatch {
    NodePatch(Some(n.id), Some(n.kind), Some(n.position), Some(n.data))
  }

  /** The override `{ data: d }`. */
  function DataPatch(d: NodeData): NodePatch {
    NodePatch(None, None, None, Some(d))
  }

  /** `nodes.findIndex(({ id }) => id === nodeId)`: the first index holding `id`, or -1. */
  function NodeIndex(ns: seq<Node>, id: string): (r: int)
    ensures -1 <= r < |ns|
    ensures r == -1 <==> forall i :: 0 <= i < |ns| ==> ns[i].id != id
    ensures r != -1 ==> ns[r].id == id && forall i :: 0 <= i < r ==> ns[i].id != id
  {
    if |ns| == 0 then -1
    else if ns[0].id == id then 0
    else
      var k := NodeIndex(ns[1..], id);
      if k == -1 then -1 else k + 1
  }

  /** `getNodeById`: the first node with that id. */
  function GetNode(ns: seq<Node>, id: string): (r: Option<Node>)
    ensures r.None? <==> forall i :: 0 <= i < |ns| ==> ns[i].id != id
    ensures r.Some? ==> r.value.id == id && r.value in ns
  {
    var i := NodeIndex(ns, id);
    if i == -1 then None else Some(ns[i])
  }

  predicate HasId(ns: seq<Node>, id: string) {
    NodeIndex(ns, id) != -1
  }

  /**
   * `edges.find(({ id }) => id === edgeId)`, as an index (`getEdgeById`).
   * It mirrors `NodeIndex` because the store's edge getter is its own
   * separate `find` over a different element type.
   */
  function EdgeIndex(es: seq<Edge>, id: string): (r: int)
    ensures -1 <= r < |es|
    ensures r == -1 <==> forall i :: 0 <= i < |es| ==> es[i].id != id
    ensures r != -1 ==> es[r].id == id && forall i :: 0 <= i < r ==> es[i].id != id
  {
    if |es| == 0 then -1
    else if es[0].id == id then 0
    else
      var k := EdgeIndex(es[1..], id);
      if k == -1 then -1 else k + 1
  }

  /** Template-literal rendering of `node.data.parent`; a `null` parent prints as "null". */
  function ParentText(p: Option<string>): string {
    match p
    case Some(s) => s
    case None => "null"
  }

  /** `buildEdgeId`: `${node.data.parent}-${node.id}`. */
  function BuildEdgeId(n: Node): string {
    ParentText(n.data.parent) + "-" + n.id
  }

  /** The edge `addNodes` and `setEdges` derive from a node's parent reference. */
  function ParentEdge(n: Node): Edge
    requires n.data.parent.Some?
  {
    Edge(BuildEdgeId(n), n.data.parent.value, n.id, None)
  }

  /** `getLastNodes`: the nodes whose `children` field is absent, in store order. */
  function LastNodes(ns: seq<Node>): (r: seq<Node>)
    ensures |r| <= |ns|
    ensures forall n :: n in r <==> n in ns && n.data.children.None?
    ensures forall n :: multiset(r)[n] == if n.data.children.None? then multiset(ns)[n] else 0
  {
    if ns == [] then []
    else
      assert ns == [ns[0]] + ns[1..];
      if ns[0].data.children.None? then [ns[0]] + LastNodes(ns[1..])
      else LastNodes(ns[1..])
  }

  lemma SeqAssoc<T>(x: seq<T>, y: seq<T>, z: seq<T>)
    ensures x + (y + z) == (x + y) + z
  {
  }

  /** The filter keeps store order: the last nodes of a concatenation are those of each part, in turn. */
  lemma {:induction false} LastNodesAppend(a: seq<Node>, b: seq<Node>)
    ensures LastNodes(a + b) == LastNodes(a) + LastNodes(b)
  {
    if a == [] {
      assert a + b == b;
    } else {
      var ab := a + b;
      assert ab[0] == a[0] && ab[1..] == a[1..] + b;
      LastNodesAppend(a[1..], b);
      if a[0].data.children.None? {
        calc {
          LastNodes(ab);
          [a[0]] + LastNodes(a[1..] + b);
          [a[0]] + (LastNodes(a[1..]) + LastNodes(b));
          { SeqAssoc([a[0]], LastNodes(a[1..]), LastNodes(b)); }
          ([a[0]] + LastNodes(a[1..])) + LastNodes(b);
          LastNodes(a) + LastNodes(b);
        }
      } else {
        assert LastNodes(ab) == LastNodes(a[1..] + b);
        assert LastNodes(a) == LastNodes(a[1..]);
      }
    }
  }

  /** Two node lists that hold the same ids at the same indices. */
  predicate SameIds(a: seq<Node>, b: seq<Node>) {
    |a| == |b| && forall i :: 0 <= i < |a| ==> a[i].id == b[i].id
  }

  /** Lookups by id agree on node lists that hold the same ids at the same indices. */
  lemma {:induction false} NodeIndexSameIds(a: seq<Node>, b: seq<Node>, id: string)
    requires SameIds(a, b)
    ensures NodeIndex(a, id) == NodeIndex(b, id)
  {
    if |a| > 0 && a[0].id != id {
      NodeIndexSameIds(a[1..], b[1..], id);
    }
  }

  /** `list.filter((x) => x !== v)` on id lists. */
  function Without(s: seq<string>, v: string): (r: seq<string>)
    ensures v !in r
    ensures forall x :: x != v ==> (x in r <==> x in s)
    ensures multiset(r) == multiset(s)[v := 0]
  {
    if s == [] then []
    else
      assert s == [s[0]] + s[1..];
      if s[0] == v then Without(s[1..], v)
      else [s[0]] + Without(s[1..], v)
  }
}
