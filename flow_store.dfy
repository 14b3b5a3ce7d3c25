/**
 * The flow store (client/src/stores/flow.ts): the editor's node and edge
 * arrays, mutated in place by `addNodes`, `updateNode`, `addEdges`,
 * `addEdgeWithHandle`, `setNodes`/`setEdges` and `removeNode`.
 */
module FlowStore {
  import opened Wrappers
  import opened FlowModel

  /** Where `addNodes` puts a node with a parent: right after the parent, or at the end when the parent is unknown. */
  function InsertionIndex(ns: seq<Node>, n: Node): (k: int)
    requires n.data.parent.Some?
    ensures 0 <= k <= |ns|
  {
    var pi := NodeIndex(ns, n.data.parent.value);
    if pi == -1 then |ns| else pi + 1
  }

  /** The node list after `addNodes` has placed `n` (before any edge is derived). */
  function Placed(ns: seq<Node>, n: Node): (r: seq<Node>)
    requires n.data.parent.Some?
    ensures |r| == |ns| + 1
    ensures var k := InsertionIndex(ns, n); r[k] == n && r[..k] + r[k + 1..] == ns
  {
    var k := InsertionIndex(ns, n);
    ns[..k] + [n] + ns[k..]
  }

  /** Inserting a node with another id moves every lookup by at most one slot and never changes its answer. */
  lemma {:induction false} GetNodeAfterInsert(ns: seq<Node>, k: int, n: Node, id: string)
    requires 0 <= k <= |ns| && n.id != id
    ensures GetNode(ns[..k] + [n] + ns[k..], id) == GetNode(ns, id)
    ensures NodeIndex(ns[..k] + [n] + ns[k..], id) == -1 <==> NodeIndex(ns, id) == -1
  {
    var r := ns[..k] + [n] + ns[k..];
    assert forall i :: 0 <= i < k ==> r[i] == ns[i];
    assert forall i :: k < i < |r| ==> r[i] == ns[i - 1];
    var j := NodeIndex(ns, id);
    var m := NodeIndex(r, id);
    if j == -1 {
      assert m == -1;
    } else if j < k {
      assert r[j] == ns[j];
      assert m == j;
    } else {
      assert r[j + 1] == ns[j];
      assert m == j + 1;
    }
  }

  /** The placed node can be found by its id when no earlier node has it. */
  lemma PlacedIsFound(ns: seq<Node>, n: Node)
    requires n.data.parent.Some? && !HasId(ns, n.id)
    ensures GetNode(Placed(ns, n), n.id) == Some(n)
  {
    var k := InsertionIndex(ns, n);
    var r := Placed(ns, n);
    assert r[k] == n;
    forall i | 0 <= i < k ensures r[i].id != n.id {
      assert r[i] == ns[i];
    }
  }

  /** Old edges are kept, in order, at the front of the new list. */
  predicate EdgesExtend(a: seq<Edge>, b: seq<Edge>) {
    |a| <= |b| && b[..|a|] == a
  }

  lemma EdgesExtendTrans(a: seq<Edge>, b: seq<Edge>, c: seq<Edge>)
    requires EdgesExtend(a, b) && EdgesExtend(b, c)
    ensures EdgesExtend(a, c)
  {
    assert c[..|a|] == c[..|b|][..|a|];
  }

  /** Two nodes that differ at most in their `children` list. */
  predicate NodeSameButChildren(a: Node, b: Node) {
    b == a.(data := a.data.(children := b.data.children))
  }

  /** Looking `id` up finds a node in both lists or in neither, and the found nodes differ at most in `children`. */
  predicate LookupKept(a: seq<Node>, b: seq<Node>, id: string) {
    (GetNode(a, id).None? <==> GetNode(b, id).None?)
    && (GetNode(a, id).Some? && GetNode(b, id).Some? ==> NodeSameButChildren(GetNode(a, id).value, GetNode(b, id).value))
  }

  lemma LookupKeptTrans(a: seq<Node>, b: seq<Node>, c: seq<Node>, id: string)
    requires LookupKept(a, b, id) && LookupKept(b, c, id)
    ensures LookupKept(a, c, id)
  {
  }

  /** Replacing the node at `i` by one with the same id moves no lookup; only lookups of that id see the new node. */
  lemma {:induction false} LookupAfterReplace(ns: seq<Node>, i: int, v: Node, id: string)
    requires 0 <= i < |ns| && v.id == ns[i].id && NodeIndex(ns, v.id) == i
    ensures NodeIndex(ns[i := v], id) == NodeIndex(ns, id)
    ensures GetNode(ns[i := v], id) == if id == v.id then Some(v) else GetNode(ns, id)
  {
    assert SameIds(ns, ns[i := v]);
    NodeIndexSameIds(ns, ns[i := v], id);
  }

  /** Two node lists that differ at most in `children` lists. */
  predicate SameButChildren(a: seq<Node>, b: seq<Node>) {
    |a| == |b| && forall i :: 0 <= i < |a| ==> b[i] == a[i].(data := a[i].data.(children := b[i].data.children))
  }

  lemma SameButChildrenLookup(a: seq<Node>, b: seq<Node>, id: string)
    requires SameButChildren(a, b)
    ensures LookupKept(a, b, id)
  {
    assert SameIds(a, b);
    NodeIndexSameIds(a, b, id);
  }

  /**
   * What `addEdges` does to the nodes: the first node with id `p` gets `c`
   * appended to its `children` unless it already lists `c`.
   */
  function WithChild(ns: seq<Node>, p: string, c: string): (r: seq<Node>)
    ensures SameButChildren(ns, r)
    ensures forall i :: 0 <= i < |ns| && i != NodeIndex(ns, p) ==> r[i] == ns[i]
  {
    var i := NodeIndex(ns, p);
    if i == -1 then ns
    else
      var current := ChildrenOf(ns[i]);
      if c in current then ns
      else ns[i := ns[i].(data := ns[i].data.(children := Some(current + [c])))]
  }

  /** After `addEdges`, the parent lists the target exactly once more than zero times: no duplicate is appended. */
  lemma WithChildListsOnce(ns: seq<Node>, p: string, c: string)
    requires NodeIndex(ns, p) != -1
    ensures var i := NodeIndex(ns, p);
      var before := multiset(ChildrenOf(ns[i]))[c];
      multiset(ChildrenOf(WithChild(ns, p, c)[i]))[c] == if before == 0 then 1 else before
  {
    var i := NodeIndex(ns, p);
    var current := ChildrenOf(ns[i]);
    if c !in current {
      assert ChildrenOf(WithChild(ns, p, c)[i]) == current + [c];
      assert multiset(current + [c]) == multiset(current) + multiset{c};
    }
  }

  /** Deriving the same parent/child link twice changes nothing the second time. */
  lemma WithChildIdempotent(ns: seq<Node>, p: string, c: string)
    ensures WithChild(WithChild(ns, p, c), p, c) == WithChild(ns, p, c)
  {
    var r := WithChild(ns, p, c);
    NodeIndexSameIds(ns, r, p);
    var i := NodeIndex(ns, p);
    if i != -1 {
      assert c in ChildrenOf(r[i]);
    }
  }

  /** What `removeNode` does to the parent: drop `c` from the parent's `children` when that list is present. */
  function WithoutChild(ns: seq<Node>, parent: Option<string>, c: string): (r: seq<Node>)
    ensures |r| == |ns|
    ensures parent.None? ==> r == ns
    ensures parent.Some? ==> forall j :: 0 <= j < |ns| && j != NodeIndex(ns, parent.value) ==> r[j] == ns[j]
    ensures parent.Some? && NodeIndex(ns, parent.value) != -1 ==>
      var pi := NodeIndex(ns, parent.value);
      c !in ChildrenOf(r[pi]) && r[pi] == ns[pi].(data := ns[pi].data.(children := r[pi].data.children))
  {
    if parent.None? then ns
    else
      var pi := NodeIndex(ns, parent.value);
      if pi == -1 || ns[pi].data.children.None? then ns
      else ns[pi := ns[pi].(data := ns[pi].data.(children := Some(Without(ns[pi].data.children.value, c))))]
  }

  /** `splice(i, 1)` */
  function RemoveAt<T>(s: seq<T>, i: int): (r: seq<T>)
    requires 0 <= i < |s|
    ensures |r| == |s| - 1
    ensures forall j :: 0 <= j < i ==> r[j] == s[j]
    ensures forall j :: i <= j < |r| ==> r[j] == s[j + 1]
  {
    s[..i] + s[i + 1..]
  }

  /** `edges.filter((edge) => edge.source !== id && edge.target !== id)` */
  function EdgesWithout(es: seq<Edge>, id: string): (r: seq<Edge>)
    ensures |r| <= |es|
    ensures forall e :: e in r <==> e in es && e.source != id && e.target != id
    ensures forall e :: multiset(r)[e] == if e.source != id && e.target != id then multiset(es)[e] else 0
  {
    if es == [] then []
    else
      assert es == [es[0]] + es[1..];
      if es[0].source != id && es[0].target != id then [es[0]] + EdgesWithout(es[1..], id)
      else EdgesWithout(es[1..], id)
  }

  /** The kept edges stay in their order: filtering a concatenation filters each part in turn. */
  lemma {:induction false} EdgesWithoutAppend(a: seq<Edge>, b: seq<Edge>, id: string)
    ensures EdgesWithout(a + b, id) == EdgesWithout(a, id) + EdgesWithout(b, id)
  {
    if a == [] {
      assert a + b == b;
    } else {
      var ab := a + b;
      assert ab[0] == a[0] && ab[1..] == a[1..] + b;
      EdgesWithoutAppend(a[1..], b, id);
      if a[0].source != id && a[0].target != id {
        calc {
          EdgesWithout(ab, id);
          [a[0]] + EdgesWithout(a[1..] + b, id);
          [a[0]] + (EdgesWithout(a[1..], id) + EdgesWithout(b, id));
          { SeqAssoc([a[0]], EdgesWithout(a[1..], id), EdgesWithout(b, id)); }
          ([a[0]] + EdgesWithout(a[1..], id)) + EdgesWithout(b, id);
          EdgesWithout(a, id) + EdgesWithout(b, id);
        }
      } else {
        assert EdgesWithout(ab, id) == EdgesWithout(a[1..] + b, id);
        assert EdgesWithout(a, id) == EdgesWithout(a[1..], id);
      }
    }
  }

  /** Some edge already leaves `source` through `handle` (both may be absent). */
  predicate HandleTaken(es: seq<Edge>, source: string, handle: Option<string>) {
    exists i :: 0 <= i < |es| && es[i].source == source && es[i].sourceHandle == handle
  }

  predicate UniqueEdgeIds(es: seq<Edge>) {
    forall i, j :: 0 <= i < j < |es| ==> es[i].id != es[j].id
  }

  /** Every node with a parent has the edge `setEdges` derives for it. */
  predicate EdgesDerived(ns: seq<Node>, es: seq<Edge>) {
    forall i :: 0 <= i < |ns| && Truthy(ns[i].data.parent) ==> EdgeIndex(es, BuildEdgeId(ns[i])) != -1
  }

  lemma SameButChildrenTrans(a: seq<Node>, b: seq<Node>, c: seq<Node>)
    requires SameButChildren(a, b) && SameButChildren(b, c)
    ensures SameButChildren(a, c)
  {
  }

  /** Lists that differ only in `children` derive the same parent edges. */
  lemma SameButChildrenDerived(a: seq<Node>, b: seq<Node>, es: seq<Edge>)
    requires SameButChildren(a, b) && EdgesDerived(a, es)
    ensures EdgesDerived(b, es)
  {
    forall i | 0 <= i < |b| && Truthy(b[i].data.parent)
      ensures EdgeIndex(es, BuildEdgeId(b[i])) != -1
    {
      assert b[i].data.parent == a[i].data.parent && b[i].id == a[i].id;
    }
  }

  /** An edge found in a list is still found once more edges are appended. */
  lemma EdgeFoundInExtension(es: seq<Edge>, es': seq<Edge>, id: string)
    requires |es| <= |es'| && es'[..|es|] == es && EdgeIndex(es, id) != -1
    ensures EdgeIndex(es', id) != -1
  {
    var k := EdgeIndex(es, id);
    assert es'[k] == es[k];
  }

  /**
   * The nodes and edges after `addNodes(n, skipEdgeCreation)`: a known id
   * changes nothing; without a parent the node is appended; otherwise it is
   * placed after its parent and, unless skipped or already present, its
   * parent edge is appended and the parent lists it.
   */
  function AddNodeResult(ns: seq<Node>, es: seq<Edge>, n: Node, skipEdgeCreation: bool): (seq<Node>, seq<Edge>) {
    if HasId(ns, n.id) then (ns, es)
    else if !Truthy(n.data.parent) then (ns + [n], es)
    else if skipEdgeCreation || EdgeIndex(es, BuildEdgeId(n)) != -1 then (Placed(ns, n), es)
    else (WithChild(Placed(ns, n), n.data.parent.value, n.id), es + [ParentEdge(n)])
  }

  /** Appending a node with a new id: it is found, and every other lookup is unchanged. */
  lemma AppendLookup(ns: seq<Node>, n: Node)
    requires !HasId(ns, n.id)
    ensures GetNode(ns + [n], n.id) == Some(n)
    ensures forall id :: id != n.id ==> LookupKept(ns, ns + [n], id)
  {
    var r := ns + [n];
    assert forall i :: 0 <= i < |ns| ==> r[i] == ns[i];
    assert r[|ns|] == n;
    assert NodeIndex(r, n.id) == |ns|;
    forall id | id != n.id
      ensures LookupKept(ns, r, id)
    {
      GetNodeAfterInsert(ns, |ns|, n, id);
      assert ns[..|ns|] + [n] + ns[|ns|..] == r;
    }
  }

  /** Placing a node with a new id after its parent: it is found, and every other lookup is unchanged. */
  lemma PlacedLookup(ns: seq<Node>, n: Node)
    requires n.data.parent.Some? && !HasId(ns, n.id)
    ensures GetNode(Placed(ns, n), n.id) == Some(n)
    ensures forall id :: id != n.id ==> LookupKept(ns, Placed(ns, n), id)
  {
    PlacedIsFound(ns, n);
    forall id | id != n.id
      ensures LookupKept(ns, Placed(ns, n), id)
    {
      GetNodeAfterInsert(ns, InsertionIndex(ns, n), n, id);
    }
  }

  /** Listing a child changes no lookup beyond that child list. */
  lemma WithChildLookup(ns: seq<Node>, p: string, c: string)
    ensures forall id :: LookupKept(ns, WithChild(ns, p, c), id)
  {
    forall id
      ensures LookupKept(ns, WithChild(ns, p, c), id)
    {
      SameButChildrenLookup(ns, WithChild(ns, p, c), id);
    }
  }

  /**
   * What `setEdges` computes, node by node in the order of `items`: a node
   * with a parent whose edge id is new gets its parent edge appended and is
   * listed among its parent's children; every other node changes nothing.
   */
  function Derive(items: seq<Node>, ns: seq<Node>, es: seq<Edge>): (seq<Node>, seq<Edge>)
    decreases |items|
  {
    if items == [] then (ns, es)
    else
      var n := items[0];
      if Truthy(n.data.parent) && EdgeIndex(es, BuildEdgeId(n)) == -1 then
        Derive(items[1..], WithChild(ns, n.data.parent.value, n.id), es + [ParentEdge(n)])
      else Derive(items[1..], ns, es)
  }

  /**
   * Deriving only lists children and appends edges: old edges stay in front,
   * and every item with a parent ends up with its edge.
   */
  lemma {:induction false} DeriveCovers(items: seq<Node>, ns: seq<Node>, es: seq<Edge>)
    ensures SameButChildren(ns, Derive(items, ns, es).0)
    ensures EdgesExtend(es, Derive(items, ns, es).1)
    ensures forall i :: 0 <= i < |items| && Truthy(items[i].data.parent) ==>
      EdgeIndex(Derive(items, ns, es).1, BuildEdgeId(items[i])) != -1
    decreases |items|
  {
    if items != [] {
      var n := items[0];
      var r := Derive(items, ns, es);
      if Truthy(n.data.parent) && EdgeIndex(es, BuildEdgeId(n)) == -1 {
        var es' := es + [ParentEdge(n)];
        DeriveCovers(items[1..], WithChild(ns, n.data.parent.value, n.id), es');
        SameButChildrenTrans(ns, WithChild(ns, n.data.parent.value, n.id), r.0);
        EdgesExtendTrans(es, es', r.1);
        assert es'[|es|].id == BuildEdgeId(n);
        EdgeFoundInExtension(es', r.1, BuildEdgeId(n));
      } else {
        DeriveCovers(items[1..], ns, es);
        if Truthy(n.data.parent) {
          EdgeFoundInExtension(es, r.1, BuildEdgeId(n));
        }
      }
      forall i | 1 <= i < |items| && Truthy(items[i].data.parent)
        ensures EdgeIndex(r.1, BuildEdgeId(items[i])) != -1
      {
        assert items[i] == items[1..][i - 1];
      }
    }
  }

  /** When every item already has its edge, deriving changes nothing. */
  lemma {:induction false} DeriveIdle(items: seq<Node>, ns: seq<Node>, es: seq<Edge>)
    requires forall i :: 0 <= i < |items| && Truthy(items[i].data.parent) ==> EdgeIndex(es, BuildEdgeId(items[i])) != -1
    ensures Derive(items, ns, es) == (ns, es)
    decreases |items|
  {
    if items != [] {
      assert forall i :: 1 <= i < |items| ==> items[1..][i - 1] == items[i];
      DeriveIdle(items[1..], ns, es);
    }
  }

  /** `setEdges` is idempotent: deriving the same items again changes nothing. */
  lemma DeriveTwice(items: seq<Node>, ns: seq<Node>, es: seq<Edge>)
    ensures var r := Derive(items, ns, es); Derive(items, r.0, r.1) == r
  {
    var r := Derive(items, ns, es);
    DeriveCovers(items, ns, es);
    DeriveIdle(items, r.0, r.1);
  }

  /** The node list after `updateNode(nodeId, patch)`. */
  function UpdatedNodes(ns: seq<Node>, nodeId: string, patch: NodePatch): (r: seq<Node>)
    ensures NodeIndex(ns, nodeId) == -1 ==> r == ns
    ensures NodeIndex(ns, nodeId) != -1 ==>
      var i := NodeIndex(ns, nodeId); r == ns[i := Merge(ns[i], patch)]
  {
    var i := NodeIndex(ns, nodeId);
    if i == -1 then ns else ns[i := Merge(ns[i], patch)]
  }

  /**
   * An update whose override keeps the id changes only what a lookup of
   * that id returns, and to the merged node.
   */
  lemma UpdatedLookup(ns: seq<Node>, nodeId: string, patch: NodePatch, id: string)
    requires patch.id.None? || patch.id == Some(nodeId)
    ensures SameIds(ns, UpdatedNodes(ns, nodeId, patch))
    ensures GetNode(UpdatedNodes(ns, nodeId, patch), id) ==
      if id == nodeId && HasId(ns, nodeId) then Some(Merge(GetNode(ns, nodeId).value, patch)) else GetNode(ns, id)
  {
    var i := NodeIndex(ns, nodeId);
    if i != -1 {
      LookupAfterReplace(ns, i, Merge(ns[i], patch), id);
    }
  }

  /** The `updateNode` call inside `addEdges` computes exactly `WithChild`. */
  lemma LinkChild(ns: seq<Node>, p: string, c: string)
    ensures GetNode(ns, p).None? || c in ChildrenOf(GetNode(ns, p).value) ==> WithChild(ns, p, c) == ns
    ensures GetNode(ns, p).Some? && c !in ChildrenOf(GetNode(ns, p).value) ==>
      var parent := GetNode(ns, p).value;
      UpdatedNodes(ns, p, DataPatch(parent.data.(children := Some(ChildrenOf(parent) + [c])))) == WithChild(ns, p, c)
  {
  }

  class FlowStore {
    var nodes: seq<Node>
    var edges: seq<Edge>

    /** The store starts from given arrays (the source seeds two demo nodes and their edge). */
    constructor (initialNodes: seq<Node>, initialEdges: seq<Edge>)
      ensures nodes == initialNodes && edges == initialEdges
    {
      nodes := initialNodes;
      edges := initialEdges;
    }

    /** `updateNode`: shallow-merge the override into the first node with that id; unknown ids are ignored. */
    method UpdateNode(nodeId: string, patch: NodePatch)
      modifies this
      ensures edges == old(edges)
      ensures nodes == UpdatedNodes(old(nodes), nodeId, patch)
    {
      var nodeIndex := NodeIndex(nodes, nodeId);
      if nodeIndex == -1 {
        return;
      }
      nodes := nodes[nodeIndex := Merge(nodes[nodeIndex], patch)];
    }

    /**
     * `addEdges`: append the edge unless its id is already present, and list
     * the target among the source node's children.
     */
    method AddEdges(e: Edge)
      modifies this
      ensures EdgeIndex(edges, e.id) != -1
      ensures SameButChildren(old(nodes), nodes)
      ensures EdgesExtend(old(edges), edges)
      ensures EdgeIndex(old(edges), e.id) != -1 ==> nodes == old(nodes) && edges == old(edges)
      ensures EdgeIndex(old(edges), e.id) == -1 ==>
        edges == old(edges) + [e] && nodes == WithChild(old(nodes), e.source, e.target)
      ensures UniqueEdgeIds(old(edges)) ==> UniqueEdgeIds(edges)
    {
      if EdgeIndex(edges, e.id) == -1 {
        edges := edges + [e];
        LinkChild(nodes, e.source, e.target);
        var parentNode := GetNode(nodes, e.source);
        if parentNode.Some? {
          var currentChildren := ChildrenOf(parentNode.value);
          if e.target !in currentChildren {
            UpdateNode(e.source, DataPatch(parentNode.value.data.(children := Some(currentChildren + [e.target]))));
          }
        }
        assert edges[|edges| - 1] == e;
      }
    }

    /**
     * `addEdgeWithHandle`: like `addEdges`, but refused when an edge already
     * leaves the same source through the same handle.
     */
    method AddEdgeWithHandle(e: Edge)
      modifies this
      ensures HandleTaken(old(edges), e.source, e.sourceHandle) || EdgeIndex(old(edges), e.id) != -1 ==>
        nodes == old(nodes) && edges == old(edges)
      ensures !HandleTaken(old(edges), e.source, e.sourceHandle) && EdgeIndex(old(edges), e.id) == -1 ==>
        edges == old(edges) + [e] && nodes == WithChild(old(nodes), e.source, e.target)
      ensures HandleTaken(edges, e.source, e.sourceHandle)
        <==> HandleTaken(old(edges), e.source, e.sourceHandle) || EdgeIndex(old(edges), e.id) == -1
      ensures UniqueEdgeIds(old(edges)) ==> UniqueEdgeIds(edges)
      ensures SameButChildren(old(nodes), nodes)
      ensures EdgesExtend(old(edges), edges)
    {
      if HandleTaken(edges, e.source, e.sourceHandle) {
        return;
      }
      if EdgeIndex(edges, e.id) == -1 {
        edges := edges + [e];
        LinkChild(nodes, e.source, e.target);
        var parentNode := GetNode(nodes, e.source);
        if parentNode.Some? {
          var currentChildren := ChildrenOf(parentNode.value);
          if e.target !in currentChildren {
            UpdateNode(e.source, DataPatch(parentNode.value.data.(children := Some(currentChildren + [e.target]))));
          }
        }
        assert edges[|edges| - 1] == e;
      }
    }

    /**
     * `addNodes`: insert a node whose id is new, right after its parent (or
     * at the end), and unless told otherwise derive its parent edge.
     */
    method AddNodes(n: Node, skipEdgeCreation: bool)
      modifies this
      ensures (nodes, edges) == AddNodeResult(old(nodes), old(edges), n, skipEdgeCreation)
      ensures EdgesExtend(old(edges), edges)
      ensures !HasId(old(nodes), n.id) ==> (|nodes| == |old(nodes)| + 1
        && GetNode(nodes, n.id).Some? && NodeSameButChildren(n, GetNode(nodes, n.id).value))
      ensures forall id :: id != n.id ==> LookupKept(old(nodes), nodes, id)
    {
      if GetNode(nodes, n.id).Some? {
        return;
      }
      if !Truthy(n.data.parent) {
        AppendLookup(nodes, n);
        nodes := nodes + [n];
        return;
      }
      InsertUnderParent(n, skipEdgeCreation);
    }

    /** The part of `addNodes` for a new node that names a parent. */
    method InsertUnderParent(n: Node, skipEdgeCreation: bool)
      requires !HasId(nodes, n.id) && Truthy(n.data.parent)
      modifies this
      ensures if skipEdgeCreation || EdgeIndex(old(edges), BuildEdgeId(n)) != -1 then
          nodes == Placed(old(nodes), n) && edges == old(edges)
        else
          nodes == WithChild(Placed(old(nodes), n), n.data.parent.value, n.id) && edges == old(edges) + [ParentEdge(n)]
      ensures EdgesExtend(old(edges), edges)
      ensures |nodes| == |old(nodes)| + 1 && GetNode(nodes, n.id).Some? && NodeSameButChildren(n, GetNode(nodes, n.id).value)
      ensures forall id :: id != n.id ==> LookupKept(old(nodes), nodes, id)
    {
      var parentId := n.data.parent.value;
      ghost var before := nodes;
      ghost var placed := Placed(nodes, n);
      var parentIndex := NodeIndex(nodes, parentId);
      if parentIndex != -1 {
        nodes := nodes[..parentIndex + 1] + [n] + nodes[parentIndex + 1..];
      }
      if parentIndex == -1 {
        nodes := nodes + [n];
      }
      assert nodes == placed;
      PlacedLookup(before, n);
      if !skipEdgeCreation {
        AddEdges(Edge(BuildEdgeId(n), parentId, n.id, None));
        WithChildLookup(placed, parentId, n.id);
        assert LookupKept(placed, nodes, n.id);
        forall id | id != n.id
          ensures LookupKept(before, nodes, id)
        {
          LookupKeptTrans(before, placed, nodes, id);
        }
      }
    }

    /** `setEdges`: derive the parent edge of every node that has a parent, in node order. */
    method SetEdges()
      modifies this
      ensures (nodes, edges) == Derive(old(nodes), old(nodes), old(edges))
      ensures SameButChildren(old(nodes), nodes)
      ensures EdgesExtend(old(edges), edges)
      ensures EdgesDerived(nodes, edges)
      ensures EdgesDerived(old(nodes), old(edges)) ==> nodes == old(nodes) && edges == old(edges)
    {
      ghost var ns0 := nodes;
      ghost var es0 := edges;
      var i := 0;
      while i < |nodes|
        invariant 0 <= i <= |nodes| == |ns0|
        invariant SameButChildren(ns0, nodes)
        invariant Derive(ns0[i..], nodes, edges) == Derive(ns0, ns0, es0)
      {
        var node := nodes[i];
        assert node.id == ns0[i].id && node.data.parent == ns0[i].data.parent;
        assert ns0[i..][0] == ns0[i] && ns0[i..][1..] == ns0[i + 1..];
        if Truthy(node.data.parent) {
          ghost var nodesBefore := nodes;
          AddEdges(Edge(BuildEdgeId(node), node.data.parent.value, node.id, None));
          SameButChildrenTrans(ns0, nodesBefore, nodes);
        }
        i := i + 1;
      }
      assert ns0[i..] == [];
      DeriveCovers(ns0, ns0, es0);
      SameButChildrenDerived(ns0, nodes, edges);
      if EdgesDerived(ns0, es0) {
        DeriveIdle(ns0, ns0, es0);
      }
    }

    /** `setNodes`: replace the node array wholesale, then derive edges. */
    method SetNodes(newNodes: seq<Node>)
      modifies this
      ensures (nodes, edges) == Derive(newNodes, newNodes, old(edges))
      ensures SameButChildren(newNodes, nodes)
      ensures EdgesExtend(old(edges), edges)
      ensures EdgesDerived(nodes, edges)
    {
      nodes := newNodes;
      SetEdges();
    }

    /**
     * `removeNode`: delete one node (no cascade), detach it from its parent's
     * `children`, and drop every edge that touches it.
     */
    method RemoveNode(n: Node)
      modifies this
      ensures !HasId(old(nodes), n.id) ==> nodes == old(nodes) && edges == old(edges)
      ensures HasId(old(nodes), n.id) ==>
        nodes == RemoveAt(WithoutChild(old(nodes), n.data.parent, n.id), NodeIndex(old(nodes), n.id))
        && edges == EdgesWithout(old(edges), n.id)
      ensures HasId(old(nodes), n.id) ==> |nodes| == |old(nodes)| - 1
      ensures HasId(old(nodes), n.id) ==> forall e :: e in edges ==> e.source != n.id && e.target != n.id
    {
      var nodeIndex := NodeIndex(nodes, n.id);
      if nodeIndex == -1 {
        return;
      }
      if n.data.parent.Some? {
        var parentNode := GetNode(nodes, n.data.parent.value);
        if parentNode.Some? && parentNode.value.data.children.Some? {
          var updatedChildren := Without(parentNode.value.data.children.value, n.id);
          UpdateNode(n.data.parent.value, DataPatch(parentNode.value.data.(children := Some(updatedChildren))));
        }
      }
      nodes := nodes[..nodeIndex] + nodes[nodeIndex + 1..];
      edges := EdgesWithout(edges, n.id);
    }
  }
}
