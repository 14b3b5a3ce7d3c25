/**
 * Whether the "add node" action is offered under a node
 * (client/src/composable/useNodeActions.ts, over `getLastNodes` of
 * client/src/stores/flow.ts).
 */
module NodeActions {
  import opened Wrappers
  import opened FlowModel

  /** `nodes.some((node) => node.id === id)` */
  function SomeWithId(ns: seq<Node>, id: string): (r: bool)
    ensures r <==> exists i :: 0 <= i < |ns| && ns[i].id == id
  {
    if ns == [] then false
    else if ns[0].id == id then true
    else
      var r := SomeWithId(ns[1..], id);
      assert r ==> exists i :: 0 <= i < |ns| && ns[i].id == id by {
        if r {
          var i :| 0 <= i < |ns[1..]| && ns[1..][i].id == id;
          assert ns[i + 1].id == id;
        }
      }
      r
  }

  /**
   * `canAddNewNode`: the node is one of the last nodes (its `children`
   * field is absent), or it is a conditional, which may always get another
   * branch.
   */
  function CanAddNewNode(ns: seq<Node>, id: Option<string>): bool {
    if !Truthy(id) then false
    else
      var currentNode := GetNode(ns, id.value);
      var isLastNode := SomeWithId(LastNodes(ns), id.value);
      var currentNodeType := if currentNode.Some? then currentNode.value.kind else "";
      var couldHaveMoreWays := currentNodeType == ConditionalKind;
      isLastNode || couldHaveMoreWays
  }

  /** Every node of the store carries a different id. */
  predicate UniqueIds(ns: seq<Node>) {
    forall i, j :: 0 <= i < j < |ns| ==> ns[i].id != ns[j].id
  }

  /**
   * The action is offered exactly for a truthy id that some node without a
   * `children` field carries, or whose first node is a conditional; never
   * for an absent or unknown id.
   */
  lemma CanAddNewNodeIff(ns: seq<Node>, id: Option<string>)
    ensures CanAddNewNode(ns, id) <==>
      Truthy(id)
      && ((exists i :: 0 <= i < |ns| && ns[i].id == id.value && ns[i].data.children.None?)
          || (GetNode(ns, id.value).Some? && GetNode(ns, id.value).value.kind == ConditionalKind))
    ensures !Truthy(id) ==> !CanAddNewNode(ns, id)
    ensures Truthy(id) && GetNode(ns, id.value).None? ==> !CanAddNewNode(ns, id)
  {
    if Truthy(id) {
      var x := id.value;
      if SomeWithId(LastNodes(ns), x) {
        var i :| 0 <= i < |LastNodes(ns)| && LastNodes(ns)[i].id == x;
        var n := LastNodes(ns)[i];
        assert n in ns && n.data.children.None?;
        var j :| 0 <= j < |ns| && ns[j] == n;
      }
      if exists i :: 0 <= i < |ns| && ns[i].id == x && ns[i].data.children.None? {
        var i :| 0 <= i < |ns| && ns[i].id == x && ns[i].data.children.None?;
        assert ns[i] in LastNodes(ns);
        var k :| 0 <= k < |LastNodes(ns)| && LastNodes(ns)[k] == ns[i];
      }
    }
  }

  /**
   * With unique ids (the editor generates uuids), the test reads off the
   * node the id finds: no `children` field, or a conditional.
   */
  lemma CanAddNewNodeUnique(ns: seq<Node>, id: Option<string>)
    requires UniqueIds(ns)
    ensures CanAddNewNode(ns, id) <==>
      Truthy(id) && GetNode(ns, id.value).Some?
      && (GetNode(ns, id.value).value.data.children.None? || GetNode(ns, id.value).value.kind == ConditionalKind)
  {
    CanAddNewNodeIff(ns, id);
    if Truthy(id) {
      var x := id.value;
      if exists i :: 0 <= i < |ns| && ns[i].id == x && ns[i].data.children.None? {
        var i :| 0 <= i < |ns| && ns[i].id == x && ns[i].data.children.None?;
        var k := NodeIndex(ns, x);
        assert k != -1 && ns[k].id == x;
        assert k == i;
      }
      if GetNode(ns, x).Some? {
        assert ns[NodeIndex(ns, x)] == GetNode(ns, x).value;
      }
    }
  }

  /** A conditional node always offers the action, whatever its children. */
  lemma ConditionalAlwaysExtends(ns: seq<Node>, id: string)
    requires id != "" && GetNode(ns, id).Some? && GetNode(ns, id).value.kind == ConditionalKind
    ensures CanAddNewNode(ns, Some(id))
  {
  }
}
