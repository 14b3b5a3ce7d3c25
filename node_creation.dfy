/**
 * Node insertion in the editor (client/src/composable/useNodeCreation.ts):
 * the path test, End-node generation, branch-slot eviction, subtree
 * re-placement and the `handleCreateNode` orchestration over the store.
 */
module NodeCreation {
  import opened Wrappers
  import opened Text
  import opened FlowModel
  import opened FlowStore
  import opened Placement

  const ChooseNodeStep := 1
  const SetupTitleStep := 2

  /** `getDefaultNodeTitle` (client/src/constants/nodeConfig.ts): `DEFAULT_NODE_TITLES[t] || ''`. */
  function DefaultNodeTitle(kind: string): string {
    if kind == StartKind then "Início" else if kind == EndKind then "Fim" else ""
  }

  /** The settings `handleNodeSelect` gives each kind. */
  function KindSettings(kind: string): Settings {
    if kind == StartKind then Settings(Some([]), None, None)
    else if kind == ConditionalKind then Settings(None, Some(""), None)
    else if kind == EndKind then Settings(None, None, Some(JBool(false)))
    else EmptySettings
  }

  /** The empty form state `initialNodeState`. */
  const InitialNodeData := NodeData("", None, Some([]), None, EmptySettings)

  /** `childNode && childNode.data.isFalseCase === isRightPath` */
  predicate InPath(ns: seq<Node>, childId: string, isRightPath: bool) {
    GetNode(ns, childId).Some? && GetNode(ns, childId).value.data.isFalseCase == Some(isRightPath)
  }

  /** `children.find(...)`: the first child that sits on the given branch. */
  function FirstInPath(ns: seq<Node>, children: seq<string>, isRightPath: bool): (r: Option<string>)
    ensures r.None? <==> forall i :: 0 <= i < |children| ==> !InPath(ns, children[i], isRightPath)
    ensures r.Some? ==> exists i :: (0 <= i < |children| && children[i] == r.value && InPath(ns, r.value, isRightPath)
      && forall j :: 0 <= j < i ==> !InPath(ns, children[j], isRightPath))
  {
    if children == [] then None
    else if InPath(ns, children[0], isRightPath) then Some(children[0])
    else
      var r := FirstInPath(ns, children[1..], isRightPath);
      if r.Some? then
        var i :| 0 <= i < |children[1..]| && children[1..][i] == r.value && InPath(ns, r.value, isRightPath)
          && forall j :: 0 <= j < i ==> !InPath(ns, children[1..][j], isRightPath);
        assert children[i + 1] == r.value;
        assert forall j :: 0 <= j < i + 1 ==> !InPath(ns, children[j], isRightPath) by {
          forall j | 0 < j < i + 1 ensures !InPath(ns, children[j], isRightPath) {
            assert children[j] == children[1..][j - 1];
          }
        }
        r
      else
        assert forall i :: 1 <= i < |children| ==> children[i] == children[1..][i - 1];
        r
  }

  /**
   * `hasEndNodeInPath`: under a conditional reached through a handle, some
   * child sits on that handle's branch (right = `isFalseCase` true);
   * otherwise the parent has any child at all.
   */
  function HasEndNodeInPath(ns: seq<Node>, parentId: Option<string>, handleId: Option<string>): (r: bool)
    ensures !Truthy(parentId) || !HasId(ns, parentId.value) ==> !r
    ensures Truthy(parentId) && HasId(ns, parentId.value) ==>
      var p := GetNode(ns, parentId.value).value;
      if p.kind == ConditionalKind && Truthy(handleId) then
        r <==> exists i :: 0 <= i < |ChildrenOf(p)| && InPath(ns, ChildrenOf(p)[i], handleId.value == RightHandle)
      else
        r <==> |ChildrenOf(p)| > 0
  {
    if !Truthy(parentId) then false
    else match GetNode(ns, parentId.value)
      case None => false
      case Some(p) =>
        if p.kind == ConditionalKind && Truthy(handleId) then
          FirstInPath(ns, ChildrenOf(p), handleId.value == RightHandle).Some?
        else |ChildrenOf(p)| > 0
  }

  /** The search used for End nodes: 8 rows, step SAFETY_MARGIN, must resolve. */
  function EndSearch(L: Layout): SearchConfig {
    SearchConfig(Some(8), Some(L.safetyMargin), Some(true))
  }

  /** The search used for new nodes and moved descendants: 5 rows, step SAFETY_MARGIN. */
  function NodeSearch(L: Layout): SearchConfig {
    SearchConfig(Some(5), Some(L.safetyMargin), None)
  }

  /**
   * Where an End node would like to go: one vertical spacing below the
   * parent, shifted one horizontal spacing right when `isFalseCase` is true
   * and left when it is false, if the parent is a conditional.
   */
  function EndPreferred(L: Layout, ns: seq<Node>, parentNodeId: string, parentPosition: Position, isFalseCase: bool): (r: Position)
    ensures r.y == parentPosition.y + L.verticalSpacing
    ensures GetNode(ns, parentNodeId).Some? && GetNode(ns, parentNodeId).value.kind == ConditionalKind ==>
      r.x == if isFalseCase then parentPosition.x + L.horizontalSpacing else parentPosition.x - L.horizontalSpacing
    ensures !(GetNode(ns, parentNodeId).Some? && GetNode(ns, parentNodeId).value.kind == ConditionalKind) ==>
      r.x == parentPosition.x
  {
    var parentNode := GetNode(ns, parentNodeId);
    var positionX :=
      if parentNode.Some? && parentNode.value.kind == ConditionalKind then
        (if isFalseCase then parentPosition.x + L.horizontalSpacing else parentPosition.x - L.horizontalSpacing)
      else parentPosition.x;
    Position(positionX, parentPosition.y + L.verticalSpacing)
  }

  /** `createEndNode`: a "Fim" End node on the given branch whose response is that branch's flag. */
  function CreateEndNode(L: Layout, ns: seq<Node>, parentNodeId: string, parentPosition: Position, isFalseCase: bool, id: string): (r: Node)
    ensures r.id == id && r.kind == EndKind
    ensures r.data.title == DefaultNodeTitle(EndKind) && r.data.parent == Some(parentNodeId) && r.data.children == Some([])
    ensures r.data.isFalseCase == Some(isFalseCase) && r.data.settings.response == Some(JBool(isFalseCase))
    ensures var pref := EndPreferred(L, ns, parentNodeId, parentPosition, isFalseCase);
      r.position == FreePosition(L, ns, pref.x, pref.y, None, EndSearch(L))
      && (!CheckCollision(L, ns, pref.x, pref.y, None) ==> r.position == pref)
  {
    var endNodeData := NodeData(DefaultNodeTitle(EndKind), Some(parentNodeId), Some([]), Some(isFalseCase),
      Settings(None, None, Some(JBool(isFalseCase))));
    var pref := EndPreferred(L, ns, parentNodeId, parentPosition, isFalseCase);
    Node(id, EndKind, FreePosition(L, ns, pref.x, pref.y, None, EndSearch(L)), endNodeData)
  }

  /** `createConditionalEndNodes`: the left End node (`isFalseCase` false) and the right one (`isFalseCase` true). */
  function CreateConditionalEndNodes(L: Layout, ns: seq<Node>, formatNode: Node, leftId: string, rightId: string): (r: (Node, Node))
    ensures r.0.data.isFalseCase == Some(false) && r.1.data.isFalseCase == Some(true)
    ensures r.0.data.parent == Some(formatNode.id) && r.1.data.parent == Some(formatNode.id)
    ensures r.0.id == leftId && r.1.id == rightId && r.0.kind == EndKind && r.1.kind == EndKind
  {
    (CreateEndNode(L, ns, formatNode.id, formatNode.position, false, leftId),
     CreateEndNode(L, ns, formatNode.id, formatNode.position, true, rightId))
  }

  /** `createMissingConditionalEndNode`: an End node on the branch the existing child leaves free. */
  function CreateMissingConditionalEndNode(L: Layout, ns: seq<Node>, formatNode: Node, existingChild: Node, id: string): (r: Node)
    ensures r.id == id && r.kind == EndKind && r.data.parent == Some(formatNode.id)
    ensures existingChild.data.isFalseCase.Some? ==> r.data.isFalseCase == Some(!existingChild.data.isFalseCase.value)
    ensures existingChild.data.isFalseCase.None? ==> r.data.isFalseCase == Some(true)
  {
    var needsEndNodeIsFalseCase := existingChild.data.isFalseCase != Some(true);
    CreateEndNode(L, ns, formatNode.id, formatNode.position, needsEndNodeIsFalseCase, id)
  }

  /**
   * The branch flags of the End nodes `handleCreateNode` generates for a new
   * node of `kind` with the given children (`shouldCreateEndNode` and the
   * branch below it); `existing` is the lookup of the only child, if any.
   */
  function PlannedEnds(kind: string, children: seq<string>, existing: Option<Node>): seq<bool> {
    if kind == ConditionalKind && |children| == 0 then [false, true]
    else if kind == ConditionalKind && |children| == 1 then
      (if existing.Some? then [existing.value.data.isFalseCase != Some(true)] else [])
    else if kind == StartKind && |children| == 0 then [true]
    else []
  }

  /** A new conditional ends with both branches taken: its one child's branch plus the generated ones cover true and false. */
  lemma ConditionalBranchesCovered(children: seq<string>, existing: Option<Node>)
    requires |children| <= 1
    requires |children| == 1 ==> existing.Some? && existing.value.data.isFalseCase.Some?
    ensures var plan := PlannedEnds(ConditionalKind, children, existing);
      var taken := if |children| == 1 then {existing.value.data.isFalseCase.value} else {};
      taken + (set b | b in plan) == {false, true}
      && (|children| == 1 ==> existing.value.data.isFalseCase.value !in plan)
  {
    var plan := PlannedEnds(ConditionalKind, children, existing);
    if |children| == 1 {
      var b := existing.value.data.isFalseCase.value;
      assert plan == [!b];
      assert (set x | x in plan) == {!b};
    } else {
      assert plan == [false, true];
      assert (set x | x in plan) == {false, true};
    }
  }

  /** Only a childless Start, or a conditional with fewer than two children, gets End nodes; a Start gets one on the false branch. */
  lemma PlannedEndsOnlyWhenMissing(kind: string, children: seq<string>, existing: Option<Node>)
    ensures PlannedEnds(kind, children, existing) != [] ==>
      (kind == StartKind && |children| == 0) || (kind == ConditionalKind && |children| < 2)
    ensures kind == StartKind ==> PlannedEnds(kind, children, existing) == if |children| == 0 then [true] else []
    ensures kind == ConditionalKind && |children| == 0 ==> |PlannedEnds(kind, children, existing)| == 2
  {
  }

  /**
   * Node lists that differ only in positions and in parents: a parent may
   * change only to `newId`, and only for an id listed in `reparented`.
   */
  predicate Repositioned(a: seq<Node>, b: seq<Node>, newId: string, reparented: seq<string>) {
    |a| == |b| && forall i {:trigger NodeRepositioned(a[i], b[i], newId, reparented)} :: 0 <= i < |a| ==> NodeRepositioned(a[i], b[i], newId, reparented)
  }

  /** `y` is `x` moved, and re-parented to `newId` only if its id is listed. */
  predicate NodeRepositioned(x: Node, y: Node, newId: string, reparented: seq<string>) {
    y == x.(position := y.position, data := x.data.(parent := y.data.parent))
    && (y.data.parent == x.data.parent || (x.id in reparented && y.data.parent == Some(newId)))
  }

  lemma RepositionedTrans(a: seq<Node>, b: seq<Node>, c: seq<Node>, newId: string, r1: seq<string>, r2: seq<string>)
    requires Repositioned(a, b, newId, r1) && Repositioned(b, c, newId, r2)
    ensures Repositioned(a, c, newId, r1 + r2)
  {
    forall i | 0 <= i < |a|
      ensures NodeRepositioned(a[i], c[i], newId, r1 + r2)
    {
      assert NodeRepositioned(a[i], b[i], newId, r1) && NodeRepositioned(b[i], c[i], newId, r2);
    }
  }

  /**
   * A repositioning keeps every node at its index; the node an id finds
   * differs only in position and, for a listed id, a parent set to `newId`.
   */
  lemma RepositionedLookup(a: seq<Node>, b: seq<Node>, newId: string, reparented: seq<string>, id: string)
    requires Repositioned(a, b, newId, reparented)
    ensures SameIds(a, b) && NodeIndex(a, id) == NodeIndex(b, id)
    ensures GetNode(a, id).Some? ==> GetNode(b, id).Some?
    ensures GetNode(a, id).Some? ==>
      var x := GetNode(a, id).value;
      var y := GetNode(b, id).value;
      y == x.(position := y.position, data := x.data.(parent := y.data.parent))
      && (y.data.parent == x.data.parent || (id in reparented && y.data.parent == Some(newId)))
  {
    assert SameIds(a, b) by {
      forall i | 0 <= i < |a|
        ensures a[i].id == b[i].id
      {
        assert NodeRepositioned(a[i], b[i], newId, reparented);
      }
    }
    NodeIndexSameIds(a, b, id);
    var j := NodeIndex(a, id);
    if j != -1 {
      assert NodeRepositioned(a[j], b[j], newId, reparented);
    }
  }

  /** Where `updateDescendantPositions` aims a child: left of the base for a falsy `isFalseCase`, right otherwise. */
  function ChildTargetX(L: Layout, c: Node, baseX: int): int {
    baseX + if c.data.isFalseCase != Some(true) then -(L.horizontalSpacing as int) else L.horizontalSpacing
  }

  /** The node `updateDescendantPositions` writes back for child `c`: the found position, and at level 0 the new parent. */
  function MovedNode(c: Node, pos: Position, level: nat, newId: string): Node {
    c.(position := pos, data := c.data.(parent := if level == 0 then Some(newId) else c.data.parent))
  }

  /**
   * The node list after `updateDescendantPositions(ids, baseX, baseY,
   * level)`: the children are handled in order, each one against the list
   * its predecessors left behind. `fuel` bounds the depth.
   */
  function Descend(L: Layout, ns: seq<Node>, ids: seq<string>, baseX: int, baseY: int, level: nat, newId: string, fuel: nat): seq<Node>
    decreases fuel, |ids|, 2
  {
    if fuel == 0 || ids == [] then ns
    else Descend(L, MoveChild(L, ns, ids[0], baseX, baseY, level, newId, fuel), ids[1..], baseX, baseY, level, newId, fuel)
  }

  /**
   * One child: look it up in the current list and search a free position
   * for it one vertical spacing below the base, excluding the child itself.
   */
  function MoveChild(L: Layout, ns: seq<Node>, id: string, baseX: int, baseY: int, level: nat, newId: string, fuel: nat): seq<Node>
    requires fuel > 0
    decreases fuel, 0, 1
  {
    match GetNode(ns, id)
    case None => ns
    case Some(c) =>
      MoveChildAt(L, ns, c, FreePosition(L, ns, ChildTargetX(L, c, baseX), baseY + L.verticalSpacing, Some(id), NodeSearch(L)), level, newId, fuel)
  }

  /** Write child `c` back at `pos`, then descend into its own children from there. */
  function MoveChildAt(L: Layout, ns: seq<Node>, c: Node, pos: Position, level: nat, newId: string, fuel: nat): seq<Node>
    requires fuel > 0
    decreases fuel, 0, 0
  {
    var moved := UpdatedNodes(ns, c.id, FullPatch(MovedNode(c, pos, level, newId)));
    if |ChildrenOf(c)| > 0 then Descend(L, moved, ChildrenOf(c), pos.x, pos.y, level + 1, newId, fuel - 1) else moved
  }

  /** `MoveChild` on a child that exists writes it back at the searched position. */
  lemma MoveChildOf(L: Layout, ns: seq<Node>, c: Node, baseX: int, baseY: int, level: nat, newId: string, fuel: nat)
    requires fuel > 0 && GetNode(ns, c.id) == Some(c)
    ensures MoveChild(L, ns, c.id, baseX, baseY, level, newId, fuel)
      == MoveChildAt(L, ns, c, FreePosition(L, ns, ChildTargetX(L, c, baseX), baseY + L.verticalSpacing, Some(c.id), NodeSearch(L)), level, newId, fuel)
  {
  }

  /** The loop of `updateDescendantPositions`: what remains after child `k` is the walk of the rest from the list it left. */
  lemma DescendStep(L: Layout, ns: seq<Node>, ids: seq<string>, k: int, baseX: int, baseY: int, level: nat, newId: string, fuel: nat)
    requires fuel > 0 && 0 <= k < |ids|
    ensures Descend(L, ns, ids[k..], baseX, baseY, level, newId, fuel)
      == Descend(L, MoveChild(L, ns, ids[k], baseX, baseY, level, newId, fuel), ids[k + 1..], baseX, baseY, level, newId, fuel)
  {
    assert ids[k..][0] == ids[k] && ids[k..][1..] == ids[k + 1..];
  }

  /** Writing one moved child back is a repositioning, re-parenting only that child. */
  lemma MoveOne(ns: seq<Node>, c: Node, pos: Position, level: nat, newId: string)
    requires GetNode(ns, c.id) == Some(c)
    ensures Repositioned(ns, UpdatedNodes(ns, c.id, FullPatch(MovedNode(c, pos, level, newId))), newId, if level == 0 then [c.id] else [])
  {
    var j := NodeIndex(ns, c.id);
    var b := UpdatedNodes(ns, c.id, FullPatch(MovedNode(c, pos, level, newId)));
    assert ns[j] == c;
    forall i | 0 <= i < |ns|
      ensures NodeRepositioned(ns[i], b[i], newId, if level == 0 then [c.id] else [])
    {
    }
  }

  /** `id` is reached from `ids` through `children` lists within `fuel` levels, as the walk reaches it. */
  predicate InSubtree(ns: seq<Node>, ids: seq<string>, fuel: nat, id: string)
    decreases fuel, |ids|
  {
    fuel > 0 && ids != [] && (InSubtreeOf(ns, ids[0], fuel, id) || InSubtree(ns, ids[1..], fuel, id))
  }

  predicate InSubtreeOf(ns: seq<Node>, root: string, fuel: nat, id: string)
    requires fuel > 0
    decreases fuel, 0
  {
    match GetNode(ns, root)
    case None => false
    case Some(c) => root == id || InSubtree(ns, ChildrenOf(c), fuel - 1, id)
  }

  /** A repositioning keeps ids and `children` lists, so it reaches the same subtree. */
  lemma {:induction false} SubtreeStable(a: seq<Node>, b: seq<Node>, newId: string, r: seq<string>, ids: seq<string>, fuel: nat, id: string)
    requires Repositioned(a, b, newId, r)
    ensures InSubtree(a, ids, fuel, id) == InSubtree(b, ids, fuel, id)
    decreases fuel, |ids|
  {
    if fuel > 0 && ids != [] {
      SubtreeOfStable(a, b, newId, r, ids[0], fuel, id);
      SubtreeStable(a, b, newId, r, ids[1..], fuel, id);
    }
  }

  lemma {:induction false} SubtreeOfStable(a: seq<Node>, b: seq<Node>, newId: string, r: seq<string>, root: string, fuel: nat, id: string)
    requires fuel > 0 && Repositioned(a, b, newId, r)
    ensures InSubtreeOf(a, root, fuel, id) == InSubtreeOf(b, root, fuel, id)
    decreases fuel, 0
  {
    RepositionedLookup(a, b, newId, r, root);
    if GetNode(a, root).Some? {
      assert ChildrenOf(GetNode(a, root).value) == ChildrenOf(GetNode(b, root).value);
      SubtreeStable(a, b, newId, r, ChildrenOf(GetNode(a, root).value), fuel - 1, id);
    }
  }

  /** The subtree of an existing child: the child itself and the subtrees of its own children. */
  lemma SubtreeOfNode(ns: seq<Node>, c: Node, fuel: nat, id: string)
    requires fuel > 0 && GetNode(ns, c.id) == Some(c)
    ensures InSubtreeOf(ns, c.id, fuel, id) == (c.id == id || InSubtree(ns, ChildrenOf(c), fuel - 1, id))
  {
  }

  /** Writing a moved child back leaves the subtree below it unchanged. */
  lemma MovedSubtree(ns: seq<Node>, c: Node, pos: Position, level: nat, newId: string, fuel: nat, id: string)
    requires GetNode(ns, c.id) == Some(c)
    ensures InSubtree(UpdatedNodes(ns, c.id, FullPatch(MovedNode(c, pos, level, newId))), ChildrenOf(c), fuel, id) == InSubtree(ns, ChildrenOf(c), fuel, id)
  {
    MoveOne(ns, c, pos, level, newId);
    SubtreeStable(ns, UpdatedNodes(ns, c.id, FullPatch(MovedNode(c, pos, level, newId))), newId, if level == 0 then [c.id] else [], ChildrenOf(c), fuel, id);
  }

  /**
   * Moving descendants changes only positions and parents, and a parent
   * only at level 0, to the new node, for one of the listed children.
   */
  lemma {:induction false} DescendRepositions(L: Layout, ns: seq<Node>, ids: seq<string>, baseX: int, baseY: int, level: nat, newId: string, fuel: nat)
    ensures Repositioned(ns, Descend(L, ns, ids, baseX, baseY, level, newId, fuel), newId, if level == 0 then ids else [])
    decreases fuel, |ids|, 2
  {
    var R := if level == 0 then ids else [];
    if fuel == 0 || ids == [] {
      assert Repositioned(ns, ns, newId, R);
    } else {
      var m := MoveChild(L, ns, ids[0], baseX, baseY, level, newId, fuel);
      var R0 := if level == 0 then [ids[0]] else [];
      var R1 := if level == 0 then ids[1..] else [];
      if GetNode(ns, ids[0]).Some? {
        var c := GetNode(ns, ids[0]).value;
        MoveChildAtRepositions(L, ns, c, FreePosition(L, ns, ChildTargetX(L, c, baseX), baseY + L.verticalSpacing, Some(ids[0]), NodeSearch(L)), level, newId, fuel);
      } else {
        assert Repositioned(ns, m, newId, R0);
      }
      DescendRepositions(L, m, ids[1..], baseX, baseY, level, newId, fuel);
      RepositionedTrans(ns, m, Descend(L, m, ids[1..], baseX, baseY, level, newId, fuel), newId, R0, R1);
      assert R0 + R1 == R;
    }
  }

  lemma {:induction false} MoveChildAtRepositions(L: Layout, ns: seq<Node>, c: Node, pos: Position, level: nat, newId: string, fuel: nat)
    requires fuel > 0 && GetNode(ns, c.id) == Some(c)
    ensures Repositioned(ns, MoveChildAt(L, ns, c, pos, level, newId, fuel), newId, if level == 0 then [c.id] else [])
    decreases fuel, 0, 0
  {
    var R := if level == 0 then [c.id] else [];
    var moved := UpdatedNodes(ns, c.id, FullPatch(MovedNode(c, pos, level, newId)));
    MoveOne(ns, c, pos, level, newId);
    if |ChildrenOf(c)| > 0 {
      DescendRepositions(L, moved, ChildrenOf(c), pos.x, pos.y, level + 1, newId, fuel - 1);
      RepositionedTrans(ns, moved, Descend(L, moved, ChildrenOf(c), pos.x, pos.y, level + 1, newId, fuel - 1), newId, R, []);
      assert R + [] == R;
    }
  }

  /** Every listed child that exists ends with the new node as its parent (the top-level call). */
  lemma {:induction false} DescendReparents(L: Layout, ns: seq<Node>, ids: seq<string>, baseX: int, baseY: int, newId: string, fuel: nat)
    requires fuel > 0
    ensures forall id :: id in ids && GetNode(ns, id).Some? ==>
      GetNode(Descend(L, ns, ids, baseX, baseY, 0, newId, fuel), id).Some?
      && GetNode(Descend(L, ns, ids, baseX, baseY, 0, newId, fuel), id).value.data.parent == Some(newId)
    decreases |ids|
  {
    if ids != [] {
      var m := MoveChild(L, ns, ids[0], baseX, baseY, 0, newId, fuel);
      var r := Descend(L, m, ids[1..], baseX, baseY, 0, newId, fuel);
      if GetNode(ns, ids[0]).Some? {
        var c := GetNode(ns, ids[0]).value;
        var pos := FreePosition(L, ns, ChildTargetX(L, c, baseX), baseY + L.verticalSpacing, Some(ids[0]), NodeSearch(L));
        MoveChildAtReparents(L, ns, c, pos, newId, fuel);
        MoveChildAtRepositions(L, ns, c, pos, 0, newId, fuel);
      } else {
        assert Repositioned(ns, m, newId, [ids[0]]);
      }
      DescendReparents(L, m, ids[1..], baseX, baseY, newId, fuel);
      DescendRepositions(L, m, ids[1..], baseX, baseY, 0, newId, fuel);
      forall id | id in ids && GetNode(ns, id).Some?
        ensures GetNode(r, id).Some? && GetNode(r, id).value.data.parent == Some(newId)
      {
        RepositionedLookup(ns, m, newId, [ids[0]], id);
        RepositionedLookup(m, r, newId, ids[1..], id);
        if id != ids[0] {
          assert id in ids[1..];
        }
      }
    }
  }

  lemma MoveChildAtReparents(L: Layout, ns: seq<Node>, c: Node, pos: Position, newId: string, fuel: nat)
    requires fuel > 0 && GetNode(ns, c.id) == Some(c)
    ensures GetNode(MoveChildAt(L, ns, c, pos, 0, newId, fuel), c.id).Some?
      && GetNode(MoveChildAt(L, ns, c, pos, 0, newId, fuel), c.id).value.data.parent == Some(newId)
  {
    var moved := UpdatedNodes(ns, c.id, FullPatch(MovedNode(c, pos, 0, newId)));
    MoveOne(ns, c, pos, 0, newId);
    UpdatedLookup(ns, c.id, FullPatch(MovedNode(c, pos, 0, newId)), c.id);
    if |ChildrenOf(c)| > 0 {
      DescendRepositions(L, moved, ChildrenOf(c), pos.x, pos.y, 1, newId, fuel - 1);
      RepositionedLookup(moved, Descend(L, moved, ChildrenOf(c), pos.x, pos.y, 1, newId, fuel - 1), newId, [], c.id);
    }
  }

  /** Nodes outside the subtree the walk reaches are left exactly as they were. */
  lemma {:induction false} DescendConfined(L: Layout, ns: seq<Node>, ids: seq<string>, baseX: int, baseY: int, level: nat, newId: string, fuel: nat, id: string)
    requires !InSubtree(ns, ids, fuel, id)
    ensures GetNode(Descend(L, ns, ids, baseX, baseY, level, newId, fuel), id) == GetNode(ns, id)
    decreases fuel, |ids|, 2
  {
    if fuel > 0 && ids != [] {
      var m := MoveChild(L, ns, ids[0], baseX, baseY, level, newId, fuel);
      var R0 := if level == 0 then [ids[0]] else [];
      if GetNode(ns, ids[0]).Some? {
        var c := GetNode(ns, ids[0]).value;
        var pos := FreePosition(L, ns, ChildTargetX(L, c, baseX), baseY + L.verticalSpacing, Some(ids[0]), NodeSearch(L));
        MoveChildAtConfined(L, ns, c, pos, level, newId, fuel, id);
        MoveChildAtRepositions(L, ns, c, pos, level, newId, fuel);
      } else {
        assert Repositioned(ns, m, newId, R0);
      }
      SubtreeStable(ns, m, newId, R0, ids[1..], fuel, id);
      DescendConfined(L, m, ids[1..], baseX, baseY, level, newId, fuel, id);
    }
  }

  lemma {:induction false} MoveChildAtConfined(L: Layout, ns: seq<Node>, c: Node, pos: Position, level: nat, newId: string, fuel: nat, id: string)
    requires fuel > 0 && GetNode(ns, c.id) == Some(c) && !InSubtreeOf(ns, c.id, fuel, id)
    ensures GetNode(MoveChildAt(L, ns, c, pos, level, newId, fuel), id) == GetNode(ns, id)
    decreases fuel, 0, 0
  {
    var moved := UpdatedNodes(ns, c.id, FullPatch(MovedNode(c, pos, level, newId)));
    SubtreeOfNode(ns, c, fuel, id);
    UpdatedLookup(ns, c.id, FullPatch(MovedNode(c, pos, level, newId)), id);
    if |ChildrenOf(c)| > 0 {
      MovedSubtree(ns, c, pos, level, newId, fuel - 1, id);
      DescendConfined(L, moved, ChildrenOf(c), pos.x, pos.y, level + 1, newId, fuel - 1, id);
    }
  }

  /**
   * A child that does not reach itself through its own descendants ends
   * at the position it was written to, with (at level 0) the new node as
   * its parent and everything else as it was.
   */
  lemma MoveChildAtPlaces(L: Layout, ns: seq<Node>, c: Node, pos: Position, level: nat, newId: string, fuel: nat)
    requires fuel > 0 && GetNode(ns, c.id) == Some(c)
    requires !InSubtree(ns, ChildrenOf(c), fuel - 1, c.id)
    ensures GetNode(MoveChildAt(L, ns, c, pos, level, newId, fuel), c.id) == Some(MovedNode(c, pos, level, newId))
  {
    var moved := UpdatedNodes(ns, c.id, FullPatch(MovedNode(c, pos, level, newId)));
    UpdatedLookup(ns, c.id, FullPatch(MovedNode(c, pos, level, newId)), c.id);
    if |ChildrenOf(c)| > 0 {
      MovedSubtree(ns, c, pos, level, newId, fuel - 1, c.id);
      DescendConfined(L, moved, ChildrenOf(c), pos.x, pos.y, level + 1, newId, fuel - 1, c.id);
    }
  }

  /**
   * The position a moved child gets is the free position searched for it
   * against the node list at that step, aimed one vertical spacing below
   * the base on its branch's side, with the child itself excluded.
   */
  lemma MoveChildPlaces(L: Layout, ns: seq<Node>, id: string, baseX: int, baseY: int, level: nat, newId: string, fuel: nat)
    requires fuel > 0 && GetNode(ns, id).Some?
    requires !InSubtree(ns, ChildrenOf(GetNode(ns, id).value), fuel - 1, id)
    ensures var c := GetNode(ns, id).value;
      GetNode(MoveChild(L, ns, id, baseX, baseY, level, newId, fuel), id) ==
        Some(MovedNode(c, FreePosition(L, ns, ChildTargetX(L, c, baseX), baseY + L.verticalSpacing, Some(id), NodeSearch(L)), level, newId))
  {
    var c := GetNode(ns, id).value;
    MoveChildAtPlaces(L, ns, c, FreePosition(L, ns, ChildTargetX(L, c, baseX), baseY + L.verticalSpacing, Some(id), NodeSearch(L)), level, newId, fuel);
  }

  class NodeCreation {
    const store: FlowStore
    const parentId: Option<string>
    const handleId: Option<string>
    const layout: Layout
    var currentStep: int
    var selectedKind: Option<string>
    var nodeData: NodeData

    constructor (store: FlowStore, parentId: Option<string>, handleId: Option<string>, layout: Layout)
      ensures this.store == store && this.parentId == parentId && this.handleId == handleId && this.layout == layout
      ensures currentStep == ChooseNodeStep && selectedKind.None? && nodeData == InitialNodeData
    {
      this.store := store;
      this.parentId := parentId;
      this.handleId := handleId;
      this.layout := layout;
      currentStep := ChooseNodeStep;
      selectedKind := None;
      nodeData := InitialNodeData;
    }

    /** `handleNodeSelect`: remember the kind, go to the title step, preset title and settings. */
    method SelectNodeType(kind: string)
      modifies this
      ensures selectedKind == Some(kind) && currentStep == SetupTitleStep
      ensures nodeData == old(nodeData).(
        title := if DefaultNodeTitle(kind) != "" then DefaultNodeTitle(kind) else old(nodeData).title,
        settings := KindSettings(kind))
    {
      selectedKind := Some(kind);
      currentStep := SetupTitleStep;
      var defaultTitle := DefaultNodeTitle(kind);
      if defaultTitle != "" {
        nodeData := nodeData.(title := defaultTitle);
      }
      nodeData := nodeData.(settings := KindSettings(kind));
    }

    /** `handleStepNavigation.previous`: one step back, never below the first step. */
    method Previous()
      modifies this
      ensures currentStep == if old(currentStep) <= ChooseNodeStep then old(currentStep) else old(currentStep) - 1
      ensures old(currentStep) >= ChooseNodeStep ==> currentStep >= ChooseNodeStep
      ensures selectedKind == old(selectedKind) && nodeData == old(nodeData)
    {
      if currentStep <= ChooseNodeStep {
        return;
      }
      currentStep := currentStep - 1;
    }

    /** `handleStepNavigation.goTo`: the title step needs a selected kind; any other step is taken as given. */
    method GoTo(stepNumber: int)
      modifies this
      ensures stepNumber == SetupTitleStep && selectedKind.None? ==> currentStep == old(currentStep)
      ensures !(stepNumber == SetupTitleStep && selectedKind.None?) ==> currentStep == stepNumber
      ensures selectedKind == old(selectedKind) && nodeData == old(nodeData)
    {
      if stepNumber == ChooseNodeStep {
        currentStep := ChooseNodeStep;
        return;
      }
      if stepNumber == SetupTitleStep && selectedKind.None? {
        return;
      }
      currentStep := stepNumber;
    }

    /**
     * Branch-slot eviction: the child already on the handle's branch is
     * dropped from the parent's `children` and loses its parent. A found
     * id `""` is falsy, so that occupant is left where it is.
     */
    method EvictOccupant(p: Node, isRightPath: bool) returns (occupant: Option<string>)
      requires Truthy(parentId) && GetNode(store.nodes, parentId.value) == Some(p)
      modifies store
      ensures occupant == FirstInPath(old(store.nodes), ChildrenOf(p), isRightPath)
      ensures store.edges == old(store.edges)
      ensures SameIds(old(store.nodes), store.nodes)
      ensures !Truthy(occupant) ==> store.nodes == old(store.nodes)
      ensures Truthy(occupant) ==> occupant.value !in ChildrenOf(GetNode(store.nodes, p.id).value)
      ensures Truthy(occupant) ==> GetNode(store.nodes, occupant.value).value.data.parent.None?
      ensures Truthy(occupant) && occupant.value != p.id ==>
        GetNode(store.nodes, p.id) == Some(p.(data := p.data.(children := Some(Without(ChildrenOf(p), occupant.value)))))
        && GetNode(store.nodes, occupant.value) == Some(Cleared(GetNode(old(store.nodes), occupant.value).value))
      ensures Truthy(occupant) ==> forall id :: id != p.id && id != occupant.value ==> GetNode(store.nodes, id) == GetNode(old(store.nodes), id)
      ensures Truthy(occupant) ==>
        store.nodes == ParentsCleared(UpdatedNodes(old(store.nodes), p.id, FullPatch(p.(data := p.data.(children := Some(Without(ChildrenOf(p), occupant.value)))))), [occupant.value])
    {
      occupant := FirstInPath(store.nodes, ChildrenOf(p), isRightPath);
      if !Truthy(occupant) {
        return;
      }
      ghost var n0 := store.nodes;
      DetachOccupant(p, occupant.value);
      EvictedLookups(n0, p, occupant.value);
      EvictedOthers(n0, p, occupant.value);
    }

    /** The two `updateNode` calls of the eviction: the parent without the occupant, then the occupant without its parent. */
    method DetachOccupant(p: Node, existingChildInPath: string)
      requires Truthy(parentId) && parentId.value == p.id && GetNode(store.nodes, p.id) == Some(p)
      requires GetNode(store.nodes, existingChildInPath).Some?
      modifies store
      ensures store.edges == old(store.edges)
      ensures SameIds(old(store.nodes), store.nodes)
      ensures store.nodes ==
        ParentsCleared(UpdatedNodes(old(store.nodes), p.id, FullPatch(p.(data := p.data.(children := Some(Without(ChildrenOf(p), existingChildInPath)))))), [existingChildInPath])
    {
      ghost var n0 := store.nodes;
      var updatedParentChildren := Without(ChildrenOf(p), existingChildInPath);
      var parentPatch := FullPatch(p.(data := p.data.(children := Some(updatedParentChildren))));
      store.UpdateNode(parentId.value, parentPatch);
      ghost var n1 := store.nodes;
      DetachedLookup(n0, p, updatedParentChildren, [], existingChildInPath);
      ParentsClearedEmpty(n1);
      var childNode := GetNode(store.nodes, existingChildInPath);
      var c := childNode.value;
      store.UpdateNode(existingChildInPath, FullPatch(c.(data := c.data.(parent := None))));
      UpdatedLookup(n0, parentId.value, parentPatch, p.id);
      UpdatedLookup(n1, existingChildInPath, FullPatch(c.(data := c.data.(parent := None))), c.id);
      ClearStep(n1, [existingChildInPath], 0);
      assert [existingChildInPath][..0] == [] && [existingChildInPath][..1] == [existingChildInPath];
    }

    /**
     * Inserting above all children: the parent's `children` become empty and
     * every listed child loses its parent.
     */
    method DetachAll(p: Node)
      requires Truthy(parentId) && GetNode(store.nodes, parentId.value) == Some(p)
      modifies store
      ensures store.edges == old(store.edges)
      ensures store.nodes == ParentsCleared(UpdatedNodes(old(store.nodes), p.id, FullPatch(p.(data := p.data.(children := Some([]))))), ChildrenOf(p))
    {
      var parentPatch := FullPatch(p.(data := p.data.(children := Some([]))));
      store.UpdateNode(parentId.value, parentPatch);
      ghost var n1 := store.nodes;
      var children := ChildrenOf(p);
      assert children[..0] == [];
      ParentsClearedEmpty(n1);
      var k := 0;
      while k < |children|
        invariant 0 <= k <= |children|
        invariant store.edges == old(store.edges)
        invariant store.nodes == ParentsCleared(n1, children[..k])
      {
        var childId := children[k];
        var childNode := GetNode(store.nodes, childId);
        ClearStep(n1, children, k);
        if childNode.Some? {
          var c := childNode.value;
          store.UpdateNode(childId, FullPatch(c.(data := c.data.(parent := None))));
        }
        k := k + 1;
      }
      assert children[..k] == children;
    }

    /**
     * `updateDescendantPositions`: each listed child in turn is moved one
     * vertical spacing below the base point (left of it unless its
     * `isFalseCase` is true) to the free position found, re-parented to the
     * new node at the top level only, and its own children follow from
     * there. `fuel` bounds the recursion depth, which the source leaves
     * unbounded.
     */
    method UpdateDescendantPositions(childrenIds: seq<string>, baseX: int, baseY: int, level: nat, newId: string, fuel: nat)
      modifies store
      decreases fuel, 1
      ensures store.edges == old(store.edges)
      ensures store.nodes == Descend(layout, old(store.nodes), childrenIds, baseX, baseY, level, newId, fuel)
    {
      if fuel == 0 {
        return;
      }
      var k := 0;
      assert childrenIds[0..] == childrenIds;
      while k < |childrenIds|
        invariant 0 <= k <= |childrenIds|
        invariant store.edges == old(store.edges)
        invariant Descend(layout, store.nodes, childrenIds[k..], baseX, baseY, level, newId, fuel)
          == Descend(layout, old(store.nodes), childrenIds, baseX, baseY, level, newId, fuel)
      {
        DescendStep(layout, store.nodes, childrenIds, k, baseX, baseY, level, newId, fuel);
        var childId := childrenIds[k];
        var childNode := GetNode(store.nodes, childId);
        if childNode.Some? {
          PlaceChild(childNode.value, baseX, baseY, level, newId, fuel);
        }
        k := k + 1;
      }
    }

    /**
     * One pass of the loop of `updateDescendantPositions`, for a child that
     * exists: search its free position, write it back (re-parented at the
     * top level), then move its own children from there.
     */
    method PlaceChild(c: Node, baseX: int, baseY: int, level: nat, newId: string, fuel: nat)
      requires fuel > 0 && GetNode(store.nodes, c.id) == Some(c)
      modifies store
      decreases fuel, 0
      ensures store.edges == old(store.edges)
      ensures store.nodes == MoveChild(layout, old(store.nodes), c.id, baseX, baseY, level, newId, fuel)
    {
      var childPositionY := baseY + layout.verticalSpacing;
      var desiredX := baseX + if c.data.isFalseCase != Some(true) then -(layout.horizontalSpacing as int) else layout.horizontalSpacing;
      var freePosition := FindFreePosition(layout, store.nodes, desiredX, childPositionY, Some(c.id), NodeSearch(layout));
      var newParent := if level == 0 then Some(newId) else c.data.parent;
      store.UpdateNode(c.id, FullPatch(c.(position := freePosition, data := c.data.(parent := newParent))));
      assert desiredX == ChildTargetX(layout, c, baseX);
      MoveChildOf(layout, old(store.nodes), c, baseX, baseY, level, newId, fuel);
      if |ChildrenOf(c)| > 0 {
        UpdateDescendantPositions(ChildrenOf(c), freePosition.x, freePosition.y, level + 1, newId, fuel - 1);
      }
    }

    /**
     * `addNodesToFlow`: list the new nodes' ids after the parent's children,
     * insert each node, then write the parent back whole.
     */
    method AddNodesToFlow(newNodes: seq<Node>, parentNode: Node)
      modifies store
      ensures EdgesExtend(old(store.edges), store.edges)
      ensures FreshBatch(old(store.nodes), newNodes, parentNode.id) ==>
        BatchAdded(old(store.nodes), store.nodes, newNodes, |newNodes|, parentNode.id)
      ensures FreshBatch(old(store.nodes), newNodes, parentNode.id) && HasId(old(store.nodes), parentNode.id) ==>
        GetNode(store.nodes, parentNode.id) == Some(WithListed(parentNode, newNodes))
      ensures FreshBatch(old(store.nodes), newNodes, parentNode.id) ==>
        (GetNode(old(store.nodes), parentNode.id).None? <==> GetNode(store.nodes, parentNode.id).None?)
    {
      var childrenIds := seq(|newNodes|, i requires 0 <= i < |newNodes| => newNodes[i].id);
      var parent := parentNode.(data := parentNode.data.(children := Some(ChildrenOf(parentNode) + childrenIds)));
      assert parent == WithListed(parentNode, newNodes);
      ghost var isFresh := FreshBatch(store.nodes, newNodes, parentNode.id);
      AddEach(newNodes, parentNode.id);
      ghost var before := store.nodes;
      store.UpdateNode(parent.id, FullPatch(parent));
      if isFresh {
        UpdatedLookup(before, parent.id, FullPatch(parent), parent.id);
        forall id
          ensures GetNode(store.nodes, id) == if id == parent.id && HasId(before, parent.id) then Some(parent) else GetNode(before, id)
        {
          UpdatedLookup(before, parent.id, FullPatch(parent), id);
        }
        BatchFinish(old(store.nodes), before, store.nodes, newNodes, parent);
      }
    }

    /** The `forEach` of `addNodesToFlow`: `addNodes` for each new node, in order, with its parent edge. */
    method AddEach(newNodes: seq<Node>, parentId: string)
      modifies store
      ensures EdgesExtend(old(store.edges), store.edges)
      ensures FreshBatch(old(store.nodes), newNodes, parentId) ==>
        BatchAdded(old(store.nodes), store.nodes, newNodes, |newNodes|, parentId)
        && LookupKept(old(store.nodes), store.nodes, parentId)
    {
      ghost var isFresh := FreshBatch(store.nodes, newNodes, parentId);
      var k := 0;
      while k < |newNodes|
        invariant 0 <= k <= |newNodes|
        invariant EdgesExtend(old(store.edges), store.edges)
        invariant isFresh ==> BatchAdded(old(store.nodes), store.nodes, newNodes, k, parentId)
        invariant isFresh ==> LookupKept(old(store.nodes), store.nodes, parentId)
      {
        AddBatchNode(newNodes, k, parentId, old(store.nodes), old(store.edges));
        k := k + 1;
      }
    }

    /** One round of the `addNodes` loop: the `k`-th node joins the batch already added. */
    method AddBatchNode(newNodes: seq<Node>, k: int, parentId: string, ghost ns0: seq<Node>, ghost es0: seq<Edge>)
      requires 0 <= k < |newNodes| && EdgesExtend(es0, store.edges)
      requires FreshBatch(ns0, newNodes, parentId) ==>
        BatchAdded(ns0, store.nodes, newNodes, k, parentId) && LookupKept(ns0, store.nodes, parentId)
      modifies store
      ensures EdgesExtend(es0, store.edges)
      ensures FreshBatch(ns0, newNodes, parentId) ==>
        BatchAdded(ns0, store.nodes, newNodes, k + 1, parentId) && LookupKept(ns0, store.nodes, parentId)
    {
      ghost var before := store.nodes;
      ghost var edgesBefore := store.edges;
      store.AddNodes(newNodes[k], false);
      EdgesExtendTrans(es0, edgesBefore, store.edges);
      if FreshBatch(ns0, newNodes, parentId) {
        BatchStep(ns0, before, store.nodes, newNodes, k, parentId);
      }
    }

    /**
     * The auto-completion at the end of `handleCreateNode`: End nodes for
     * the branches a new Start or conditional still lacks.
     */
    method CompleteBranches(formatNode: Node, leftEndId: string, rightEndId: string)
      modifies store
      ensures EdgesExtend(old(store.edges), store.edges)
      ensures var plan := PlannedEnds(formatNode.kind, ChildrenOf(formatNode), OnlyChild(old(store.nodes), ChildrenOf(formatNode)));
        FreshEnds(old(store.nodes), formatNode.id, leftEndId, rightEndId) ==>
          |store.nodes| == |old(store.nodes)| + |plan|
          && (forall k :: 0 <= k < |plan| ==> EndAt(store.nodes, [leftEndId, rightEndId][k], formatNode.id, plan[k]))
          && (forall id :: id != leftEndId && id != rightEndId ==> (GetNode(old(store.nodes), id).None? <==> GetNode(store.nodes, id).None?))
          && (GetNode(old(store.nodes), formatNode.id).Some? && NodeSameButChildren(formatNode, GetNode(old(store.nodes), formatNode.id).value) ==>
                GetNode(store.nodes, formatNode.id).Some? && NodeSameButChildren(formatNode, GetNode(store.nodes, formatNode.id).value))
    {
      var children := ChildrenOf(formatNode);
      ghost var isFresh := FreshEnds(store.nodes, formatNode.id, leftEndId, rightEndId);
      ghost var n0 := store.nodes;
      var shouldCreateEndNode :=
        (formatNode.kind == StartKind && |children| == 0) || (formatNode.kind == ConditionalKind && |children| < 2);
      if !shouldCreateEndNode {
        return;
      }
      var batch: seq<Node> := [];
      if formatNode.kind == ConditionalKind {
        if |children| == 0 {
          var ends := CreateConditionalEndNodes(layout, store.nodes, formatNode, leftEndId, rightEndId);
          batch := [ends.0, ends.1];
        } else if |children| == 1 {
          var existingChild := GetNode(store.nodes, children[0]);
          if existingChild.Some? {
            var endNode := CreateMissingConditionalEndNode(layout, store.nodes, formatNode, existingChild.value, leftEndId);
            batch := [endNode];
          }
        }
      } else {
        var endNode := CreateEndNode(layout, store.nodes, formatNode.id, formatNode.position, true, leftEndId);
        batch := [endNode];
      }
      ghost var plan := PlannedEnds(formatNode.kind, children, OnlyChild(n0, children));
      assert |batch| == |plan|;
      assert forall k :: 0 <= k < |batch| ==> (batch[k].kind == EndKind && batch[k].id == [leftEndId, rightEndId][k]
        && batch[k].data.parent == Some(formatNode.id) && batch[k].data.isFalseCase == Some(plan[k]));
      if batch != [] {
        AddNodesToFlow(batch, formatNode);
        if isFresh {
          BatchEnds(n0, store.nodes, batch, plan, formatNode, leftEndId, rightEndId);
        }
      }
    }

    /**
     * The branch of `handleCreateNode` for a parent that already has
     * children: with a branch handle the occupant of that branch is evicted
     * and becomes the new node's only child; without one, every child is
     * detached and handed to the new node.
     */
    method TakeOverChildren(p: Node) returns (taken: Option<seq<string>>)
      requires Truthy(parentId) && GetNode(store.nodes, parentId.value) == Some(p) && |ChildrenOf(p)| > 0
      modifies store
      ensures store.edges == old(store.edges)
      ensures store.nodes == Claimed(old(store.nodes), parentId, handleId)
      ensures SameIds(old(store.nodes), store.nodes)
      ensures taken == TakenChildren(old(store.nodes), parentId, handleId, nodeData.children)
    {
      ghost var n0 := store.nodes;
      taken := nodeData.children;
      if handleId == Some(LeftHandle) || handleId == Some(RightHandle) {
        var isRightPath := handleId == Some(RightHandle);
        var existingChildInPath := EvictOccupant(p, isRightPath);
        ClaimedBranch(n0, parentId, handleId, p, existingChildInPath);
        if Truthy(existingChildInPath) {
          taken := Some([existingChildInPath.value]);
        }
      } else {
        taken := Some(ChildrenOf(p));
        DetachAll(p);
        ClaimedAll(n0, parentId, handleId, p);
      }
    }

    /**
     * The parent branch of `handleCreateNode`'s placement: take over or
     * detach the parent's children, aim one vertical spacing below the
     * parent (shifted by the handle), and note the branch flag.
     */
    method ClaimSlot(p: Node) returns (pos: Position, isFalseCase: bool, children: Option<seq<string>>)
      requires Truthy(parentId) && GetNode(store.nodes, parentId.value) == Some(p)
      modifies store
      ensures store.edges == old(store.edges)
      ensures SameIds(old(store.nodes), store.nodes)
      ensures forall cx :: pos == InsertionPreference(layout, old(store.nodes), parentId, handleId, cx)
      ensures isFalseCase == (handleId == Some(RightHandle))
      ensures store.nodes == Claimed(old(store.nodes), parentId, handleId)
      ensures children == TakenChildren(old(store.nodes), parentId, handleId, nodeData.children)
    {
      ghost var n0 := store.nodes;
      var positionX := p.position.x;
      children := nodeData.children;
      isFalseCase := false;
      var hasNoChildren := |ChildrenOf(p)| == 0;
      if hasNoChildren {
        ClaimedNothing(n0, parentId, handleId, p);
      } else {
        var offsetX := layout.horizontalSpacing;
        children := TakeOverChildren(p);
        positionX := if p.kind != ConditionalKind then p.position.x else p.position.x + offsetX;
      }
      var positionY := p.position.y + layout.verticalSpacing;
      if Truthy(handleId) {
        if handleId.value == LeftHandle {
          positionX := p.position.x - layout.horizontalSpacing;
          isFalseCase := false;
        }
        if handleId.value == RightHandle {
          positionX := p.position.x + layout.horizontalSpacing;
          isFalseCase := true;
        }
      }
      pos := Position(positionX, positionY);
      assert ParentLookup(n0, parentId) == Some(p);
      forall cx
        ensures pos == InsertionPreference(layout, n0, parentId, handleId, cx)
      {
      }
    }

    /**
     * The first half of `handleCreateNode`: evict or detach the parent's
     * children as the handle dictates, choose the preferred point and the
     * new node's data, and search a free position for it.
     */
    method PrepareInsertion(newId: string, viewportCenterX: int) returns (formatNode: Node)
      requires selectedKind.Some?
      modifies store
      ensures store.edges == old(store.edges)
      ensures SameIds(old(store.nodes), store.nodes)
      ensures store.nodes == Claimed(old(store.nodes), parentId, handleId)
      ensures formatNode.data.children == TakenChildren(old(store.nodes), parentId, handleId, nodeData.children)
      ensures var pref := InsertionPreference(layout, old(store.nodes), parentId, handleId, viewportCenterX);
        formatNode == Node(newId, selectedKind.value, FreePosition(layout, store.nodes, pref.x, pref.y, None, NodeSearch(layout)),
          nodeData.(parent := parentId, children := formatNode.data.children,
            isFalseCase := Some(ParentLookup(old(store.nodes), parentId).Some? && handleId == Some(RightHandle))))
    {
      var preferred: Position;
      var isFalseCase := false;
      var children := nodeData.children;
      var parentNode := ParentLookup(store.nodes, parentId);
      if parentNode.Some? {
        preferred, isFalseCase, children := ClaimSlot(parentNode.value);
      } else {
        var lastY := if |store.nodes| == 0 then 0 else store.nodes[|store.nodes| - 1].position.y;
        preferred := Position(viewportCenterX, lastY + layout.verticalSpacing);
      }
      var formattedNodeData := nodeData.(parent := parentId, children := children, isFalseCase := Some(isFalseCase));
      var finalPosition := FindFreePosition(layout, store.nodes, preferred.x, preferred.y, None, NodeSearch(layout));
      formatNode := Node(newId, selectedKind.value, finalPosition, formattedNodeData);
    }

    /**
     * `handleCreateNode`: nothing happens without a kind and a non-blank
     * title; otherwise the new node takes its place (evicting or detaching
     * children), its subtree is moved, it is inserted and linked, missing
     * End nodes are generated, and the edges are re-derived. `newId`,
     * `leftEndId` and `rightEndId` stand for the generated uuids.
     */
    method HandleCreateNode(newId: string, leftEndId: string, rightEndId: string, viewportCenterX: int)
      requires selectedKind.Some? && Trim(nodeData.title) != "" ==>
        TakenChildren(store.nodes, parentId, handleId, nodeData.children).Some?
      modifies store
      ensures selectedKind.None? || Trim(nodeData.title) == "" ==>
        store.nodes == old(store.nodes) && store.edges == old(store.edges)
      ensures EdgesExtend(old(store.edges), store.edges)
      ensures selectedKind.Some? && Trim(nodeData.title) != "" ==> EdgesDerived(store.nodes, store.edges)
      ensures (selectedKind.Some? && Trim(nodeData.title) != "" && !HasId(old(store.nodes), newId)
        && FreshEnds(old(store.nodes), newId, leftEndId, rightEndId)) ==>
        GetNode(store.nodes, newId).Some?
        && GetNode(store.nodes, newId).value.kind == selectedKind.value
        && GetNode(store.nodes, newId).value.data.title == nodeData.title
        && GetNode(store.nodes, newId).value.data.parent == parentId
        && GetNode(store.nodes, newId).value.data.isFalseCase
           == Some(ParentLookup(old(store.nodes), parentId).Some? && handleId == Some(RightHandle))
      ensures (selectedKind.Some? && Trim(nodeData.title) != "" && !HasId(old(store.nodes), newId)
        && FreshEnds(old(store.nodes), newId, leftEndId, rightEndId)
        && ParentLookup(old(store.nodes), parentId).None? && nodeData.children == Some([])) ==>
        var plan := PlannedEnds(selectedKind.value, [], None);
        |store.nodes| == |old(store.nodes)| + 1 + |plan|
        && forall k :: 0 <= k < |plan| ==> EndAt(store.nodes, [leftEndId, rightEndId][k], newId, plan[k])
    {
      if selectedKind.None? || Trim(nodeData.title) == "" {
        return;
      }
      ghost var n0 := store.nodes;
      ghost var e0 := store.edges;
      var formatNode := PrepareInsertion(newId, viewportCenterX);
      ghost var n1 := store.nodes;
      var children := ChildrenOf(formatNode);
      if |children| > 0 {
        UpdateDescendantPositions(children, formatNode.position.x, formatNode.position.y, 0, newId, |store.nodes|);
      }
      ghost var n2 := store.nodes;
      InsertAndLink(formatNode, leftEndId, rightEndId);
      ghost var e4 := store.edges;
      ghost var plan := PlannedEnds(formatNode.kind, children, OnlyChild(store.nodes, children));
      FinishBranches(formatNode, leftEndId, rightEndId);
      EdgesExtendTrans(e0, e4, store.edges);
      if !HasId(n0, newId) && FreshEnds(n0, newId, leftEndId, rightEndId) {
        if |children| > 0 {
          DescendRepositions(layout, n1, children, formatNode.position.x, formatNode.position.y, 0, newId, |n1|);
        }
        FreshThroughRepositioning(n0, n1, n2, newId, leftEndId, rightEndId, children, |children| > 0);
        if ParentLookup(n0, parentId).None? && nodeData.children == Some([]) {
          assert children == [] && formatNode.kind == selectedKind.value && formatNode.id == newId;
          assert plan == PlannedEnds(selectedKind.value, [], None);
        }
      }
    }

    /**
     * `addNodes(formatNode)` and, for a node hung from a branch handle,
     * `addEdgeWithHandle`. The ghost ids are End-node ids that must stay
     * free for the completion that follows.
     */
    method InsertAndLink(formatNode: Node, ghost leftEndId: string, ghost rightEndId: string)
      modifies store
      ensures EdgesExtend(old(store.edges), store.edges)
      ensures (!HasId(old(store.nodes), formatNode.id) && FreshEnds(old(store.nodes), formatNode.id, leftEndId, rightEndId)) ==>
        |store.nodes| == |old(store.nodes)| + 1 && FreshEnds(store.nodes, formatNode.id, leftEndId, rightEndId)
        && GetNode(store.nodes, formatNode.id).Some? && NodeSameButChildren(formatNode, GetNode(store.nodes, formatNode.id).value)
      ensures var mid := AddNodeResult(old(store.nodes), old(store.edges), formatNode, false);
        if Truthy(handleId) && Truthy(parentId) then
          var e := HandleEdge(parentId.value, formatNode.id, handleId.value);
          if !HandleTaken(mid.1, e.source, e.sourceHandle) && EdgeIndex(mid.1, e.id) == -1 then
            store.nodes == WithChild(mid.0, e.source, e.target) && store.edges == mid.1 + [e]
          else store.nodes == mid.0 && store.edges == mid.1
        else store.nodes == mid.0 && store.edges == mid.1
      ensures Truthy(handleId) && Truthy(parentId) && HandleTaken(old(store.edges), parentId.value, handleId) ==>
        (store.nodes, store.edges) == AddNodeResult(old(store.nodes), old(store.edges), formatNode, false)
    {
      ghost var n2 := store.nodes;
      ghost var e2 := store.edges;
      store.AddNodes(formatNode, false);
      ghost var n3 := store.nodes;
      ghost var e3 := store.edges;
      if Truthy(handleId) && Truthy(parentId) {
        if HandleTaken(e2, parentId.value, handleId) {
          var i :| 0 <= i < |e2| && e2[i].source == parentId.value && e2[i].sourceHandle == handleId;
          assert e3[i] == e2[i];
        }
        store.AddEdgeWithHandle(HandleEdge(parentId.value, formatNode.id, handleId.value));
      }
      EdgesExtendTrans(e2, e3, store.edges);
      if !HasId(n2, formatNode.id) && FreshEnds(n2, formatNode.id, leftEndId, rightEndId) {
        assert LookupKept(n2, n3, leftEndId) && LookupKept(n2, n3, rightEndId);
        SameButChildrenLookup(n3, store.nodes, leftEndId);
        SameButChildrenLookup(n3, store.nodes, rightEndId);
        SameButChildrenLookup(n3, store.nodes, formatNode.id);
      }
    }

    /** The completion of `handleCreateNode`: generate the missing End nodes, then `setEdges`. */
    method FinishBranches(formatNode: Node, leftEndId: string, rightEndId: string)
      modifies store
      ensures EdgesExtend(old(store.edges), store.edges)
      ensures EdgesDerived(store.nodes, store.edges)
      ensures var plan := PlannedEnds(formatNode.kind, ChildrenOf(formatNode), OnlyChild(old(store.nodes), ChildrenOf(formatNode)));
        FreshEnds(old(store.nodes), formatNode.id, leftEndId, rightEndId) ==>
          |store.nodes| == |old(store.nodes)| + |plan|
          && (forall k :: 0 <= k < |plan| ==> EndAt(store.nodes, [leftEndId, rightEndId][k], formatNode.id, plan[k]))
          && (GetNode(old(store.nodes), formatNode.id).Some? && NodeSameButChildren(formatNode, GetNode(old(store.nodes), formatNode.id).value) ==>
                GetNode(store.nodes, formatNode.id).Some? && NodeSameButChildren(formatNode, GetNode(store.nodes, formatNode.id).value))
    {
      ghost var n4 := store.nodes;
      ghost var e4 := store.edges;
      ghost var plan := PlannedEnds(formatNode.kind, ChildrenOf(formatNode), OnlyChild(n4, ChildrenOf(formatNode)));
      CompleteBranches(formatNode, leftEndId, rightEndId);
      ghost var n5 := store.nodes;
      ghost var e5 := store.edges;
      store.SetEdges();
      EdgesExtendTrans(e4, e5, store.edges);
      if FreshEnds(n4, formatNode.id, leftEndId, rightEndId) {
        EndsKept(n5, store.nodes, formatNode.id, leftEndId, rightEndId, plan);
        SameButChildrenLookup(n5, store.nodes, formatNode.id);
      }
    }
  }

  /** The edge `addEdgeWithHandle` is asked for when a node hangs from a branch handle. */
  function HandleEdge(parent: string, id: string, handle: string): Edge {
    Edge(parent + "-" + id + "-" + handle, parent, id, Some(handle))
  }

  /** `parentId && flowStore.getNodeById(parentId)` */
  function ParentLookup(ns: seq<Node>, parentId: Option<string>): Option<Node> {
    if Truthy(parentId) then GetNode(ns, parentId.value) else None
  }

  /**
   * The children a new node takes over: the occupant of its branch slot,
   * all of the parent's children when inserted without a branch handle,
   * otherwise its own (form) children.
   */
  function TakenChildren(ns: seq<Node>, parentId: Option<string>, handleId: Option<string>, own: Option<seq<string>>): Option<seq<string>> {
    if Handed(ns, parentId, handleId) == [] then own else Some(Handed(ns, parentId, handleId))
  }

  /**
   * The point `handleCreateNode` asks the search for: one vertical spacing
   * below the parent, left of it for the left handle, right of it for the
   * right handle (or, without a handle, under a conditional that already has
   * children); below the last node, at the viewport centre, without a parent.
   */
  function InsertionPreference(L: Layout, ns: seq<Node>, parentId: Option<string>, handleId: Option<string>, viewportCenterX: int): Position {
    match ParentLookup(ns, parentId)
    case None => Position(viewportCenterX, (if |ns| == 0 then 0 else ns[|ns| - 1].position.y) + L.verticalSpacing)
    case Some(p) =>
      var x0 := if |ChildrenOf(p)| == 0 || p.kind != ConditionalKind then p.position.x else p.position.x + L.horizontalSpacing;
      var x :=
        if handleId == Some(LeftHandle) then p.position.x - L.horizontalSpacing
        else if handleId == Some(RightHandle) then p.position.x + L.horizontalSpacing
        else x0;
      Position(x, p.position.y + L.verticalSpacing)
  }

  /**
   * The handles agree with the End-node layout: under a conditional, the
   * left handle aims where the End node with `isFalseCase` false goes and
   * the right handle where the one with `isFalseCase` true goes.
   */
  lemma HandlesMatchEndSides(L: Layout, ns: seq<Node>, parentId: Option<string>, viewportCenterX: int)
    requires ParentLookup(ns, parentId).Some? && ParentLookup(ns, parentId).value.kind == ConditionalKind
    ensures var p := ParentLookup(ns, parentId).value;
      InsertionPreference(L, ns, parentId, Some(LeftHandle), viewportCenterX) == EndPreferred(L, ns, p.id, p.position, false)
      && InsertionPreference(L, ns, parentId, Some(RightHandle), viewportCenterX) == EndPreferred(L, ns, p.id, p.position, true)
  {
    var p := ParentLookup(ns, parentId).value;
    assert GetNode(ns, p.id) == Some(p);
  }

  lemma FreshThroughRepositioning(n0: seq<Node>, n1: seq<Node>, n2: seq<Node>, newId: string, leftEndId: string, rightEndId: string, children: seq<string>, moved: bool)
    requires SameIds(n0, n1) && (moved ==> Repositioned(n1, n2, newId, children)) && (!moved ==> n2 == n1)
    requires !HasId(n0, newId) && FreshEnds(n0, newId, leftEndId, rightEndId)
    ensures !HasId(n2, newId) && FreshEnds(n2, newId, leftEndId, rightEndId)
  {
    NodeIndexSameIds(n0, n1, newId);
    NodeIndexSameIds(n0, n1, leftEndId);
    NodeIndexSameIds(n0, n1, rightEndId);
    if moved {
      RepositionedLookup(n1, n2, newId, children, newId);
      RepositionedLookup(n1, n2, newId, children, leftEndId);
      RepositionedLookup(n1, n2, newId, children, rightEndId);
    }
  }

  lemma EndsKept(n5: seq<Node>, n6: seq<Node>, newId: string, leftEndId: string, rightEndId: string, plan: seq<bool>)
    requires |plan| <= 2 && SameButChildren(n5, n6)
    requires forall k :: 0 <= k < |plan| ==> EndAt(n5, [leftEndId, rightEndId][k], newId, plan[k])
    ensures forall k :: 0 <= k < |plan| ==> EndAt(n6, [leftEndId, rightEndId][k], newId, plan[k])
  {
    forall k | 0 <= k < |plan|
      ensures EndAt(n6, [leftEndId, rightEndId][k], newId, plan[k])
    {
      SameButChildrenLookup(n5, n6, [leftEndId, rightEndId][k]);
    }
  }

  /** The lookup of a new node's only child, as `handleCreateNode` does for a one-child conditional. */
  function OnlyChild(ns: seq<Node>, children: seq<string>): Option<Node> {
    if |children| == 1 then GetNode(ns, children[0]) else None
  }

  /** The ids chosen for End nodes are new, distinct, and not the new node's. */
  predicate FreshEnds(ns: seq<Node>, newId: string, leftEndId: string, rightEndId: string) {
    !HasId(ns, leftEndId) && !HasId(ns, rightEndId) && leftEndId != rightEndId && leftEndId != newId && rightEndId != newId
  }

  /** An End node on branch `flag` under `parentId` is stored under `id`. */
  predicate EndAt(ns: seq<Node>, id: string, parentId: string, flag: bool) {
    GetNode(ns, id).Some? && GetNode(ns, id).value.kind == EndKind
    && GetNode(ns, id).value.data.parent == Some(parentId) && GetNode(ns, id).value.data.isFalseCase == Some(flag)
  }

  lemma BatchEnds(n0: seq<Node>, n1: seq<Node>, batch: seq<Node>, plan: seq<bool>, formatNode: Node, leftEndId: string, rightEndId: string)
    requires 1 <= |batch| <= 2 && |batch| == |plan|
    requires FreshEnds(n0, formatNode.id, leftEndId, rightEndId)
    requires forall k :: 0 <= k < |batch| ==> (batch[k].kind == EndKind && batch[k].id == [leftEndId, rightEndId][k]
      && batch[k].data.parent == Some(formatNode.id) && batch[k].data.isFalseCase == Some(plan[k]))
    requires FreshBatch(n0, batch, formatNode.id) ==> BatchAdded(n0, n1, batch, |batch|, formatNode.id)
    requires FreshBatch(n0, batch, formatNode.id) && HasId(n0, formatNode.id) ==>
      GetNode(n1, formatNode.id) == Some(WithListed(formatNode, batch))
    requires FreshBatch(n0, batch, formatNode.id) ==> (GetNode(n0, formatNode.id).None? <==> GetNode(n1, formatNode.id).None?)
    ensures |n1| == |n0| + |plan|
    ensures forall k :: 0 <= k < |plan| ==> EndAt(n1, [leftEndId, rightEndId][k], formatNode.id, plan[k])
    ensures forall id :: id != leftEndId && id != rightEndId ==> (GetNode(n0, id).None? <==> GetNode(n1, id).None?)
    ensures GetNode(n0, formatNode.id).Some? && NodeSameButChildren(formatNode, GetNode(n0, formatNode.id).value) ==>
      GetNode(n1, formatNode.id).Some? && NodeSameButChildren(formatNode, GetNode(n1, formatNode.id).value)
  {
    assert FreshBatch(n0, batch, formatNode.id);
    forall k | 0 <= k < |plan|
      ensures EndAt(n1, [leftEndId, rightEndId][k], formatNode.id, plan[k])
    {
      assert GetNode(n1, batch[k].id).Some? && NodeSameButChildren(batch[k], GetNode(n1, batch[k].id).value);
    }
    forall id | id != leftEndId && id != rightEndId
      ensures GetNode(n0, id).None? <==> GetNode(n1, id).None?
    {
      if id != formatNode.id {
        assert NotAmong(id, batch, |batch|);
        assert LookupKept(n0, n1, id);
      }
    }
  }

  /** `parentNode` with the new nodes' ids appended to its children. */
  function WithListed(parentNode: Node, newNodes: seq<Node>): Node {
    parentNode.(data := parentNode.data.(children := Some(ChildrenOf(parentNode) + seq(|newNodes|, i requires 0 <= i < |newNodes| => newNodes[i].id))))
  }

  /** New nodes with pairwise distinct ids, none in the store and none the parent's. */
  predicate FreshBatch(ns: seq<Node>, newNodes: seq<Node>, parentId: string) {
    (forall k :: 0 <= k < |newNodes| ==> !HasId(ns, newNodes[k].id) && newNodes[k].id != parentId)
    && forall i, j :: 0 <= i < j < |newNodes| ==> newNodes[i].id != newNodes[j].id
  }

  predicate NotAmong(id: string, newNodes: seq<Node>, k: int)
    requires 0 <= k <= |newNodes|
  {
    forall j :: 0 <= j < k ==> newNodes[j].id != id
  }

  /**
   * The first `k` new nodes are in the store (up to their child lists), the
   * store grew by `k`, and every other lookup but the parent's is unchanged.
   */
  ghost predicate BatchAdded(ns0: seq<Node>, ns: seq<Node>, newNodes: seq<Node>, k: int, parentId: string)
    requires 0 <= k <= |newNodes|
  {
    |ns| == |ns0| + k
    && (forall j :: 0 <= j < k ==> GetNode(ns, newNodes[j].id).Some? && NodeSameButChildren(newNodes[j], GetNode(ns, newNodes[j].id).value))
    && (forall id :: id != parentId && NotAmong(id, newNodes, k) ==> LookupKept(ns0, ns, id))
  }

  lemma BatchStep(ns0: seq<Node>, before: seq<Node>, after: seq<Node>, newNodes: seq<Node>, k: int, parentId: string)
    requires 0 <= k < |newNodes| && FreshBatch(ns0, newNodes, parentId) && BatchAdded(ns0, before, newNodes, k, parentId)
    requires !HasId(before, newNodes[k].id) ==> (|after| == |before| + 1
      && GetNode(after, newNodes[k].id).Some? && NodeSameButChildren(newNodes[k], GetNode(after, newNodes[k].id).value))
    requires forall id :: id != newNodes[k].id ==> LookupKept(before, after, id)
    ensures BatchAdded(ns0, after, newNodes, k + 1, parentId)
    ensures LookupKept(ns0, before, parentId) ==> LookupKept(ns0, after, parentId)
  {
    var n := newNodes[k];
    assert NotAmong(n.id, newNodes, k);
    assert LookupKept(ns0, before, n.id);
    forall j | 0 <= j < k
      ensures GetNode(after, newNodes[j].id).Some? && NodeSameButChildren(newNodes[j], GetNode(after, newNodes[j].id).value)
    {
      assert LookupKept(before, after, newNodes[j].id);
    }
    forall id | id != parentId && NotAmong(id, newNodes, k + 1)
      ensures LookupKept(ns0, after, id)
    {
      assert NotAmong(id, newNodes, k);
      LookupKeptTrans(ns0, before, after, id);
    }
    if LookupKept(ns0, before, parentId) {
      LookupKeptTrans(ns0, before, after, parentId);
    }
  }

  lemma BatchFinish(ns0: seq<Node>, before: seq<Node>, after: seq<Node>, newNodes: seq<Node>, parent: Node)
    requires FreshBatch(ns0, newNodes, parent.id) && BatchAdded(ns0, before, newNodes, |newNodes|, parent.id)
    requires LookupKept(ns0, before, parent.id)
    requires |after| == |before|
    requires forall id :: GetNode(after, id) == if id == parent.id && HasId(before, parent.id) then Some(parent) else GetNode(before, id)
    ensures BatchAdded(ns0, after, newNodes, |newNodes|, parent.id)
    ensures HasId(ns0, parent.id) ==> GetNode(after, parent.id) == Some(parent)
  {
    forall id | id != parent.id && NotAmong(id, newNodes, |newNodes|)
      ensures LookupKept(ns0, after, id)
    {
      assert GetNode(after, id) == GetNode(before, id);
    }
  }

  /** `{ ...n, data: { ...n.data, parent: null } }` */
  function Cleared(n: Node): Node {
    n.(data := n.data.(parent := None))
  }

  /**
   * The node list after `updateNode` has cleared the parent of each listed
   * id, in turn: the node found under that id loses its parent, nothing
   * else changes.
   */
  function ParentsCleared(ns: seq<Node>, ids: seq<string>): (r: seq<Node>)
    ensures SameIds(ns, r)
    decreases |ids|
  {
    if ids == [] then ns
    else
      var rest := ParentsCleared(ns, ids[..|ids| - 1]);
      var last := ids[|ids| - 1];
      match GetNode(rest, last)
      case None => rest
      case Some(c) =>
        UpdatedLookup(rest, last, FullPatch(Cleared(c)), last);
        UpdatedNodes(rest, last, FullPatch(Cleared(c)))
  }

  lemma ParentsClearedEmpty(ns: seq<Node>)
    ensures ParentsCleared(ns, []) == ns
  {
  }

  /** A listed id finds its old node without a parent; any other id finds its old node. */
  lemma {:induction false} ParentsClearedLookup(ns: seq<Node>, ids: seq<string>, id: string)
    ensures GetNode(ParentsCleared(ns, ids), id) ==
      if id in ids && GetNode(ns, id).Some? then Some(Cleared(GetNode(ns, id).value)) else GetNode(ns, id)
    decreases |ids|
  {
    if ids != [] {
      var init := ids[..|ids| - 1];
      var last := ids[|ids| - 1];
      assert ids == init + [last];
      var rest := ParentsCleared(ns, init);
      ParentsClearedLookup(ns, init, id);
      ParentsClearedLookup(ns, init, last);
      if GetNode(rest, last).Some? {
        UpdatedLookup(rest, last, FullPatch(Cleared(GetNode(rest, last).value)), id);
      }
    }
  }

  /** One iteration of the detaching `forEach`: clearing the next listed child extends the cleared prefix. */
  lemma ClearStep(ns: seq<Node>, ids: seq<string>, k: int)
    requires 0 <= k < |ids|
    ensures var cur := ParentsCleared(ns, ids[..k]);
      (GetNode(cur, ids[k]).None? ==> ParentsCleared(ns, ids[..k + 1]) == cur)
      && (GetNode(cur, ids[k]).Some? ==>
            UpdatedNodes(cur, ids[k], FullPatch(Cleared(GetNode(cur, ids[k]).value))) == ParentsCleared(ns, ids[..k + 1]))
  {
    assert ids[..k + 1][..k] == ids[..k];
  }

  /**
   * Detaching `h` from parent `p`, which keeps `kept`: the parent is found
   * with its new list, each listed child without its parent, and every
   * other id as before.
   */
  lemma DetachedLookup(ns: seq<Node>, p: Node, kept: seq<string>, h: seq<string>, id: string)
    requires GetNode(ns, p.id) == Some(p)
    ensures var q := p.(data := p.data.(children := Some(kept)));
      var found := if id == p.id then Some(q) else GetNode(ns, id);
      GetNode(ParentsCleared(UpdatedNodes(ns, p.id, FullPatch(q)), h), id) ==
        if id in h && found.Some? then Some(Cleared(found.value)) else found
  {
    var q := p.(data := p.data.(children := Some(kept)));
    UpdatedLookup(ns, p.id, FullPatch(q), id);
    ParentsClearedLookup(UpdatedNodes(ns, p.id, FullPatch(q)), h, id);
  }

  /** After evicting `occ` from parent `p`: the parent no longer lists it, and it has no parent. */
  lemma EvictedLookups(ns: seq<Node>, p: Node, occ: string)
    requires GetNode(ns, p.id) == Some(p) && GetNode(ns, occ).Some?
    ensures var r := ParentsCleared(UpdatedNodes(ns, p.id, FullPatch(p.(data := p.data.(children := Some(Without(ChildrenOf(p), occ)))))), [occ]);
      GetNode(r, p.id).Some? && occ !in ChildrenOf(GetNode(r, p.id).value)
      && GetNode(r, occ).Some? && GetNode(r, occ).value.data.parent.None?
      && (occ != p.id ==>
            GetNode(r, p.id) == Some(p.(data := p.data.(children := Some(Without(ChildrenOf(p), occ)))))
            && GetNode(r, occ) == Some(Cleared(GetNode(ns, occ).value)))
  {
    var kept := Without(ChildrenOf(p), occ);
    DetachedLookup(ns, p, kept, [occ], p.id);
    DetachedLookup(ns, p, kept, [occ], occ);
  }

  /** Evicting `occ` from parent `p` leaves every other node as it was. */
  lemma EvictedOthers(ns: seq<Node>, p: Node, occ: string)
    requires GetNode(ns, p.id) == Some(p)
    ensures var r := ParentsCleared(UpdatedNodes(ns, p.id, FullPatch(p.(data := p.data.(children := Some(Without(ChildrenOf(p), occ)))))), [occ]);
      forall id :: id != p.id && id != occ ==> GetNode(r, id) == GetNode(ns, id)
  {
    var kept := Without(ChildrenOf(p), occ);
    forall id | id != p.id && id != occ
      ensures GetNode(ParentsCleared(UpdatedNodes(ns, p.id, FullPatch(p.(data := p.data.(children := Some(kept))))), [occ]), id) == GetNode(ns, id)
    {
      DetachedLookup(ns, p, kept, [occ], id);
    }
  }

  /**
   * The children a new node takes from its parent: the occupant of its
   * branch when it hangs from a branch handle, every child when it does
   * not; none for an unknown or childless parent, a free branch, or an
   * occupant whose id is `""` (falsy, so the source skips it).
   */
  function Handed(ns: seq<Node>, parentId: Option<string>, handleId: Option<string>): (r: seq<string>)
    ensures r != [] ==> ParentLookup(ns, parentId).Some? && forall c :: c in r ==> c in ChildrenOf(ParentLookup(ns, parentId).value)
  {
    match ParentLookup(ns, parentId)
    case None => []
    case Some(p) =>
      if |ChildrenOf(p)| == 0 then []
      else if handleId == Some(LeftHandle) || handleId == Some(RightHandle) then
        match FirstInPath(ns, ChildrenOf(p), handleId == Some(RightHandle))
        case Some(occupant) => if occupant != "" then [occupant] else []
        case None => []
      else ChildrenOf(p)
  }

  /**
   * The node list once the new node has claimed its slot: the parent keeps
   * in `children` only what it does not hand over (nothing, without a
   * branch handle), and each handed-over child loses its parent.
   */
  function Claimed(ns: seq<Node>, parentId: Option<string>, handleId: Option<string>): (r: seq<Node>)
    ensures SameIds(ns, r)
  {
    var h := Handed(ns, parentId, handleId);
    if h == [] then ns
    else
      var p := ParentLookup(ns, parentId).value;
      var kept := if handleId == Some(LeftHandle) || handleId == Some(RightHandle) then Without(ChildrenOf(p), h[0]) else [];
      var patch := FullPatch(p.(data := p.data.(children := Some(kept))));
      UpdatedLookup(ns, p.id, patch, p.id);
      ParentsCleared(UpdatedNodes(ns, p.id, patch), h)
  }

  /** Claiming through a branch handle hands over the branch's occupant, if it has one and its id is not empty. */
  lemma ClaimedBranch(ns: seq<Node>, parentId: Option<string>, handleId: Option<string>, p: Node, occupant: Option<string>)
    requires ParentLookup(ns, parentId) == Some(p) && |ChildrenOf(p)| > 0
    requires handleId == Some(LeftHandle) || handleId == Some(RightHandle)
    requires occupant == FirstInPath(ns, ChildrenOf(p), handleId == Some(RightHandle))
    ensures !Truthy(occupant) ==> Handed(ns, parentId, handleId) == [] && Claimed(ns, parentId, handleId) == ns
    ensures Truthy(occupant) ==> Handed(ns, parentId, handleId) == [occupant.value]
    ensures Truthy(occupant) ==>
      Claimed(ns, parentId, handleId) ==
        ParentsCleared(UpdatedNodes(ns, p.id, FullPatch(p.(data := p.data.(children := Some(Without(ChildrenOf(p), occupant.value)))))), [occupant.value])
  {
  }

  /** A parent without children hands nothing over. */
  lemma ClaimedNothing(ns: seq<Node>, parentId: Option<string>, handleId: Option<string>, p: Node)
    requires ParentLookup(ns, parentId) == Some(p) && |ChildrenOf(p)| == 0
    ensures Handed(ns, parentId, handleId) == [] && Claimed(ns, parentId, handleId) == ns
  {
  }

  /** Claiming without a branch handle hands over every child and leaves the parent none. */
  lemma ClaimedAll(ns: seq<Node>, parentId: Option<string>, handleId: Option<string>, p: Node)
    requires ParentLookup(ns, parentId) == Some(p) && |ChildrenOf(p)| > 0
    requires handleId != Some(LeftHandle) && handleId != Some(RightHandle)
    ensures Handed(ns, parentId, handleId) == ChildrenOf(p)
    ensures Claimed(ns, parentId, handleId) ==
      ParentsCleared(UpdatedNodes(ns, p.id, FullPatch(p.(data := p.data.(children := Some([]))))), ChildrenOf(p))
  {
  }

  /**
   * Claiming a slot touches only the parent and the handed-over children:
   * each handed-over child differs only in having no parent, every other
   * id finds its old node, and without anything handed over nothing changes.
   */
  lemma ClaimedLookup(ns: seq<Node>, parentId: Option<string>, handleId: Option<string>, id: string)
    ensures Handed(ns, parentId, handleId) == [] ==> Claimed(ns, parentId, handleId) == ns
    ensures Handed(ns, parentId, handleId) != [] && id != ParentLookup(ns, parentId).value.id ==>
      GetNode(Claimed(ns, parentId, handleId), id) ==
        if id in Handed(ns, parentId, handleId) && GetNode(ns, id).Some? then Some(Cleared(GetNode(ns, id).value)) else GetNode(ns, id)
  {
    var h := Handed(ns, parentId, handleId);
    if h != [] {
      var p := ParentLookup(ns, parentId).value;
      var kept := if handleId == Some(LeftHandle) || handleId == Some(RightHandle) then Without(ChildrenOf(p), h[0]) else [];
      var patch := FullPatch(p.(data := p.data.(children := Some(kept))));
      UpdatedLookup(ns, p.id, patch, id);
      ParentsClearedLookup(UpdatedNodes(ns, p.id, patch), h, id);
    }
  }

  /**
   * The parent (unless it lists itself) keeps every field but `children`,
   * and its new `children` are exactly its old ones that were not handed
   * over; the handed-over children are its own, and on a branch handle
   * the one handed over is the first child on that branch.
   */
  lemma ClaimedParent(ns: seq<Node>, parentId: Option<string>, handleId: Option<string>)
    requires Handed(ns, parentId, handleId) != []
    ensures var p := ParentLookup(ns, parentId).value;
      var h := Handed(ns, parentId, handleId);
      (forall c :: c in h ==> c in ChildrenOf(p))
      && ((handleId == Some(LeftHandle) || handleId == Some(RightHandle)) ==>
            h == [FirstInPath(ns, ChildrenOf(p), handleId == Some(RightHandle)).value])
      && (p.id !in h ==>
            var q := GetNode(Claimed(ns, parentId, handleId), p.id);
            q.Some? && NodeSameButChildren(p, q.value)
            && (forall c :: c in ChildrenOf(q.value) <==> c in ChildrenOf(p) && c !in h))
  {
    var p := ParentLookup(ns, parentId).value;
    var h := Handed(ns, parentId, handleId);
    var isBranch := handleId == Some(LeftHandle) || handleId == Some(RightHandle);
    var kept := if isBranch then Without(ChildrenOf(p), h[0]) else [];
    var patch := FullPatch(p.(data := p.data.(children := Some(kept))));
    assert GetNode(ns, p.id) == Some(p);
    if isBranch {
      ClaimedBranch(ns, parentId, handleId, p, FirstInPath(ns, ChildrenOf(p), handleId == Some(RightHandle)));
    } else {
      ClaimedAll(ns, parentId, handleId, p);
    }
    if p.id !in h {
      UpdatedLookup(ns, p.id, patch, p.id);
      ParentsClearedLookup(UpdatedNodes(ns, p.id, patch), h, p.id);
      assert GetNode(Claimed(ns, parentId, handleId), p.id) == Some(p.(data := p.data.(children := Some(kept))));
      assert ChildrenOf(p.(data := p.data.(children := Some(kept)))) == kept;
      forall c
        ensures c in kept <==> c in ChildrenOf(p) && c !in h
      {
        if isBranch {
          assert h == [h[0]];
        }
      }
    }
  }
}
