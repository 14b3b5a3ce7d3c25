# Decision-flow editor and evaluator — a Dafny model

This project models the core of a decision-flow application. A flow is a tree of
Start, Conditional and End nodes: a Start node declares inputs, a Conditional
node holds a boolean expression and has a false branch and a true branch, and an
End node holds the response the flow answers with.

Modelled parts:

- **The client's graph store** (`client/src/stores/flow.ts`). It is a class
  `FlowStore.FlowStore` whose `nodes` and `edges` sequences the methods reassign,
  as the store mutates its arrays. Each method is proved against a specification
  function (`Placed`, `WithChild`, `WithoutChild`, `EdgesWithout`,
  `UpdatedNodes`, `AddNodeResult`, `Derive`). These cover:
  - the idempotent insert after the parent;
  - the shallow merge;
  - the idempotent edge and child-list derivation;
  - the one-edge-per-handle rule;
  - the non-cascading removal;
  - the rebuild of all parent edges.
- **Node placement** (`findFreePosition` and `checkCollision` in
  `client/src/composable/useNodeCreation.ts`). The collision test is the
  recursive function `Placement.CheckCollision`. The bounded probe is written as
  loop methods (`ProbeRow`, `ProbeRows`, `FindFreePosition`), proved equal to the
  recursive function `Placement.FreePosition`, which is characterised by lemmas.
- **Node creation** (the rest of `useNodeCreation.ts`). This covers:
  - the wizard steps;
  - End-node generation;
  - `hasEndNodeInPath`;
  - `handleCreateNode`, with slot eviction, detaching, re-placing the subtree,
    insertion, linking and auto-completion of the missing branches.

  The slot claim and the subtree move are specified by the functions `Claimed`
  and `Descend`, which the methods reach exactly.

  It is modelled as a class `NodeCreation.NodeCreation` over a shared `FlowStore`.
- **Persistence mapping** (`client/src/utils/flowFormatters.ts`). This is the
  flat schema record ↔ canvas node mapping, with its round trip.
- **Editor predicates** (`useConditionalHandles.ts`, `useNodeActions.ts`) and the
  tutorial selector normaliser (`useTutorial.ts`).
- **The server's concrete expression semantics**
  (`server/src/app/evaluators/transformers/concrete_transfomer.py`). Python values
  are a datatype `PyValues.Value`, and each visitor method is a function returning
  a value or a Python exception. These include:
  - 1-based indexing;
  - short-circuit connectives;
  - None-propagating arithmetic;
  - comparisons;
  - the string and list built-ins;
  - `coalesce`;
  - nested name lookup.
- **The server's flow walker**
  (`server/src/app/evaluators/executors/concrete_executor.py`). It is a class
  `ConcreteExecutor.Executor` whose `Execute` loop is proved against the recursive
  walk `ConcreteExecutor.Walk`. Expression evaluation is a parameter
  `eval: string -> bool`.

Choices made:

- **Layout constants.** The node size, safety margin and spacings come from a
  file not part of this model, so they are a record of positive integers
  (`Placement.Layout`).
- **Generated values.** The generated uuids and the viewport centre
  (`window.innerWidth / 2`) are parameters of the methods that use them.
- **Truthiness.** JavaScript truthiness is modelled at these places:
  - `!parentId` and `handleId && parentId` treat the empty string as absent;
  - `if (existingChildInPath)` skips a branch occupant whose id is the empty
    string;
  - falsy End responses are `0`, `''`, `null` and `false`.
- **Python's bool is an int.** It counts as an int in arithmetic, in `count`
  and in indexing, as it does in Python.
- **Numbers are integers.** Positions and numbers are unbounded integers.

## Model

| member | source | states |
|---|---|---|
| FlowModel.NodeIndex | client/src/stores/flow.ts:75 | the index `findIndex` returns: the first node with the id, or -1 exactly when no node has it |
| FlowModel.GetNode | client/src/stores/flow.ts:35-37 | `getNodeById` is absent exactly when no node has the id, and otherwise is a node of the list carrying that id |
| FlowModel.EdgeIndex | client/src/stores/flow.ts:39-41 | the first edge with the id, or -1 exactly when there is none (`getEdgeById`) |
| FlowModel.LastNodes | client/src/stores/flow.ts:98-100 | `getLastNodes` keeps exactly the nodes whose `children` field is absent (an empty list counts as present), each as often as it occurs, and drops every other node |
| FlowModel.LastNodesAppend | client/src/stores/flow.ts:98-100 | the filter keeps store order: the last nodes of `a + b` are those of `a` followed by those of `b` |
| FlowModel.Without | client/src/stores/flow.ts:157-159 | filtering a child id out removes every occurrence and keeps every other entry with its multiplicity |
| FlowModel.NodeIndexSameIds | client/src/stores/flow.ts:74-79 | two node lists with the same ids in the same order give the same lookup index, so rewriting a node in place never moves another |
| FlowStore.Placed | client/src/stores/flow.ts:50-63 | the list grows by one; the new node sits right after its parent, or at the end without a known parent; deleting it gives back the old list |
| FlowStore.GetNodeAfterInsert | client/src/stores/flow.ts:58 | a splice insertion of a node leaves the lookup of every other id unchanged |
| FlowStore.PlacedIsFound | client/src/stores/flow.ts:50-63 | after placement the new node is found by its id |
| FlowStore.PlacedLookup | client/src/stores/flow.ts:43-63 | after placement the new id finds the new node and every other lookup is unchanged |
| FlowStore.AppendLookup | client/src/stores/flow.ts:50-52 | appending a fresh node keeps every other lookup and finds the new one |
| FlowStore.WithChild | client/src/stores/flow.ts:110-120 | the child derivation of `addEdges` changes only the parent, and only its `children` |
| FlowStore.WithChildListsOnce | client/src/stores/flow.ts:112-113 | after `addEdges` the parent lists the target, and never twice because of it |
| FlowStore.WithChildIdempotent | client/src/stores/flow.ts:106-123 | deriving the same link twice changes nothing the second time |
| FlowStore.WithChildLookup | client/src/stores/flow.ts:110-120 | every lookup except the parent's is unchanged by the child derivation |
| FlowStore.WithoutChild | client/src/stores/flow.ts:155-166 | `removeNode` drops the child from its parent's list, and changes nothing else of that parent and no other node |
| FlowStore.RemoveAt | client/src/stores/flow.ts:168 | `splice(i, 1)`: one element fewer, the ones before kept and the ones after shifted down by one |
| FlowStore.EdgesWithout | client/src/stores/flow.ts:169 | the remaining edges are exactly those that neither start nor end at the removed node, each kept as often as it occurred, and every other edge is gone |
| FlowStore.EdgesWithoutAppend | client/src/stores/flow.ts:169 | the filter keeps edge order: filtering `a + b` filters `a` and then `b` |
| FlowStore.UpdatedLookup | client/src/stores/flow.ts:74-79 | `updateNode` keeps every id in its place; the updated id finds the shallow merge and every other lookup is unchanged; an unknown id changes nothing |
| FlowStore.LinkChild | client/src/stores/flow.ts:110-120 | the `updateNode` call that `addEdges` makes is exactly the child derivation |
| FlowStore.SameButChildrenDerived | client/src/stores/flow.ts:86-96 | the edges derived from the nodes do not depend on their `children` lists |
| FlowStore.EdgeFoundInExtension | client/src/stores/flow.ts:106-123 | an edge found before an append-only change is still found after it |
| FlowStore.DeriveCovers | client/src/stores/flow.ts:86-96 | the derivation of `setEdges` changes nodes only in `children`, keeps the old edges in front, and leaves every item that names a parent with its edge `parent-id` |
| FlowStore.DeriveIdle | client/src/stores/flow.ts:86-96 | when every item naming a parent already has its edge, the derivation changes neither nodes nor edges |
| FlowStore.DeriveTwice | client/src/stores/flow.ts:86-96 | `setEdges` is idempotent: deriving the same items a second time changes nothing |
| FlowStore.FlowStore.constructor | client/src/stores/flow.ts:5-33 | the store starts with the given nodes and edges |
| FlowStore.FlowStore.UpdateNode | client/src/stores/flow.ts:74-79 | the nodes become the shallow merge at the id's index (an override `data` replaces all of `data`); the edges are untouched |
| FlowStore.FlowStore.AddEdges | client/src/stores/flow.ts:106-123 | a known edge id changes nothing; otherwise the edge is appended and the parent gains the target as a child; edge ids stay unique; nodes change only in `children` |
| FlowStore.FlowStore.AddEdgeWithHandle | client/src/stores/flow.ts:125-149 | refuses an edge whose id exists or whose source handle is taken; otherwise appends it and links the child; afterwards the handle is taken and edge ids stay unique |
| FlowStore.FlowStore.AddNodes | client/src/stores/flow.ts:43-72 | the new store is `AddNodeResult`: a known id changes nothing; a node without a parent is appended; with a parent it is placed after it and, unless skipped or already present, its edge `parent-id` is appended and the parent lists it; no other lookup changes |
| FlowStore.FlowStore.InsertUnderParent | client/src/stores/flow.ts:55-71 | a new node naming a parent is placed after it (or at the end), its edge `parent-id` is appended and the parent lists it unless skipped or present; no other lookup changes |
| FlowStore.FlowStore.SetEdges | client/src/stores/flow.ts:86-96 | the new nodes and edges are exactly the derivation over the old nodes in store order; hence every parent reference has its edge, edges are only added, nodes change only in `children`, and an already derived store is unchanged |
| FlowStore.FlowStore.SetNodes | client/src/stores/flow.ts:81-84 | the nodes are replaced and the new store is exactly the derivation over the given nodes with the old edges; every parent edge is derived |
| FlowStore.FlowStore.RemoveNode | client/src/stores/flow.ts:151-170 | an unknown node changes nothing; otherwise exactly one node goes, its parent no longer lists it, no other node changes, and no edge touches it |
| Placement.OverlapsIffNear | client/src/composable/useNodeCreation.ts:76-90 | the four-sided rectangle test with margins is the same as both centre distances being strictly below size plus two margins; touching rectangles do not collide |
| Placement.CheckCollisionIff | client/src/composable/useNodeCreation.ts:72-92 | `checkCollision` is true exactly when some node other than the excluded one is near the point |
| Placement.Offsets | client/src/composable/useNodeCreation.ts:105-106 | the horizontal offsets are tried in the order 0, +m, -m, +2m, -2m |
| Placement.FirstFree | client/src/composable/useNodeCreation.ts:107-114 | the chosen offset is free and every earlier offset in the order collides; none exactly when all collide |
| Placement.ScanRows | client/src/composable/useNodeCreation.ts:121-129 | the chosen row is in range with a free offset, and every earlier row is fully blocked; none exactly when all rows are blocked |
| Placement.Search | client/src/composable/useNodeCreation.ts:94-144 | the four outcomes of the probe: preferred point free, same-row offset, lower row within budget at the first free offset of that row, or budget exhausted |
| Placement.FreePositionOnPreferredRow | client/src/composable/useNodeCreation.ts:101-114 | a result on the preferred row is the preferred point shifted by the first free offset; the preferred point comes back unchanged when free or when the budget is exhausted |
| Placement.FreePositionLowerRow | client/src/composable/useNodeCreation.ts:118-142 | a lower-row result is `i` steps down with `1 <= i <= maxVerticalAttempts` (+60 when it must resolve), and is 20 left of a point checked free |
| Placement.ProbeRow | client/src/composable/useNodeCreation.ts:123-128 | the inner offset loop finds the first free offset of a row |
| Placement.ProbeRows | client/src/composable/useNodeCreation.ts:121-129 | the row loop finds the first row with a free offset |
| Placement.FindFreePosition | client/src/composable/useNodeCreation.ts:94-144 | the loop method returns exactly `FreePosition` |
| PlacementExample.ShiftedPointMayCollide | client/src/composable/useNodeCreation.ts:126 | the point returned from a lower row, shifted 20 to the left, can itself collide with a node |
| NodeCreation.FirstInPath | client/src/composable/useNodeCreation.ts:287-290 | the first listed child that exists and has the branch's `isFalseCase`, none exactly when there is none |
| NodeCreation.HasEndNodeInPath | client/src/composable/useNodeCreation.ts:40-59 | under a conditional it is true exactly when some child has the branch's `isFalseCase`; under any other parent exactly when `children` is non-empty; false without a parent |
| NodeCreation.EndPreferred | client/src/composable/useNodeCreation.ts:210-219 | below a conditional the End node goes one horizontal spacing right when isFalseCase is true and left when it is false, one vertical spacing down; otherwise straight down |
| NodeCreation.CreateEndNode | client/src/composable/useNodeCreation.ts:196-230 | the End node has the given id, the parent, the branch flag, the response equal to the flag, and the searched position |
| NodeCreation.CreateConditionalEndNodes | client/src/composable/useNodeCreation.ts:232-246 | two End nodes, the false branch first and the true branch second, both under the parent |
| NodeCreation.CreateMissingConditionalEndNode | client/src/composable/useNodeCreation.ts:248-256 | one End node on the branch opposite the existing child's (`!isFalseCase`) |
| NodeCreation.ConditionalBranchesCovered | client/src/composable/useNodeCreation.ts:433-469 | a conditional with no child gets a false and a true End node; with one child it gets the opposite branch; a fresh Start gets one End node |
| NodeCreation.PlannedEndsOnlyWhenMissing | client/src/composable/useNodeCreation.ts:433-435 | End nodes are generated only for a Start or a Conditional, and only with fewer than two children |
| NodeCreation.RepositionedLookup | client/src/composable/useNodeCreation.ts:404-411 | re-placing descendants keeps every node at its index, and below level 0 keeps every node's parent |
| NodeCreation.DescendRepositions | client/src/composable/useNodeCreation.ts:385-423 | the descent changes only positions and parents, and a parent only at level 0, to the new node, for one of the listed children |
| NodeCreation.DescendReparents | client/src/composable/useNodeCreation.ts:404-411 | at level 0 every listed child that exists ends with the new node as its parent |
| NodeCreation.DescendConfined | client/src/composable/useNodeCreation.ts:385-423 | a node outside the subtree the descent reaches keeps its lookup exactly |
| NodeCreation.MoveChildPlaces | client/src/composable/useNodeCreation.ts:392-411 | a moved child gets the free position searched one vertical spacing below the base, left of it unless its `isFalseCase` is true, with the child itself excluded from the collision test |
| NodeCreation.ParentsClearedLookup | client/src/composable/useNodeCreation.ts:327-338 | clearing the parents of a list of ids changes exactly the listed nodes that exist, each only in its `parent`, which becomes null |
| NodeCreation.ClaimedLookup | client/src/composable/useNodeCreation.ts:285-339 | claiming a slot hands over nothing and changes nothing without a parent, children or branch occupant, or when the occupant's id is the falsy `""`; otherwise every handed-over child only loses its parent and every other node but the parent is unchanged |
| NodeCreation.ClaimedParent | client/src/composable/useNodeCreation.ts:285-339 | the handed-over children are children of the parent, the branch case hands over exactly the first branch occupant unless its id is the falsy `""`, and the parent keeps every field but `children`, which hold exactly its old children not handed over |
| NodeCreation.ClaimedBranch | client/src/composable/useNodeCreation.ts:285-308 | on a branch handle the claim hands over exactly the first child on that branch when its id is truthy; when there is none or its id is the falsy `""`, nothing is handed over and the nodes are unchanged |
| NodeCreation.HandlesMatchEndSides | client/src/composable/useNodeCreation.ts:349-359 | the left handle means `isFalseCase = false` and the right handle `isFalseCase = true`, the same sides `createEndNode` uses |
| NodeCreation.NodeCreation.constructor | client/src/composable/useNodeCreation.ts:19-38 | the wizard starts at the choose-node step with no kind and the initial node data |
| NodeCreation.NodeCreation.SelectNodeType | client/src/composable/useNodeCreation.ts:151-177 | selecting a kind records it, moves to the title step, and sets the default title and the kind's settings |
| NodeCreation.NodeCreation.Previous | client/src/composable/useNodeCreation.ts:180-183 | the step goes back by one, never below the first step |
| NodeCreation.NodeCreation.GoTo | client/src/composable/useNodeCreation.ts:184-193 | the step moves to the target, except to the title step while no kind is selected |
| NodeCreation.NodeCreation.EvictOccupant | client/src/composable/useNodeCreation.ts:285-316 | the occupant is the first child on the handle's branch; the parent becomes the parent without it and then the occupant loses its parent, and no other node or edge changes; without an occupant, or when the occupant's id is the falsy `""`, nothing changes |
| NodeCreation.NodeCreation.DetachAll | client/src/composable/useNodeCreation.ts:317-339 | the parent's `children` become empty and then each former child, in list order, loses its parent; edges are untouched |
| NodeCreation.NodeCreation.UpdateDescendantPositions | client/src/composable/useNodeCreation.ts:385-423 | the nodes become exactly `Descend` of the old nodes: each listed child in turn is moved to the free position searched below the base on its branch's side, re-parented to the new node at level 0 only, and its own children follow one level down; edges are untouched |
| NodeCreation.NodeCreation.PlaceChild | client/src/composable/useNodeCreation.ts:392-420 | one round of the `forEach`: the nodes become exactly `MoveChild` of the old nodes for that child |
| NodeCreation.NodeCreation.AddNodesToFlow | client/src/composable/useNodeCreation.ts:258-264 | fresh End nodes are added under the parent, which afterwards lists them; edges are only added |
| NodeCreation.NodeCreation.AddEach | client/src/composable/useNodeCreation.ts:262 | `addNodes` for each new node in turn: every fresh node ends up in the store, edges are only added, and the parent's lookup is unchanged |
| NodeCreation.NodeCreation.CompleteBranches | client/src/composable/useNodeCreation.ts:453-469 | the planned End nodes are added at their ids with their branch flags |
| NodeCreation.NodeCreation.TakeOverChildren | client/src/composable/useNodeCreation.ts:282-340 | the nodes become exactly `Claimed` of the old nodes (the handed-over children detached from the parent), edges are untouched, and the new node's children are those handed over: the branch occupant (unless its id is the falsy `""`), or all former children when no branch is named |
| NodeCreation.NodeCreation.ClaimSlot | client/src/composable/useNodeCreation.ts:274-361 | below an existing parent the nodes become exactly `Claimed` of the old nodes (an occupant with the falsy id `""` stays), the preferred point is the one `InsertionPreference` names, the branch flag is true exactly for the right handle, and the children are the ones taken over |
| NodeCreation.NodeCreation.PrepareInsertion | client/src/composable/useNodeCreation.ts:268-383 | the nodes become exactly `Claimed` of the old nodes (unchanged without a parent; an occupant with the falsy id `""` stays); the new node gets the kind, the title, the parent, the branch flag, the taken children and the free position near the preferred point |
| NodeCreation.NodeCreation.HandleCreateNode | client/src/composable/useNodeCreation.ts:266-473 | a no-op without a kind or with a blank title; otherwise the new node is in the store with its kind, title, parent and branch flag, the End nodes it lacks are generated, and all edges are derived |
| NodeCreation.NodeCreation.InsertAndLink | client/src/composable/useNodeCreation.ts:437-451 | the store becomes `AddNodeResult` of the new node; when it hangs from a handle of a parent, the edge `parent-id-handle` is then appended and the parent lists the node exactly when that handle is still free and the edge id is new; a handle already taken before the call adds no edge |
| NodeCreation.NodeCreation.FinishBranches | client/src/composable/useNodeCreation.ts:453-471 | the planned End nodes are added and then every parent edge is derived |
| FlowFormatters.SchemaSettings | client/src/utils/flowFormatters.ts:40-56 | the settings hold only the kind's field: inputs default to empty, expression to `''`, response copied verbatim |
| FlowFormatters.StoredResponse | client/src/utils/flowFormatters.ts:89 | a falsy End response is stored as `false`, a truthy one unchanged |
| FlowFormatters.FlowMetadata | client/src/utils/flowFormatters.ts:72-92 | the metadata of each kind with its defaults; an unknown kind gets empty metadata |
| FlowFormatters.MapSchemaToFlow | client/src/utils/flowFormatters.ts:22-60 | same length and order; each element is the mapped record |
| FlowFormatters.MapFlowToSchema | client/src/utils/flowFormatters.ts:62-96 | same length and order; each element is the mapped node |
| FlowFormatters.LowerTypes | client/src/utils/flowFormatters.ts:26 | loading lower-cases the schema type |
| FlowFormatters.UpperKinds | client/src/utils/flowFormatters.ts:71 | saving upper-cases the kind |
| FlowFormatters.ToFlowFields | client/src/utils/flowFormatters.ts:24-38 | loading copies id, title, parent, position and branch flag and sets `children` to empty |
| FlowFormatters.RoundTrip | client/src/utils/flowFormatters.ts:22-96 | saving a loaded canonical record gives back the record |
| FlowFormatters.MapRoundTrip | client/src/utils/flowFormatters.ts:22-96 | the same round trip for whole lists |
| FlowFormatters.SavedIsCanonical | client/src/utils/flowFormatters.ts:62-96 | every saved record of a known kind is canonical, so the round trip applies to it |
| FlowFormatters.SaveNormalises | client/src/utils/flowFormatters.ts:82 | saving maps a missing or false branch flag to `false`, and the response and metadata to their defaults |
| ConditionalHandles.SomeEdgeFrom | client/src/composable/useConditionalHandles.ts:19 | true exactly when some edge leaves the node through the handle |
| ConditionalHandles.CheckHandleConnection | client/src/composable/useConditionalHandles.ts:17-20 | false without an id or for a non-conditional node; otherwise true exactly when an edge uses that source and handle |
| ConditionalHandles.HandleFlags | client/src/composable/useConditionalHandles.ts:9-25 | can-add is exactly conditional and not connected; a path flag and its connection flag are never both true; for non-conditionals all four are false |
| ConditionalHandles.HandleEdgeClosesPath | client/src/composable/useConditionalHandles.ts:17-25 | once an edge uses a handle, that path can no longer be added to |
| ConditionalHandles.ExtendKeepsHandles | client/src/composable/useConditionalHandles.ts:17-20 | adding edges never frees a connected handle |
| NodeActions.SomeWithId | client/src/composable/useNodeActions.ts:15 | true exactly when some listed node has the id |
| NodeActions.CanAddNewNodeIff | client/src/composable/useNodeActions.ts:10-25 | true exactly for an id (non-empty) such that some node with that id has no `children` field, or whose looked-up node is a conditional; false without an id or for an unknown id |
| NodeActions.CanAddNewNodeUnique | client/src/composable/useNodeActions.ts:10-25 | with unique ids: true exactly when the id is known and its node has no `children` field or is a conditional |
| NodeActions.ConditionalAlwaysExtends | client/src/composable/useNodeActions.ts:21-24 | a conditional can get a new child whatever its children |
| Tutorial.Selector | client/src/composable/useTutorial.ts:11 | the selector starts with `#`, and an id already starting with `#` is kept |
| Tutorial.FormatSteps | client/src/composable/useTutorial.ts:9-23 | same length and order as the input steps |
| Tutorial.SelectorIdempotent | client/src/composable/useTutorial.ts:11 | normalising a selector twice is normalising it once |
| Tutorial.FormatStepsSpec | client/src/composable/useTutorial.ts:9-23 | every element starts with `#`; title, description, side and align are copied verbatim |
| PyValues.PyEqRefl | server/src/app/evaluators/transformers/concrete_transfomer.py:220-223 | Python `==` is reflexive on every modelled value |
| PyValues.PyEqSymm | server/src/app/evaluators/transformers/concrete_transfomer.py:220-223 | Python `==` is symmetric |
| PyValues.Contains | server/src/app/evaluators/transformers/concrete_transfomer.py:261-262 | list membership holds exactly when some element is Python-equal |
| PyValues.StrLess | server/src/app/evaluators/transformers/concrete_transfomer.py:228-235 | equal strings compare as `<=` holds and `<` does not |
| PyValues.StrLessDecides | server/src/app/evaluators/transformers/concrete_transfomer.py:228-235 | string order is lexicographic by code point: after a common prefix the first differing character decides, a proper prefix is smaller and a proper extension is not |
| PyValues.LessOutcome | server/src/app/evaluators/transformers/concrete_transfomer.py:228-235 | ordering answers a bool or raises TypeError; numbers with numbers and strings with strings always compare; a None side always raises |
| PyValues.SeqLessOutcome | server/src/app/evaluators/transformers/concrete_transfomer.py:228-235 | list and tuple ordering answers a bool or raises TypeError, nothing else |
| ConcreteTransformer.SliceBound | server/src/app/evaluators/transformers/concrete_transfomer.py:354-364 | a slice bound is clamped into the string, counting negatives from the end |
| ConcreteTransformer.PySlice | server/src/app/evaluators/transformers/concrete_transfomer.py:354-364 | a slice is the window between the clamped bounds, empty when they cross |
| ConcreteTransformer.StringLiteral | server/src/app/evaluators/transformers/concrete_transfomer.py:32-33 | the literal without its surrounding quotes |
| ConcreteTransformer.Pair | server/src/app/evaluators/transformers/concrete_transfomer.py:48-56 | the value is kept; a double-quoted key loses its quotes, any other key is kept |
| ConcreteTransformer.DictOfLookup | server/src/app/evaluators/transformers/concrete_transfomer.py:58-64 | the built dict has exactly the keys of the pairs, each mapped to the value of its last pair |
| ConcreteTransformer.ContextLiteral | server/src/app/evaluators/transformers/concrete_transfomer.py:58-64 | the loop builds exactly the dict of the pairs |
| ConcreteTransformer.Resolve | server/src/app/evaluators/transformers/concrete_transfomer.py:67-88 | a single name is its binding; a missing name is NameError; the only errors are NameError, KeyError and TypeError |
| ConcreteTransformer.WalkErrors | server/src/app/evaluators/transformers/concrete_transfomer.py:75-86 | a key into a non-dict is TypeError, a missing key KeyError |
| ConcreteTransformer.WalkAppend | server/src/app/evaluators/transformers/concrete_transfomer.py:75-80 | following a longer path is following the prefix, then the rest |
| ConcreteTransformer.NameAccess | server/src/app/evaluators/transformers/concrete_transfomer.py:67-88 | the loop yields exactly `Resolve` |
| ConcreteTransformer.DoIndex | server/src/app/evaluators/transformers/concrete_transfomer.py:136-156 | yields element `i-1` exactly for a list, tuple or string with `1 <= i <= len`; None or non-numeric index, None or unsupported container and out-of-range index are the listed errors |
| ConcreteTransformer.NameIndex | server/src/app/evaluators/transformers/concrete_transfomer.py:90-125 | the dotted name is resolved, then the index applied, stopping at the first error |
| ConcreteTransformer.IfExpr | server/src/app/evaluators/transformers/concrete_transfomer.py:172-179 | a bool condition picks a branch; any other condition raises TypeError |
| ConcreteTransformer.Connectives | server/src/app/evaluators/transformers/concrete_transfomer.py:181-214 | `or` yields True on True without inspecting the right side and `and` False on False; otherwise a bool right side is the result and a non-bool raises; `not` negates bools and raises otherwise |
| ConcreteTransformer.DoIn | server/src/app/evaluators/transformers/concrete_transfomer.py:251-265 | `in` needs a string left side in a string, uses `==` in a list or tuple, and raises on None or other containers |
| ConcreteTransformer.Compare | server/src/app/evaluators/transformers/concrete_transfomer.py:217-241 | `==` and `!=` never raise and are Python equality and its negation; every other operator raises TypeError with a None side; an unknown operator raises RuntimeError |
| ConcreteTransformer.CompareEqual | server/src/app/evaluators/transformers/concrete_transfomer.py:217-235 | on two equal numbers, strings, lists or tuples `==`, `<=` and `>=` are True and `<` and `>` are False |
| ConcreteTransformer.LessOfEqual | server/src/app/evaluators/transformers/concrete_transfomer.py:228-235 | no value is strictly less than a value equal to it |
| ConcreteTransformer.Arithmetic | server/src/app/evaluators/transformers/concrete_transfomer.py:268-331 | a None operand gives None; `+` adds numbers and concatenates str+str and list+list; any other mix raises TypeError; `-`, `*` and negation act on numbers only |
| ConcreteTransformer.Length | server/src/app/evaluators/transformers/concrete_transfomer.py:334-341 | None gives None; the length of a string, list or tuple; TypeError otherwise |
| ConcreteTransformer.SubstringWindow | server/src/app/evaluators/transformers/concrete_transfomer.py:343-364 | `substring(s, i, n)` is the window from `i-1` of length `n`, cut at the end; without a length it runs to the end; start 0 yields the last character |
| ConcreteTransformer.UpperB | server/src/app/evaluators/transformers/concrete_transfomer.py:366-374 | None gives None; upper-cases a string; TypeError otherwise |
| ConcreteTransformer.LowerB | server/src/app/evaluators/transformers/concrete_transfomer.py:376-384 | None gives None; lower-cases a string; TypeError otherwise |
| ConcreteTransformer.ContainsB | server/src/app/evaluators/transformers/concrete_transfomer.py:386-402 | a None container gives None; otherwise it is the `in` test of the item in the container |
| ConcreteTransformer.StringTests | server/src/app/evaluators/transformers/concrete_transfomer.py:404-422 | `a+b` starts with `a` and ends with `b`; a prefix is contained; both tests succeed on strings; `is_null` agrees with `coalesce` of one argument |
| ConcreteTransformer.Append | server/src/app/evaluators/transformers/concrete_transfomer.py:425-433 | `append` is `lst + [v]` on a list; None gives None; TypeError otherwise |
| ConcreteTransformer.IndexOfEq | server/src/app/evaluators/transformers/concrete_transfomer.py:443-447 | the first Python-equal position, or -1 exactly when none is equal |
| ConcreteTransformer.RemoveFirst | server/src/app/evaluators/transformers/concrete_transfomer.py:443-449 | an absent value gives the same list; otherwise exactly one element goes: the first Python-equal one, at `IndexOfEq`, with the elements before and after it kept in order |
| ConcreteTransformer.Remove | server/src/app/evaluators/transformers/concrete_transfomer.py:435-449 | `remove` on a list yields a new list without the first Python-equal element (one shorter, the rest kept in order) when the value is present, an equal copy when absent; None gives None; TypeError otherwise |
| ConcreteTransformer.RemoveUndoesAppend | server/src/app/evaluators/transformers/concrete_transfomer.py:425-449 | removing a value just appended to a list that lacks it gives back the list |
| ConcreteTransformer.Count | server/src/app/evaluators/transformers/concrete_transfomer.py:451-458 | never raises: None gives None, strings, lists and tuples give their length, anything else 1 |
| ConcreteTransformer.FirstNonNull | server/src/app/evaluators/transformers/concrete_transfomer.py:464-469 | the first argument that is not None, None exactly when all are |
| ConcreteTransformer.Coalesce | server/src/app/evaluators/transformers/concrete_transfomer.py:464-469 | the loop yields exactly `FirstNonNull` |
| ConcreteTransformer.FuncCall | server/src/app/evaluators/transformers/concrete_transfomer.py:159-169 | an unknown function name raises NameError; `coalesce` yields the first non-None argument; a built-in of one or two parameters given more arguments raises TypeError |
| ConcreteExecutor.First | server/src/app/evaluators/executors/concrete_executor.py:20-23 | `next(...)` is the first node matching the parent and flag, none exactly when no node matches |
| ConcreteExecutor.IndexOf | server/src/app/evaluators/executors/concrete_executor.py:27 | `list.remove` deletes the first equal node; -1 (ValueError) exactly when none is equal |
| ConcreteExecutor.WalkShrinks | server/src/app/evaluators/executors/concrete_executor.py:26-63 | each step removes the current node: the list left is never longer and strictly shorter once the current node was in it, so the loop runs at most its initial length |
| ConcreteExecutor.WalkOnlyRemoves | server/src/app/evaluators/executors/concrete_executor.py:26-27 | the walk only removes nodes: what is left is a sub-multiset of the list |
| ConcreteExecutor.ResponseFromEndNode | server/src/app/evaluators/executors/concrete_executor.py:52-57 | every answer is the response of some End node of the list |
| ConcreteExecutor.ConditionalChoosesBranch | server/src/app/evaluators/executors/concrete_executor.py:33-50 | a conditional without a parent raises AssertionError; otherwise it continues at its first remaining child with `isFalseCase == not result`, and without such a child the flow is invalid |
| ConcreteExecutor.EndAnswers | server/src/app/evaluators/executors/concrete_executor.py:27-57 | the emptiness check precedes the End check: a last End node is an invalid flow; otherwise it answers its response and stops with the node removed |
| ConcreteExecutor.LastNodeBreaks | server/src/app/evaluators/executors/concrete_executor.py:27-30 | removing the only node leaves an empty list, which is an invalid flow whatever the node |
| ConcreteExecutor.StartFallsThrough | server/src/app/evaluators/executors/concrete_executor.py:32-63 | a Start node sets no `next_node`: before any conditional it is unbound (UnboundLocalError), a stale `None` is an invalid flow, and a stale node is where the walk goes on |
| ConcreteExecutor.WalkStep | server/src/app/evaluators/executors/concrete_executor.py:26-63 | one iteration from a node of the list either stops with exactly that node removed (answering only at an End node) or continues over the rest from the node it chose |
| ConcreteExecutor.Executor.constructor | server/src/app/evaluators/executors/concrete_executor.py:10-11 | the executor holds the given nodes |
| ConcreteExecutor.Executor.Execute | server/src/app/evaluators/executors/concrete_executor.py:19-63 | the loop returns the walk's outcome from the first node below the start id (AssertionError without one) and leaves the nodes the walk leaves |

## Left out

- Float literals, the int→float coercions of arithmetic, `div` and `list_literal` are not modelled: numbers are integers, and the shape of a list literal depends on the parser. The number, `true`, `false` and `null` literals are the value constructors themselves.
- The Python parser, the grammar, the tree walk of the evaluator, the Z3 executor and transformer, the services, routers, database, telemetry and authentication are not part of this model.
- ConcreteExecutor.Executor.Execute: `_evaluate` is the parameter `eval`, which returns a bool. An exception raised while evaluating an expression is not modelled, and neither is the truthiness of a non-bool result.
- ConcreteExecutor.IndexOf: `list.remove` compares nodes with pydantic's `==`; the model uses structural equality, so a response `True` and a response `1` count as different here.
- ConcreteTransformer.NameIndex: the `RuntimeError`s raised for a malformed parse tree are not modelled, since the tree shape comes from the parser.
- ConcreteTransformer.Compare: `>` and `>=` are modelled as `<` and `<=` with the operands swapped, which is how Python resolves them for the modelled types.
- Text.Lower, Text.Upper and Text.Trim cover ASCII letters and ASCII whitespace only; Unicode case mapping and Unicode whitespace are not modelled.
- Text.Trim: it removes space, tab, line feed, carriage return, vertical tab and form feed. Python's `str.strip()` in `ConcreteExecutor.Rule` also removes the separators `\x1c`, `\x1d`, `\x1e` and `\x1f`; JavaScript's `trim()` does not, and the same function serves both.
- Positions are integers: fractional pixel positions (from `window.innerWidth / 2` or non-integer layout constants) are not modelled.
- NodeCreation.NodeCreation.UpdateDescendantPositions: the recursion carries a fuel bound equal to the number of nodes. The source recurses without a bound and would loop forever on a cyclic `children` relation, so the model says nothing about that case. The level-0 reparenting is proved only with positive fuel, and that this fuel never cuts an acyclic tree short is not proved.
- ConditionalHandles.CheckHandleConnection: the edges are the parameter `es`. The composable destructures the store's edge array once, when it is created (client/src/composable/useConditionalHandles.ts:8), and `removeNode` replaces that array with a filtered copy (client/src/stores/flow.ts:169), so after a removal the source keeps reading the old array. The model does not tie `es` to the store's current edges; it is exact only for a composable created after the last removal, or when `es` is passed that stale array.
- NodeCreation.NodeCreation.AddNodesToFlow: in the source the inserted node shares its `data` object with the local node the method mutates. The model uses value semantics; the closing `updateNode` replaces `data` wholesale, so the final state agrees.
- NodeCreation.NodeCreation.HandleCreateNode: its own contract states the new node's fields, the generated End nodes without a parent, the derived edges and the no-op case, but not the whole new store as one expression. Its first three steps each state their whole new store: `PrepareInsertion` (`Claimed`), `UpdateDescendantPositions` (`Descend`) and `InsertAndLink` (`AddNodeResult` and the handle edge). The last step, `FinishBranches`, states the End nodes it adds, the kept new node and the derived edges, but not the other nodes' new `children` lists. It requires the taken children list to be present, which the source assumes when it reads `children.length`.
- With a branch handle, `handleCreateNode` derives the parent edge twice: `addNodes` creates `parent-id` and `addEdgeWithHandle` creates `parent-id-handle`. The model keeps both, as the source does.
- The dialog state (`visible`, `reset`, `toggleCreateNodeDialog`, the computed step flags), the demo seed nodes of the store and the driver.js mounting of the tutorial are UI and are not modelled.
- `substring` with start 0 slices from index -1, which Python counts from the end; the model keeps that behaviour.
