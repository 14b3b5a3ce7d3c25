/**
 * Whether a conditional node's left handle (the branch whose nodes carry
 * `isFalseCase` false) and right handle (`isFalseCase` true) are already
 * connected, and whether a node may be added from each of them
 * (client/src/composable/useConditionalHandles.ts).
 */
module ConditionalHandles {
  import opened Wrappers
  import opened FlowModel
  import opened FlowStore

  /** `isConditionalNode`: an absent id is never conditional. */
  predicate IsConditionalNode(ns: seq<Node>, id: Option<string>) {
    Truthy(id) && GetNode(ns, id.value).Some? && GetNode(ns, id.value).value.kind == ConditionalKind
  }

  /** `edges.some(edge => edge.source === source && edge.sourceHandle === handleId)` */
  function SomeEdgeFrom(es: seq<Edge>, source: string, handleId: string): (r: bool)
    ensures r <==> HandleTaken(es, source, Some(handleId))
  {
    if es == [] then false
    else if es[0].source == source && es[0].sourceHandle == Some(handleId) then true
    else
      var r := SomeEdgeFrom(es[1..], source, handleId);
      assert HandleTaken(es[1..], source, Some(handleId)) ==> HandleTaken(es, source, Some(handleId)) by {
        if HandleTaken(es[1..], source, Some(handleId)) {
          var i :| 0 <= i < |es[1..]| && es[1..][i].source == source && es[1..][i].sourceHandle == Some(handleId);
          assert es[i + 1] == es[1..][i];
        }
      }
      r
  }

  /**
   * `checkHandleConnection`. `es` is the edge array the composable captured
   * when it was created, which need not be the store's current one.
   */
  function CheckHandleConnection(ns: seq<Node>, es: seq<Edge>, id: Option<string>, handleId: string): (r: bool)
    ensures r <==> IsConditionalNode(ns, id) && HandleTaken(es, id.value, Some(handleId))
  {
    if !Truthy(id) || !IsConditionalNode(ns, id) then false
    else SomeEdgeFrom(es, id.value, handleId)
  }

  function HasLeftConnection(ns: seq<Node>, es: seq<Edge>, id: Option<string>): bool {
    CheckHandleConnection(ns, es, id, LeftHandle)
  }

  function HasRightConnection(ns: seq<Node>, es: seq<Edge>, id: Option<string>): bool {
    CheckHandleConnection(ns, es, id, RightHandle)
  }

  function CanAddToLeftPath(ns: seq<Node>, es: seq<Edge>, id: Option<string>): bool {
    IsConditionalNode(ns, id) && !HasLeftConnection(ns, es, id)
  }

  function CanAddToRightPath(ns: seq<Node>, es: seq<Edge>, id: Option<string>): bool {
    IsConditionalNode(ns, id) && !HasRightConnection(ns, es, id)
  }

  /**
   * On a conditional node each path can take a new node exactly when no
   * edge leaves its handle; a path flag and its connection flag are never
   * both set; on any other node (or without an id) all four are false.
   */
  lemma HandleFlags(ns: seq<Node>, es: seq<Edge>, id: Option<string>)
    ensures IsConditionalNode(ns, id) ==>
      (CanAddToLeftPath(ns, es, id) <==> !HandleTaken(es, id.value, Some(LeftHandle)))
      && (CanAddToRightPath(ns, es, id) <==> !HandleTaken(es, id.value, Some(RightHandle)))
    ensures !(CanAddToLeftPath(ns, es, id) && HasLeftConnection(ns, es, id))
    ensures !(CanAddToRightPath(ns, es, id) && HasRightConnection(ns, es, id))
    ensures !IsConditionalNode(ns, id) ==>
      !HasLeftConnection(ns, es, id) && !HasRightConnection(ns, es, id)
      && !CanAddToLeftPath(ns, es, id) && !CanAddToRightPath(ns, es, id)
    ensures !Truthy(id) ==> !IsConditionalNode(ns, id)
  {
  }

  /**
   * `addEdgeWithHandle` guards on the same test: once it has run for a
   * conditional's handle, that path cannot take another node, and a path
   * that was already closed stays closed.
   */
  lemma HandleEdgeClosesPath(ns: seq<Node>, es: seq<Edge>, es': seq<Edge>, e: Edge)
    requires e.sourceHandle == Some(LeftHandle) || e.sourceHandle == Some(RightHandle)
    requires HandleTaken(es', e.source, e.sourceHandle)
      <==> HandleTaken(es, e.source, e.sourceHandle) || EdgeIndex(es, e.id) == -1
    requires EdgesExtend(es, es')
    ensures EdgeIndex(es, e.id) == -1 && e.sourceHandle == Some(LeftHandle) ==> !CanAddToLeftPath(ns, es', Some(e.source))
    ensures EdgeIndex(es, e.id) == -1 && e.sourceHandle == Some(RightHandle) ==> !CanAddToRightPath(ns, es', Some(e.source))
    ensures !CanAddToLeftPath(ns, es, Some(e.source)) ==> !CanAddToLeftPath(ns, es', Some(e.source))
    ensures !CanAddToRightPath(ns, es, Some(e.source)) ==> !CanAddToRightPath(ns, es', Some(e.source))
  {
    ExtendKeepsHandles(es, es', e.source, LeftHandle);
    ExtendKeepsHandles(es, es', e.source, RightHandle);
  }

  lemma ExtendKeepsHandles(es: seq<Edge>, es': seq<Edge>, source: string, h: string)
    requires EdgesExtend(es, es')
    ensures HandleTaken(es, source, Some(h)) ==> HandleTaken(es', source, Some(h))
  {
    if HandleTaken(es, source, Some(h)) {
      var i :| 0 <= i < |es| && es[i].source == source && es[i].sourceHandle == Some(h);
      assert es'[i] == es[i];
    }
  }
}
