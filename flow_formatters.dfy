/**
 * The persistence mapping between the flat schema records the server stores
 * and the canvas nodes of the editor (client/src/utils/flowFormatters.ts).
 */
module FlowFormatters {
  import opened Wrappers
  import opened Text
  import opened FlowModel

  /**
   * `SchemaNode`. Its `metadata` has the same three optional fields as a
   * canvas node's settings, so it reuses `Settings`.
   */
  datatype SchemaNode = SchemaNode(
    nodeId: string,
    nodeName: string,
    parentNodeId: Option<string>,
    isFalseCase: bool,
    nodeType: string,
    nodePositionX: int,
    nodePositionY: int,
    metadata: Settings)

  const StartType := "START"
  const ConditionalType := "CONDITIONAL"
  const EndType := "END"

  /** The settings `mapSchemaToFlow` keeps: only the field of the node's kind, with defaults. */
  function SchemaSettings(s: SchemaNode): (r: Settings)
    ensures s.nodeType == StartType ==> r == Settings(Some(s.metadata.inputs.GetOr([])), None, None)
    ensures s.nodeType == ConditionalType ==> r == Settings(None, Some(s.metadata.expression.GetOr("")), None)
    ensures s.nodeType == EndType ==> r == Settings(None, None, s.metadata.response)
    ensures s.nodeType !in {StartType, ConditionalType, EndType} ==> r == EmptySettings
  {
    match s.nodeType
    case "START" => Settings(Some(s.metadata.inputs.GetOr([])), None, None)
    case "CONDITIONAL" => Settings(None, Some(s.metadata.expression.GetOr("")), None)
    case "END" => Settings(None, None, s.metadata.response)
    case _ => EmptySettings
  }

  /** One element of `mapSchemaToFlow`. */
  function ToFlow(s: SchemaNode): Node {
    Node(s.nodeId, Lower(s.nodeType), Position(s.nodePositionX, s.nodePositionY),
      NodeData(s.nodeName, s.parentNodeId, Some([]), Some(s.isFalseCase), SchemaSettings(s)))
  }

  /** `response || false`: a falsy or missing End response is stored as `false`. */
  function StoredResponse(v: Option<JsValue>): (r: JsValue)
    ensures !Falsy(r) || r == JBool(false)
    ensures v.Some? && !Falsy(v.value) ==> r == v.value
  {
    if v.None? || Falsy(v.value) then JBool(false) else v.value
  }

  /** The metadata `mapFlowToSchema` writes: only the field of the node's kind, with defaults. */
  function FlowMetadata(n: Node): (r: Settings)
    ensures n.kind == StartKind ==> r == Settings(Some(n.data.settings.inputs.GetOr([])), None, None)
    ensures n.kind == ConditionalKind ==> r == Settings(None, Some(n.data.settings.expression.GetOr("")), None)
    ensures n.kind == EndKind ==> r == Settings(None, None, Some(StoredResponse(n.data.settings.response)))
    ensures n.kind !in {StartKind, ConditionalKind, EndKind} ==> r == EmptySettings
  {
    match n.kind
    case "start" => Settings(Some(n.data.settings.inputs.GetOr([])), None, None)
    case "conditional" => Settings(None, Some(n.data.settings.expression.GetOr("")), None)
    case "end" => Settings(None, None, Some(StoredResponse(n.data.settings.response)))
    case _ => EmptySettings
  }

  /** One element of `mapFlowToSchema`; `isFalseCase || false` maps a missing flag to `false`. */
  function ToSchema(n: Node): SchemaNode {
    SchemaNode(n.id, n.data.title, n.data.parent, n.data.isFalseCase == Some(true), Upper(n.kind),
      n.position.x, n.position.y, FlowMetadata(n))
  }

  /** `mapSchemaToFlow` */
  function MapSchemaToFlow(ss: seq<SchemaNode>): (r: seq<Node>)
    ensures |r| == |ss|
    ensures forall i :: 0 <= i < |ss| ==> r[i] == ToFlow(ss[i])
  {
    seq(|ss|, i requires 0 <= i < |ss| => ToFlow(ss[i]))
  }

  /** `mapFlowToSchema` */
  function MapFlowToSchema(ns: seq<Node>): (r: seq<SchemaNode>)
    ensures |r| == |ns|
    ensures forall i :: 0 <= i < |ns| ==> r[i] == ToSchema(ns[i])
  {
    seq(|ns|, i requires 0 <= i < |ns| => ToSchema(ns[i]))
  }

  /** The type names lower-case to the canvas kinds. */
  lemma LowerTypes()
    ensures Lower(StartType) == StartKind
    ensures Lower(ConditionalType) == ConditionalKind
    ensures Lower(EndType) == EndKind
  {
    assert Lower(StartType) == StartKind by {
      assert forall i :: 0 <= i < |StartType| ==> Lower(StartType)[i] == StartKind[i];
    }
    assert Lower(ConditionalType) == ConditionalKind by {
      assert forall i :: 0 <= i < |ConditionalType| ==> Lower(ConditionalType)[i] == ConditionalKind[i];
    }
    assert Lower(EndType) == EndKind by {
      assert forall i :: 0 <= i < |EndType| ==> Lower(EndType)[i] == EndKind[i];
    }
  }

  /** The canvas kinds upper-case to the type names. */
  lemma UpperKinds()
    ensures Upper(StartKind) == StartType
    ensures Upper(ConditionalKind) == ConditionalType
    ensures Upper(EndKind) == EndType
  {
    assert Upper(StartKind) == StartType by {
      assert forall i :: 0 <= i < |StartKind| ==> Upper(StartKind)[i] == StartType[i];
    }
    assert Upper(ConditionalKind) == ConditionalType by {
      assert forall i :: 0 <= i < |ConditionalKind| ==> Upper(ConditionalKind)[i] == ConditionalType[i];
    }
    assert Upper(EndKind) == EndType by {
      assert forall i :: 0 <= i < |EndKind| ==> Upper(EndKind)[i] == EndType[i];
    }
  }

  /** A canvas node loaded from a schema record: copied fields, lower-cased kind, no children yet. */
  lemma ToFlowFields(s: SchemaNode)
    ensures var n := ToFlow(s);
      n.id == s.nodeId && n.data.title == s.nodeName && n.data.parent == s.parentNodeId
      && n.position == Position(s.nodePositionX, s.nodePositionY) && n.data.isFalseCase == Some(s.isFalseCase)
      && n.data.children == Some([])
    ensures s.nodeType == StartType ==> ToFlow(s).kind == StartKind
    ensures s.nodeType == ConditionalType ==> ToFlow(s).kind == ConditionalKind
    ensures s.nodeType == EndType ==> ToFlow(s).kind == EndKind
  {
    LowerTypes();
  }

  /**
   * A record the mapping reproduces: one of the three types, metadata with
   * exactly its kind's field, and an End response that is truthy or `false`.
   */
  predicate Canonical(s: SchemaNode) {
    match s.nodeType
    case "START" => s.metadata.inputs.Some? && s.metadata.expression.None? && s.metadata.response.None?
    case "CONDITIONAL" => s.metadata.inputs.None? && s.metadata.expression.Some? && s.metadata.response.None?
    case "END" =>
      s.metadata.inputs.None? && s.metadata.expression.None? && s.metadata.response.Some?
      && (!Falsy(s.metadata.response.value) || s.metadata.response.value == JBool(false))
    case _ => false
  }

  /** Saving a loaded canonical record gives the record back. */
  lemma RoundTrip(s: SchemaNode)
    requires Canonical(s)
    ensures ToSchema(ToFlow(s)) == s
  {
    LowerTypes();
    UpperKinds();
  }

  /** The list round trip `mapFlowToSchema(mapSchemaToFlow(ss)) == ss`. */
  lemma MapRoundTrip(ss: seq<SchemaNode>)
    requires forall i :: 0 <= i < |ss| ==> Canonical(ss[i])
    ensures MapFlowToSchema(MapSchemaToFlow(ss)) == ss
  {
    forall i | 0 <= i < |ss|
      ensures MapFlowToSchema(MapSchemaToFlow(ss))[i] == ss[i]
    {
      RoundTrip(ss[i]);
    }
  }

  /**
   * Every record saved from a Start, Conditional or End node is canonical,
   * so a saved flow survives a reload and a second save unchanged.
   */
  lemma SavedIsCanonical(n: Node)
    requires n.kind in {StartKind, ConditionalKind, EndKind}
    ensures Canonical(ToSchema(n))
    ensures ToSchema(ToFlow(ToSchema(n))) == ToSchema(n)
  {
    UpperKinds();
    RoundTrip(ToSchema(n));
  }

  /** Saving normalises: a missing flag and a falsy End response both become `false`. */
  lemma SaveNormalises(n: Node)
    ensures ToSchema(n).isFalseCase <==> n.data.isFalseCase == Some(true)
    ensures n.kind == EndKind ==>
      (ToSchema(n).metadata.response == Some(JBool(false)) <==> (n.data.settings.response.None? || Falsy(n.data.settings.response.value)))
    ensures n.kind !in {StartKind, ConditionalKind, EndKind} ==> ToSchema(n).metadata == EmptySettings
  {
  }
}
