/**
 * The checks that every NNAPI operator builder shares: whether a node unit can
 * be handed to NNAPI at all, and how it is added to the model builder. The
 * builder-specific hooks are the fields of `OpBuilderHooks`.
 */
module NnapiBaseOpBuilder {
  import opened Common

  /** `TensorProto_DataType_FLOAT` of the ONNX protobuf. */
  const TensorProtoFloat: int := 1

  /** The data location of an initializer tensor. */
  datatype DataLocation = DefaultLocation | ExternalLocation

  /** An initializer tensor, reduced to its optional data location. */
  datatype TensorProto = TensorProto(dataLocation: Option<DataLocation>)

  /** One dimension of a shape: a concrete value, or none for a symbolic dimension. */
  datatype Dimension = Dimension(dimValue: Option<int>)

  /**
   * A node argument: its name, whether it exists (an omitted optional input does
   * not), its shape if known and its element type if it can be read.
   */
  datatype NodeArg = NodeArg(name: string, present: bool, shape: Option<seq<Dimension>>, elemType: Option<int>)

  /** The quantization parameters of an input: a scale and an optional zero point. */
  datatype QuantParam = QuantParam(scale: NodeArg, zeroPoint: Option<NodeArg>)

  /** One input of a node unit, with its quantization parameters if it has any. */
  datatype NodeUnitIODef = NodeUnitIODef(nodeArg: NodeArg, quantParam: Option<QuantParam>)

  datatype NodeUnitType = SingleNode | QDQGroup

  datatype NodeUnit = NodeUnit(unitType: NodeUnitType, opType: string, name: string,
                               sinceVersion: int, inputs: seq<NodeUnitIODef>)

  /** The graph, reduced to its initializers by name. */
  datatype GraphViewer = GraphViewer(initializers: map<string, TensorProto>)

  datatype OpSupportCheckParams = OpSupportCheckParams(androidFeatureLevel: int, useNchw: bool)

  /** The model builder, reduced to the graph it translates; the operands it collects are not modelled. */
  datatype ModelBuilder = ModelBuilder(graph: GraphViewer)

  /**
   * The hooks a concrete operator builder overrides. `isNodeUnitTypeSupported`
   * defaults to `IsNodeUnitTypeSupported` below, which rejects QDQ groups; a
   * builder that handles QDQ groups supplies its own.
   */
  datatype OpBuilderHooks = OpBuilderHooks(
    isNodeUnitTypeSupported: NodeUnit -> bool,
    minSupportedFeatureLevel: (NodeUnit, OpSupportCheckParams) -> int,
    minSupportedOpSet: NodeUnit -> int,
    maxSupportedOpSet: NodeUnit -> int,
    isOpSupportedImpl: (GraphViewer, NodeUnit, OpSupportCheckParams) -> bool,
    hasSupportedInputOutputsImpl: (GraphViewer, NodeUnit, OpSupportCheckParams) -> bool,
    addToModelBuilderImpl: (ModelBuilder, NodeUnit) -> Status)

  // ---------------------------------------------------------------------------
  // External initializers
  // ---------------------------------------------------------------------------

  /** `arg` names an initializer whose data is stored externally; unknown names are not external. */
  predicate IsExternalInitializer(initializers: map<string, TensorProto>, arg: NodeArg) {
    arg.name in initializers && initializers[arg.name].dataLocation == Some(ExternalLocation)
  }

  /** The input, its scale or its zero point when present names an external initializer. */
  predicate RefersToExternal(initializers: map<string, TensorProto>, input: NodeUnitIODef) {
    || IsExternalInitializer(initializers, input.nodeArg)
    || (input.quantParam.Some? &&
        (|| IsExternalInitializer(initializers, input.quantParam.value.scale)
         || (input.quantParam.value.zeroPoint.Some? &&
             IsExternalInitializer(initializers, input.quantParam.value.zeroPoint.value))))
  }

  /** The scan over `inputs[i..]`, checking each input, then its scale, then its zero point. */
  function ExternalFrom(initializers: map<string, TensorProto>, inputs: seq<NodeUnitIODef>, i: nat): (r: bool)
    requires i <= |inputs|
    ensures r <==> exists j :: i <= j < |inputs| && RefersToExternal(initializers, inputs[j])
    decreases |inputs| - i
  {
    if i == |inputs| then false
    else
      var input := inputs[i];
      if IsExternalInitializer(initializers, input.nodeArg) then true
      else if input.quantParam.None? then ExternalFrom(initializers, inputs, i + 1)
      else if IsExternalInitializer(initializers, input.quantParam.value.scale) then true
      else if input.quantParam.value.zeroPoint.Some? &&
              IsExternalInitializer(initializers, input.quantParam.value.zeroPoint.value) then true
      else ExternalFrom(initializers, inputs, i + 1)
  }

  /** Some input of the node unit, or its quantization scale or zero point, is an external initializer. */
  function HasExternalInitializer(initializers: map<string, TensorProto>, nodeUnit: NodeUnit): (r: bool)
    ensures r <==> exists j :: 0 <= j < |nodeUnit.inputs| && RefersToExternal(initializers, nodeUnit.inputs[j])
  {
    ExternalFrom(initializers, nodeUnit.inputs, 0)
  }

  // ---------------------------------------------------------------------------
  // Input shapes
  // ---------------------------------------------------------------------------

  /** The argument has a shape and every dimension of it has a concrete value. */
  predicate HasSupportedShape(arg: NodeArg) {
    arg.shape.Some? && forall d :: 0 <= d < |arg.shape.value| ==> arg.shape.value[d].dimValue.Some?
  }

  /** An existing input, its scale and its zero point when present all have supported shapes. */
  predicate InputShapesSupported(input: NodeUnitIODef) {
    !input.nodeArg.present ||
    (&& HasSupportedShape(input.nodeArg)
     && (input.quantParam.Some? ==>
           && HasSupportedShape(input.quantParam.value.scale)
           && (input.quantParam.value.zeroPoint.Some? ==> HasSupportedShape(input.quantParam.value.zeroPoint.value))))
  }

  /** The scan over `inputs[i..]`, skipping inputs that do not exist. */
  function ShapesSupportedFrom(inputs: seq<NodeUnitIODef>, i: nat): (r: bool)
    requires i <= |inputs|
    ensures r <==> forall j :: i <= j < |inputs| ==> InputShapesSupported(inputs[j])
    decreases |inputs| - i
  {
    if i == |inputs| then true
    else
      var input := inputs[i];
      if !input.nodeArg.present then ShapesSupportedFrom(inputs, i + 1)
      else if !HasSupportedShape(input.nodeArg) then false
      else if input.quantParam.Some? && !HasSupportedShape(input.quantParam.value.scale) then false
      else if input.quantParam.Some? && input.quantParam.value.zeroPoint.Some? &&
              !HasSupportedShape(input.quantParam.value.zeroPoint.value) then false
      else ShapesSupportedFrom(inputs, i + 1)
  }

  /** Every existing input has fixed, known shapes, and the builder's own input check passes. */
  function HasSupportedInputOutputs(hooks: OpBuilderHooks, graph: GraphViewer, nodeUnit: NodeUnit,
                                    params: OpSupportCheckParams): (r: bool)
    ensures r <==> (forall j :: 0 <= j < |nodeUnit.inputs| ==> InputShapesSupported(nodeUnit.inputs[j]))
                   && hooks.hasSupportedInputOutputsImpl(graph, nodeUnit, params)
  {
    if !ShapesSupportedFrom(nodeUnit.inputs, 0) then false
    else hooks.hasSupportedInputOutputsImpl(graph, nodeUnit, params)
  }

  /** An existing input with a dimension of unknown value makes the node unit's inputs unsupported. */
  lemma DynamicDimensionRejected(hooks: OpBuilderHooks, graph: GraphViewer, nodeUnit: NodeUnit,
                                 params: OpSupportCheckParams, j: nat, d: nat)
    requires j < |nodeUnit.inputs|
    requires nodeUnit.inputs[j].nodeArg.present
    requires nodeUnit.inputs[j].nodeArg.shape.Some?
    requires d < |nodeUnit.inputs[j].nodeArg.shape.value|
    requires nodeUnit.inputs[j].nodeArg.shape.value[d].dimValue.None?
    ensures !HasSupportedInputOutputs(hooks, graph, nodeUnit, params)
  {
    assert !InputShapesSupported(nodeUnit.inputs[j]);
  }

  // ---------------------------------------------------------------------------
  // Single checks
  // ---------------------------------------------------------------------------

  /** The element type of the argument, when it can be read. */
  function GetType(arg: NodeArg): Option<int> {
    arg.elemType
  }

  /** Input `idx` of the node unit is a float tensor. */
  function InputIsFloat(nodeUnit: NodeUnit, idx: nat): (r: bool)
    requires idx < |nodeUnit.inputs|
    ensures r <==> nodeUnit.inputs[idx].nodeArg.elemType == Some(TensorProtoFloat)
  {
    var inputType := GetType(nodeUnit.inputs[idx].nodeArg);
    if inputType.None? then false
    else if inputType.value != TensorProtoFloat then false
    else true
  }

  /** The operator's opset version lies in the builder's supported range, both ends included. */
  function HasSupportedOpSet(hooks: OpBuilderHooks, nodeUnit: NodeUnit): (r: bool)
    ensures r <==> hooks.minSupportedOpSet(nodeUnit) <= nodeUnit.sinceVersion <= hooks.maxSupportedOpSet(nodeUnit)
  {
    var sinceVersion := nodeUnit.sinceVersion;
    if sinceVersion < hooks.minSupportedOpSet(nodeUnit) || sinceVersion > hooks.maxSupportedOpSet(nodeUnit) then false
    else true
  }

  /** Only single-node units are supported; QDQ groups are not. */
  function IsNodeUnitTypeSupported(nodeUnit: NodeUnit): (r: bool)
    ensures r <==> nodeUnit.unitType.SingleNode?
  {
    if nodeUnit.unitType == QDQGroup then false else true
  }

  // ---------------------------------------------------------------------------
  // The whole check and model building
  // ---------------------------------------------------------------------------

  /**
   * The node unit can be handed to NNAPI: the device's feature level is high
   * enough, the builder accepts the unit's type, its inputs have fixed shapes, none of
   * them is an external initializer, its opset is in range, and the builder's
   * own check passes.
   */
  function IsOpSupported(hooks: OpBuilderHooks, graph: GraphViewer, nodeUnit: NodeUnit,
                         params: OpSupportCheckParams): (r: bool)
    ensures hooks.minSupportedFeatureLevel(nodeUnit, params) > params.androidFeatureLevel ==> !r
    ensures r <==>
              && hooks.minSupportedFeatureLevel(nodeUnit, params) <= params.androidFeatureLevel
              && hooks.isNodeUnitTypeSupported(nodeUnit)
              && (forall j :: 0 <= j < |nodeUnit.inputs| ==> InputShapesSupported(nodeUnit.inputs[j]))
              && hooks.hasSupportedInputOutputsImpl(graph, nodeUnit, params)
              && (forall j :: 0 <= j < |nodeUnit.inputs| ==> !RefersToExternal(graph.initializers, nodeUnit.inputs[j]))
              && hooks.minSupportedOpSet(nodeUnit) <= nodeUnit.sinceVersion <= hooks.maxSupportedOpSet(nodeUnit)
              && hooks.isOpSupportedImpl(graph, nodeUnit, params)
  {
    var requiredFeatureLevel := hooks.minSupportedFeatureLevel(nodeUnit, params);
    if requiredFeatureLevel > params.androidFeatureLevel then false
    else if !hooks.isNodeUnitTypeSupported(nodeUnit) then false
    else if !HasSupportedInputOutputs(hooks, graph, nodeUnit, params) then false
    else if HasExternalInitializer(graph.initializers, nodeUnit) then false
    else if !HasSupportedOpSet(hooks, nodeUnit) then false
    else hooks.isOpSupportedImpl(graph, nodeUnit, params)
  }

  /** Whatever the builder, a node unit with an external initializer among its inputs is not supported. */
  lemma ExternalInitializerUnsupported(hooks: OpBuilderHooks, graph: GraphViewer, nodeUnit: NodeUnit,
                                       params: OpSupportCheckParams, j: nat)
    requires j < |nodeUnit.inputs| && RefersToExternal(graph.initializers, nodeUnit.inputs[j])
    ensures !IsOpSupported(hooks, graph, nodeUnit, params)
  {
  }

  /** With the default unit-type check, a QDQ group is never supported, whatever the other hooks say. */
  lemma DefaultRejectsQDQGroup(hooks: OpBuilderHooks, graph: GraphViewer, nodeUnit: NodeUnit,
                               params: OpSupportCheckParams)
    requires forall u :: hooks.isNodeUnitTypeSupported(u) == IsNodeUnitTypeSupported(u)
    requires nodeUnit.unitType == QDQGroup
    ensures !IsOpSupported(hooks, graph, nodeUnit, params)
  {
    assert !hooks.isNodeUnitTypeSupported(nodeUnit);
  }

  /**
   * Adds the node unit through the builder's hook: the hook's error is
   * returned as it is, and OK otherwise. Support is not checked again here.
   */
  function AddToModelBuilder(hooks: OpBuilderHooks, modelBuilder: ModelBuilder, nodeUnit: NodeUnit): (r: Status)
    ensures r.OK? <==> hooks.addToModelBuilderImpl(modelBuilder, nodeUnit).OK?
    ensures !r.OK? ==> r == hooks.addToModelBuilderImpl(modelBuilder, nodeUnit)
  {
    var status := hooks.addToModelBuilderImpl(modelBuilder, nodeUnit);
    if !status.OK? then status
    else OK
  }
}
