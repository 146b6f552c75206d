/** The node interface (`trait Node`) and its default `show`, which turns a node's body into the
    two ordered connector lists the graph consumes. */
module Node {
  import opened Ui
  import opened Any
  import NodeInput
  import NodeOutput

  /** What `body()` returns: the inputs, the interior UI closure, the outputs. */
  datatype Body<C, P> = Body(inputs: seq<NodeInput.NodeInput<C>>, interior: UiCallback, outputs: seq<NodeOutput.NodeOutput<P>>)

  /** An entry of the input list `show` returns: `(input_type, position, input_callback)`
      without the screen position. */
  datatype InputInfo<C> = InputInfo(inputType: TypeToken, callback: NodeInput.InputCallback<C>)

  /** An entry of the output list `show` returns, likewise without the position. */
  datatype OutputInfo<P> = OutputInfo(outputType: TypeToken, callback: NodeOutput.OutputCallback<P>)

  /** A UI closure that `show` runs, in the order it runs them. */
  datatype UiEvent = InputUiRan(index: nat, ui: UiCallback) | InteriorRan(ui: UiCallback) | OutputUiRan(index: nat, ui: UiCallback)

  predicate WellTyped<C, P>(b: Body<C, P>) {
    && (forall j :: 0 <= j < |b.inputs| ==> NodeInput.WellTyped(b.inputs[j]))
    && (forall j :: 0 <= j < |b.outputs| ==> NodeOutput.WellTyped(b.outputs[j]))
  }

  /** The input list `show` hands to the graph, one entry per body input, in order. */
  function InputsOf<C, P>(b: Body<C, P>): seq<InputInfo<C>> {
    seq(|b.inputs|, j requires 0 <= j < |b.inputs| => InputInfo(b.inputs[j].inputType, b.inputs[j].inputCallback))
  }

  /** The output list `show` hands to the graph, one entry per body output, in order. */
  function OutputsOf<C, P>(b: Body<C, P>): seq<OutputInfo<P>> {
    seq(|b.outputs|, j requires 0 <= j < |b.outputs| => OutputInfo(b.outputs[j].outputType, b.outputs[j].outputCallback))
  }

  /** The default `Node::show` on an already computed body: it runs every input's UI closure in
      order, then the interior closure, then every output's UI closure in order, and collects
      each connector's token and value callback, which it never invokes. */
  method Show<C, P>(b: Body<C, P>) returns (inputs: seq<InputInfo<C>>, outputs: seq<OutputInfo<P>>, trace: seq<UiEvent>)
    ensures |inputs| == |b.inputs| && |outputs| == |b.outputs|
    ensures forall j :: 0 <= j < |inputs| ==>
              inputs[j].inputType == b.inputs[j].inputType && inputs[j].callback == b.inputs[j].inputCallback
    ensures forall j :: 0 <= j < |outputs| ==>
              outputs[j].outputType == b.outputs[j].outputType && outputs[j].callback == b.outputs[j].outputCallback
    ensures inputs == InputsOf(b) && outputs == OutputsOf(b)
    ensures |trace| == |b.inputs| + 1 + |b.outputs|
    ensures forall j :: 0 <= j < |b.inputs| ==> trace[j] == InputUiRan(j, b.inputs[j].uiCallback)
    ensures trace[|b.inputs|] == InteriorRan(b.interior)
    ensures forall j :: 0 <= j < |b.outputs| ==> trace[|b.inputs| + 1 + j] == OutputUiRan(j, b.outputs[j].uiCallback)
  {
    inputs, trace := [], [];
    for j := 0 to |b.inputs|
      invariant |inputs| == j && |trace| == j
      invariant forall i :: 0 <= i < j ==> inputs[i] == InputInfo(b.inputs[i].inputType, b.inputs[i].inputCallback)
      invariant forall i :: 0 <= i < j ==> trace[i] == InputUiRan(i, b.inputs[i].uiCallback)
    {
      inputs := inputs + [InputInfo(b.inputs[j].inputType, b.inputs[j].inputCallback)];
      trace := trace + [InputUiRan(j, b.inputs[j].uiCallback)];
    }
    trace := trace + [InteriorRan(b.interior)];
    outputs := [];
    for j := 0 to |b.outputs|
      invariant |outputs| == j && |trace| == |b.inputs| + 1 + j
      invariant forall i :: 0 <= i < |b.inputs| ==> trace[i] == InputUiRan(i, b.inputs[i].uiCallback)
      invariant trace[|b.inputs|] == InteriorRan(b.interior)
      invariant forall i :: 0 <= i < j ==> outputs[i] == OutputInfo(b.outputs[i].outputType, b.outputs[i].outputCallback)
      invariant forall i :: 0 <= i < j ==> trace[|b.inputs| + 1 + i] == OutputUiRan(i, b.outputs[i].uiCallback)
    {
      trace := trace + [OutputUiRan(j, b.outputs[j].uiCallback)];
      outputs := outputs + [OutputInfo(b.outputs[j].outputType, b.outputs[j].outputCallback)];
    }
  }
}
