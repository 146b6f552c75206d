/** Output connector descriptors (`NodeOutput`): a UI closure, a value-producing closure and the
    type token that decides what the connector may be linked to. */
module NodeOutput {
  import opened Any
  import opened Ui
  import NodeInput

  /** The boxed `FnOnce() -> Box<dyn Any>`. `EmitEmpty` is the closure of `ui` and `none`, which
      boxes an `EmptyNodeOutput {}`; `Emit(t, producer)` boxes what the node's producer returns. */
  datatype OutputCallback<P> = EmitEmpty | Emit(t: TypeToken, producer: P)

  datatype NodeOutput<P> = NodeOutput(uiCallback: UiCallback, outputCallback: OutputCallback<P>, outputType: TypeToken)

  /** The tie between the declared token and the callback that a descriptor built by one of the
      four constructors has. */
  predicate WellTyped<P>(o: NodeOutput<P>) {
    match o.outputCallback
    case EmitEmpty => o.outputType == EmptyNodeOutput
    case Emit(t, _) => t == o.outputType && t.TypeOf?
  }

  /** The boxed value an output callback hands over, given what the node's producer returned
      (`produced` is ignored by a callback-less output, whose producer is never called). */
  function Boxed<P>(cb: OutputCallback<P>, produced: Value): Value
  {
    match cb
    case EmitEmpty => EmptyNodeOutputValue
    case Emit(_, _) => produced
  }

  /** The invariant that makes the downcast at the receiving end safe: whatever a well-typed
      output yields carries exactly the output's declared token, provided that a typed producer
      returns a value of its type `T` (which Rust's type checker guarantees). */
  lemma BoxedValueHasDeclaredType<P>(o: NodeOutput<P>, produced: Value)
    requires WellTyped(o)
    requires o.outputCallback.Emit? ==> TypeIdOf(produced) == o.outputCallback.t
    ensures TypeIdOf(Boxed(o.outputCallback, produced)) == o.outputType
  {
  }

  /** `NodeOutput::new::<T>(ui_callback, output_callback)`. */
  function New<P>(t: TypeToken, ui: UiCallback, producer: P): (r: NodeOutput<P>)
    requires t.TypeOf?
    ensures WellTyped(r) && r.outputType == t && r.uiCallback == ui
    ensures r.outputCallback == Emit(t, producer)
  {
    NodeOutput(ui, Emit(t, producer), t)
  }

  /** `NodeOutput::ui(ui_callback)`: a connector with no output callback. */
  function WithUi<P>(ui: UiCallback): (r: NodeOutput<P>)
    ensures WellTyped(r) && r.uiCallback == ui && r.outputCallback == EmitEmpty
    ensures !r.outputType.TypeOf?
  {
    NodeOutput(ui, EmitEmpty, EmptyNodeOutput)
  }

  /** `NodeOutput::output::<T>(output_callback)`: a typed output with the no-op UI closure. */
  function Output<P>(t: TypeToken, producer: P): (r: NodeOutput<P>)
    requires t.TypeOf?
    ensures WellTyped(r) && r.outputType == t && r.uiCallback == NoOpUi
    ensures r.outputCallback == Emit(t, producer)
  {
    NodeOutput(NoOpUi, Emit(t, producer), t)
  }

  /** `NodeOutput::none()`: no UI and no output callback. */
  function None<P>(): (r: NodeOutput<P>)
    ensures WellTyped(r) && r.uiCallback == NoOpUi && r.outputCallback == EmitEmpty
    ensures !r.outputType.TypeOf?
  {
    NodeOutput(NoOpUi, EmitEmpty, EmptyNodeOutput)
  }

  /** A connector without a callback can never be linked: the token of a callback-less output
      equals no input's token, and the token of a callback-less input equals no output's,
      because the two private marker types differ from each other and from every user type. */
  lemma CallbacklessConnectorsNeverMatch<P, C>(o: NodeOutput<P>, i: NodeInput.NodeInput<C>)
    requires WellTyped(o) && NodeInput.WellTyped(i)
    requires o.outputCallback.EmitEmpty? || i.inputCallback.Discard?
    ensures o.outputType != i.inputType
  {
  }

  /** An output without a callback yields the empty-output marker, whose type is the output's
      declared token, whatever its producer would have returned. */
  lemma CallbacklessOutputYieldsMarker<P>(o: NodeOutput<P>, produced: Value)
    requires WellTyped(o) && o.outputCallback.EmitEmpty?
    ensures Boxed(o.outputCallback, produced) == EmptyNodeOutputValue
    ensures TypeIdOf(Boxed(o.outputCallback, produced)) == o.outputType
  {
  }
}
