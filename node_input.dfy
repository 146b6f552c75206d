/** Input connector descriptors (`NodeInput`): a UI closure, a value-consuming closure and the
    type token that decides what the connector may be linked to. */
module NodeInput {
  import opened Wrappers
  import opened Any
  import opened Ui

  /** The boxed `FnOnce(Box<dyn Any>)`. `Discard` is the `|_| {}` of `ui` and `none`;
      `DowncastInto(t, user)` downcasts to `T` (token `t`) and calls the node's callback `user`. */
  datatype InputCallback<C> = Discard | DowncastInto(t: TypeToken, user: C)

  datatype NodeInput<C> = NodeInput(uiCallback: UiCallback, inputCallback: InputCallback<C>, inputType: TypeToken)

  /** What invoking an input callback amounts to: nothing, or the node's callback receiving a value. */
  datatype Delivery<C> = Ignored | Delivered(user: C, value: Value)

  /** The tie between the declared token and the callback that a descriptor built by one of the
      four constructors has; `T` is a user type, never one of the private marker types. */
  predicate WellTyped<C>(i: NodeInput<C>) {
    match i.inputCallback
    case Discard => i.inputType == EmptyNodeInput
    case DowncastInto(t, _) => t == i.inputType && t.TypeOf?
  }

  /** Runs an input callback on a value: `Discard` drops any value; a typed callback delivers a
      value of its type unchanged and panics on any other. */
  function Deliver<C>(cb: InputCallback<C>, v: Value): (r: Result<Delivery<C>>)
    ensures cb.Discard? ==> r == Ok(Ignored)
    ensures cb.DowncastInto? ==> (r.Ok? <==> TypeIdOf(v) == cb.t)
    ensures cb.DowncastInto? && r.Ok? ==> r.value == Delivered(cb.user, v)
    ensures r.Err? ==> r.panic == DowncastFailed
  {
    match cb
    case Discard => Ok(Ignored)
    case DowncastInto(t, user) =>
      var x := Downcast(v, t);
      if x.Some? then Ok(Delivered(user, x.value)) else Err(DowncastFailed)
  }

  /** `NodeInput::new::<T>(ui_callback, input_callback)`. */
  function New<C>(t: TypeToken, ui: UiCallback, user: C): (r: NodeInput<C>)
    requires t.TypeOf?
    ensures WellTyped(r) && r.inputType == t && r.uiCallback == ui
    ensures r.inputCallback == DowncastInto(t, user)
  {
    NodeInput(ui, DowncastInto(t, user), t)
  }

  /** `NodeInput::ui(ui_callback)`: a connector with no input callback. */
  function WithUi<C>(ui: UiCallback): (r: NodeInput<C>)
    ensures WellTyped(r) && r.uiCallback == ui && r.inputCallback == Discard
    ensures !r.inputType.TypeOf? && r.inputType != EmptyNodeOutput
  {
    NodeInput(ui, Discard, EmptyNodeInput)
  }

  /** `NodeInput::input::<T>(input_callback)`: a typed input with the no-op UI closure. */
  function Input<C>(t: TypeToken, user: C): (r: NodeInput<C>)
    requires t.TypeOf?
    ensures WellTyped(r) && r.inputType == t && r.uiCallback == NoOpUi
    ensures r.inputCallback == DowncastInto(t, user)
  {
    NodeInput(NoOpUi, DowncastInto(t, user), t)
  }

  /** `NodeInput::none()`: no UI and no input callback. */
  function None<C>(): (r: NodeInput<C>)
    ensures WellTyped(r) && r.uiCallback == NoOpUi && r.inputCallback == Discard
    ensures !r.inputType.TypeOf? && r.inputType != EmptyNodeOutput
  {
    NodeInput(NoOpUi, Discard, EmptyNodeInput)
  }

  /** A typed input delivers a value of its type unchanged to the node's callback and panics on
      a value of any other type. */
  lemma TypedInputDelivers<C>(t: TypeToken, user: C, v: Value)
    requires t.TypeOf?
    ensures Deliver(DowncastInto(t, user), v) == if TypeIdOf(v) == t then Ok(Delivered(user, v)) else Err(DowncastFailed)
  {
  }

  /** An input without a callback takes any value and ignores it. */
  lemma CallbacklessInputIgnores<C>(v: Value)
    ensures Deliver<C>(Discard, v) == Ok(Ignored)
  {
  }
}
