/** The sink node kind: one `u8` input whose value it stores. */
module SinkNode {
  import opened Any
  import opened Ui
  import opened Callbacks
  import Node
  import NodeInput

  /** The node's `RefCell<u8>` cell. */
  datatype SinkNode = SinkNode(value: u8)

  /** `SinkNode::default()`. */
  function Default(): (n: SinkNode)
    ensures n.value == 0
  {
    SinkNode(0)
  }

  function Title(): string { "Sink" }

  /** `body()`: one `u8` input storing into `value`, a no-op interior, no outputs. */
  function Body(): (b: Node.Body<InputAction, OutputAction>)
    ensures Node.WellTyped(b) && b.interior == NoOpUi
    ensures |b.inputs| == 1 && |b.outputs| == 0
    ensures b.inputs[0].inputType == U8 && b.inputs[0].inputCallback.DowncastInto? && b.inputs[0].inputCallback.user == SinkValue
  {
    Node.Body([NodeInput.New(U8, Widget("value label"), SinkValue)], NoOpUi, [])
  }

  /** The input's callback: the stored value becomes the delivered one. */
  function Store(n: SinkNode, x: u8): (r: SinkNode)
    ensures r.value == x
  {
    n.(value := x)
  }
}
