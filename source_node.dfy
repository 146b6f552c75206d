/** The source node kind: one `u8` output reading the value its slider edits. */
module SourceNode {
  import opened Any
  import opened Ui
  import opened Callbacks
  import Node
  import NodeOutput

  /** The node's `RefCell<u8>` cell. */
  datatype SourceNode = SourceNode(value: u8)

  /** `SourceNode::default()`. */
  function Default(): (n: SourceNode)
    ensures n.value == 0
  {
    SourceNode(0)
  }

  function Title(): string { "Source" }

  /** `body()`: no inputs, a no-op interior, one `u8` output whose UI is the slider. */
  function Body(): (b: Node.Body<InputAction, OutputAction>)
    ensures Node.WellTyped(b) && b.interior == NoOpUi
    ensures |b.inputs| == 0 && |b.outputs| == 1
    ensures b.outputs[0].outputType == U8 && b.outputs[0].outputCallback.Emit? && b.outputs[0].outputCallback.producer == SourceValue
  {
    Node.Body([], NoOpUi, [NodeOutput.New(U8, Widget("value slider"), SourceValue)])
  }

  /** The output's callback, a pure read of the cell. */
  function Read(n: SourceNode): u8 {
    n.value
  }
}
