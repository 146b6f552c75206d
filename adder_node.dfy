/** The adder node kind: two `u8` inputs and one output yielding their wrapping sum. */
module AdderNode {
  import opened Any
  import opened Ui
  import opened Callbacks
  import Node
  import NodeInput
  import NodeOutput

  /** The node's two `RefCell<u8>` cells. */
  datatype AdderNode = AdderNode(value1: u8, value2: u8)

  /** `AdderNode::default()`. */
  function Default(): (n: AdderNode)
    ensures n.value1 == 0 && n.value2 == 0
  {
    AdderNode(0, 0)
  }

  function Title(): string { "Adder" }

  /** `u8::wrapping_add`: the mathematical sum, less 256 when it does not fit in a byte. */
  function WrappingAdd(a: u8, b: u8): (r: u8)
    ensures a + b < 256 ==> r == a + b
    ensures a + b >= 256 ==> r == a + b - 256
  {
    (a + b) % 256
  }

  /** `body()`: two `u8` inputs feeding `value_1` and `value_2`, a no-op interior, and one
      `u8` output producing the sum. */
  function Body(): (b: Node.Body<InputAction, OutputAction>)
    ensures Node.WellTyped(b) && b.interior == NoOpUi
    ensures |b.inputs| == 2 && |b.outputs| == 1
    ensures b.inputs[0].inputType == U8 && b.inputs[0].inputCallback.DowncastInto? && b.inputs[0].inputCallback.user == AdderValue1
    ensures b.inputs[1].inputType == U8 && b.inputs[1].inputCallback.DowncastInto? && b.inputs[1].inputCallback.user == AdderValue2
    ensures b.outputs[0].outputType == U8 && b.outputs[0].outputCallback.Emit? && b.outputs[0].outputCallback.producer == AdderSum
  {
    Node.Body(
      [NodeInput.New(U8, Widget("value_1 label"), AdderValue1), NodeInput.New(U8, Widget("value_2 label"), AdderValue2)],
      NoOpUi,
      [NodeOutput.New(U8, Widget("sum label"), AdderSum)])
  }

  /** The first input's callback: replaces `value_1` and nothing else. */
  function SetValue1(n: AdderNode, x: u8): (r: AdderNode)
    ensures r.value1 == x && r.value2 == n.value2
  {
    n.(value1 := x)
  }

  /** The second input's callback: replaces `value_2` and nothing else. */
  function SetValue2(n: AdderNode, x: u8): (r: AdderNode)
    ensures r.value2 == x && r.value1 == n.value1
  {
    n.(value2 := x)
  }

  /** The output's callback, a pure read of both cells. */
  function Sum(n: AdderNode): (r: u8)
    ensures r == (n.value1 + n.value2) % 256
  {
    WrappingAdd(n.value1, n.value2)
  }

  /** Whatever was last delivered to the two inputs, the output yields their sum modulo 256. */
  lemma SumOfDelivered(n: AdderNode, x: u8, y: u8)
    ensures Sum(SetValue2(SetValue1(n, x), y)) == (x + y) % 256
    ensures Sum(SetValue1(SetValue2(n, y), x)) == (x + y) % 256
  {
  }

  /** 250 and 10 give 4. */
  lemma SumWraps()
    ensures Sum(AdderNode(250, 10)) == 4
  {
  }
}
