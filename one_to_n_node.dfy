/** The one-to-N node kind: one `u8` input, and as many `u8` outputs as were pulled in the
    previous tick plus one. */
module OneToNNode {
  import opened Wrappers
  import opened Any
  import opened Ui
  import opened Callbacks
  import Node
  import NodeInput
  import NodeOutput

  /** The node's two `RefCell<u8>` cells. */
  datatype OneToNNode = OneToNNode(value1: u8, outputCount: u8)

  /** `OneToNNode::default()`. */
  function Default(): (n: OneToNNode)
    ensures n.value1 == 0 && n.outputCount == 0
  {
    OneToNNode(0, 0)
  }

  function Title(): string { "OneToN" }

  /** Every output of the node: `NodeOutput::output(|| { output_count += 1; value_1 })`. */
  function PullOutput(): NodeOutput.NodeOutput<OutputAction> {
    NodeOutput.Output(U8, OneToNPull)
  }

  /** What `body()` returns, and the node after it: one output per unit of the counter as read
      before the reset, all alike, and then the counter reset to 1. */
  function BodyOf(n: OneToNNode): (r: (Node.Body<InputAction, OutputAction>, OneToNNode))
    ensures Node.WellTyped(r.0)
    ensures |r.0.inputs| == 1 && r.0.inputs[0].inputType == U8
    ensures r.0.inputs[0].inputCallback.DowncastInto? && r.0.inputs[0].inputCallback.user == OneToNValue1
    ensures |r.0.outputs| == n.outputCount
    ensures forall j :: 0 <= j < |r.0.outputs| ==>
              r.0.outputs[j].outputType == U8 && r.0.outputs[j].outputCallback == NodeOutput.Emit(U8, OneToNPull)
    ensures r.1.outputCount == 1 && r.1.value1 == n.value1
  {
    (Node.Body([NodeInput.Input(U8, OneToNValue1)], Widget("value_1 label"), seq(n.outputCount, _ => PullOutput())),
     n.(outputCount := 1))
  }

  /** `body()` as the source writes it: a loop pushing `output_count` outputs, then
      `output_count.replace(1)`. */
  method Body(n: OneToNNode) returns (b: Node.Body<InputAction, OutputAction>, n': OneToNNode)
    ensures (b, n') == BodyOf(n)
  {
    var outputCallbacks := [];
    for j := 0 to n.outputCount
      invariant outputCallbacks == seq(j, _ => PullOutput())
    {
      outputCallbacks := outputCallbacks + [PullOutput()];
    }
    n' := n.(outputCount := 1);
    b := Node.Body([NodeInput.Input(U8, OneToNValue1)], Widget("value_1 label"), outputCallbacks);
  }

  /** The input's callback: replaces `value_1` and nothing else. */
  function SetValue1(n: OneToNNode, x: u8): (r: OneToNNode)
    ensures r.value1 == x && r.outputCount == n.outputCount
  {
    n.(value1 := x)
  }

  /** An output's callback: counts the pull and yields `value_1`. The `u8` `add_assign`
      panics at 255 (a debug build). */
  function Pull(n: OneToNNode): (r: Result<(u8, OneToNNode)>)
    ensures r.Err? <==> n.outputCount == 255
    ensures r.Ok? ==> r.value.0 == n.value1 && r.value.1.value1 == n.value1 && r.value.1.outputCount == n.outputCount + 1
  {
    if n.outputCount == 255 then Err(OutputCountOverflow)
    else Ok((n.value1, n.(outputCount := n.outputCount + 1)))
  }

  /** The node after `p` of its outputs have been pulled, one after the other. */
  function PullTimes(n: OneToNNode, p: nat): Result<OneToNNode> {
    if p == 0 then Ok(n)
    else match PullTimes(n, p - 1)
      case Err(e) => Err(e)
      case Ok(m) => match Pull(m) { case Err(e) => Err(e) case Ok(r) => Ok(r.1) }
  }

  /** After a body call, pulling `p` outputs leaves the counter at `1 + p`, so the next body has
      `1 + p` outputs. */
  lemma {:induction false} PulledOutputsGrowNextBody(n: OneToNNode, p: nat)
    requires p <= 254
    ensures PullTimes(BodyOf(n).1, p) == Ok(OneToNNode(n.value1, 1 + p))
    ensures |BodyOf(OneToNNode(n.value1, 1 + p)).0.outputs| == 1 + p
  {
    if p > 0 {
      PulledOutputsGrowNextBody(n, p - 1);
    }
  }

  /** A default node's first body has no outputs and its second body has one. */
  lemma DefaultBodies()
    ensures |BodyOf(Default()).0.outputs| == 0
    ensures |BodyOf(BodyOf(Default()).1).0.outputs| == 1
  {
  }
}
