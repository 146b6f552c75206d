/** A node of any of the sample kinds: the model's `Box<dyn Node>`. Dispatches `title`, `body`
    and `show`, and applies a connector's named callback to the node that produced it. */
module AnyNode {
  import opened Wrappers
  import opened Any
  import opened Callbacks
  import Node
  import NodeInput
  import NodeOutput
  import AdderNode
  import OneToNNode
  import SinkNode
  import SourceNode

  datatype AnyNode =
    | Adder(adder: AdderNode.AdderNode)
    | OneToN(oneToN: OneToNNode.OneToNNode)
    | Sink(sink: SinkNode.SinkNode)
    | Source(source: SourceNode.SourceNode)

  datatype Kind = AdderKind | OneToNKind | SinkKind | SourceKind

  function KindOf(n: AnyNode): Kind {
    match n
    case Adder(_) => AdderKind
    case OneToN(_) => OneToNKind
    case Sink(_) => SinkKind
    case Source(_) => SourceKind
  }

  /** The kind of node whose body hands out this input callback. */
  function InputKind(a: InputAction): Kind {
    match a
    case AdderValue1 => AdderKind
    case AdderValue2 => AdderKind
    case OneToNValue1 => OneToNKind
    case SinkValue => SinkKind
  }

  /** The kind of node whose body hands out this output callback. */
  function OutputKind(a: OutputAction): Kind {
    match a
    case AdderSum => AdderKind
    case OneToNPull => OneToNKind
    case SourceValue => SourceKind
  }

  /** The type `T` an input callback takes. */
  function InputType(a: InputAction): TypeToken { U8 }

  /** The type `T` an output callback returns. */
  function OutputType(a: OutputAction): TypeToken { U8 }

  /** An input callback handed out by a node of kind `k`: it acts on a node of that kind and its
      downcast target is the type its closure takes. */
  predicate InputBound(k: Kind, cb: NodeInput.InputCallback<InputAction>) {
    cb.DowncastInto? ==> InputKind(cb.user) == k && cb.t == InputType(cb.user)
  }

  /** An output callback handed out by a node of kind `k`: it acts on a node of that kind and it
      boxes values of the type its closure returns. */
  predicate OutputBound(k: Kind, cb: NodeOutput.OutputCallback<OutputAction>) {
    cb.Emit? ==> OutputKind(cb.producer) == k && cb.t == OutputType(cb.producer)
  }

  predicate BodyBound(k: Kind, b: Node.Body<InputAction, OutputAction>) {
    && Node.WellTyped(b)
    && (forall j :: 0 <= j < |b.inputs| ==> InputBound(k, b.inputs[j].inputCallback))
    && (forall j :: 0 <= j < |b.outputs| ==> OutputBound(k, b.outputs[j].outputCallback))
  }

  function Title(n: AnyNode): string {
    match n
    case Adder(_) => AdderNode.Title()
    case OneToN(_) => OneToNNode.Title()
    case Sink(_) => SinkNode.Title()
    case Source(_) => SourceNode.Title()
  }

  /** The four titles are distinct, so a title names its kind. */
  lemma TitleNamesKind(n: AnyNode, m: AnyNode)
    ensures Title(n) == Title(m) <==> KindOf(n) == KindOf(m)
  {
  }

  /** A body and the node as `body()` leaves it (only the one-to-N node changes). */
  datatype Bodied = Bodied(body: Node.Body<InputAction, OutputAction>, node: AnyNode)

  /** `body()` of the node's kind. */
  function BodyOf(n: AnyNode): (r: Bodied)
    ensures KindOf(r.node) == KindOf(n)
    ensures BodyBound(KindOf(n), r.body)
    ensures !n.OneToN? ==> r.node == n
  {
    match n
    case Adder(_) => Bodied(AdderNode.Body(), n)
    case OneToN(s) => var (b, s') := OneToNNode.BodyOf(s); Bodied(b, OneToN(s'))
    case Sink(_) => Bodied(SinkNode.Body(), n)
    case Source(_) => Bodied(SourceNode.Body(), n)
  }

  /** `body()` through dynamic dispatch. */
  method Body(n: AnyNode) returns (r: Bodied)
    ensures r == BodyOf(n)
  {
    match n
    case OneToN(s) =>
      var b, s' := OneToNNode.Body(s);
      r := Bodied(b, OneToN(s'));
    case _ =>
      r := BodyOf(n);
  }

  /** What `show` returns, with the node as it leaves it. */
  datatype Rendering = Rendering(node: AnyNode, inputs: seq<Node.InputInfo<InputAction>>, outputs: seq<Node.OutputInfo<OutputAction>>)

  /** The node as `show` leaves it when the user does not touch its widgets: the one-to-N
      node's output counter is 1 afterwards, and every other kind is unchanged. A source's
      slider, which `show` runs and which may write its cell, is not modelled. */
  function AfterShow(n: AnyNode): (r: AnyNode)
    ensures KindOf(r) == KindOf(n)
    ensures n.OneToN? ==> r.oneToN.value1 == n.oneToN.value1 && r.oneToN.outputCount == 1
    ensures !n.OneToN? ==> r == n
  {
    match n
    case OneToN(s) => OneToN(s.(outputCount := 1))
    case _ => n
  }

  /** The default `show`: one call of `body()`, whose connectors it lists in order; the node
      changes only as that body call changes it, since no value callback runs. */
  function ShowOf(n: AnyNode): (r: Rendering)
    ensures r.node == BodyOf(n).node == AfterShow(n)
    ensures KindOf(r.node) == KindOf(n)
    ensures forall j :: 0 <= j < |r.inputs| ==> InputBound(KindOf(n), r.inputs[j].callback)
    ensures forall j :: 0 <= j < |r.outputs| ==> OutputBound(KindOf(n), r.outputs[j].callback)
  {
    var b := BodyOf(n);
    Rendering(b.node, Node.InputsOf(b.body), Node.OutputsOf(b.body))
  }

  /** `Node::show` on a stored node. */
  method Show(n: AnyNode) returns (r: Rendering)
    ensures r == ShowOf(n)
  {
    var b := Body(n);
    var inputs, outputs, _ := Node.Show(b.body);
    r := Rendering(b.node, inputs, outputs);
  }

  /** Showing a node twice leaves it as showing it once does (the one-to-N counter is 1 after
      either), so how often a palette preview is drawn before it is placed does not matter. */
  lemma ShowIdempotent(n: AnyNode)
    ensures ShowOf(ShowOf(n).node).node == ShowOf(n).node
  {
  }

  /** An input callback run on the node that produced it, with a value its downcast accepted. */
  function Accept(n: AnyNode, a: InputAction, v: Value): (r: AnyNode)
    requires KindOf(n) == InputKind(a) && TypeIdOf(v) == InputType(a)
    ensures KindOf(r) == KindOf(n)
  {
    match a
    case AdderValue1 => Adder(AdderNode.SetValue1(n.adder, v.byte))
    case AdderValue2 => Adder(AdderNode.SetValue2(n.adder, v.byte))
    case OneToNValue1 => OneToN(OneToNNode.SetValue1(n.oneToN, v.byte))
    case SinkValue => Sink(SinkNode.Store(n.sink, v.byte))
  }

  /** An output callback run on the node that produced it: the value, whose type is the one the
      callback declares, and the node afterwards; only the one-to-N counter can panic. */
  function Pull(n: AnyNode, a: OutputAction): (r: Result<(Value, AnyNode)>)
    requires KindOf(n) == OutputKind(a)
    ensures r.Ok? ==> TypeIdOf(r.value.0) == OutputType(a) && KindOf(r.value.1) == KindOf(n)
    ensures r.Err? <==> n.OneToN? && n.oneToN.outputCount == 255
    ensures !n.OneToN? && r.Ok? ==> r.value.1 == n
  {
    match a
    case AdderSum => Ok((U8Value(AdderNode.Sum(n.adder)), n))
    case SourceValue => Ok((U8Value(SourceNode.Read(n.source)), n))
    case OneToNPull =>
      match OneToNNode.Pull(n.oneToN)
      case Err(e) => Err(e)
      case Ok((x, s')) => Ok((U8Value(x), OneToN(s')))
  }

  /** A source's output delivered to a sink's input makes the sink hold the source's value, and
      leaves the source unchanged. */
  lemma SourceToSink(source: SourceNode.SourceNode, sink: SinkNode.SinkNode)
    ensures Pull(Source(source), SourceValue).Ok?
    ensures var (v, source') := Pull(Source(source), SourceValue).value;
            source' == Source(source) && Accept(Sink(sink), SinkValue, v) == Sink(SinkNode.SinkNode(source.value))
  {
  }

  /** Delivering `x` and `y` to an adder's inputs makes its output yield `x + y` modulo 256,
      and pulling leaves both cells alone. */
  lemma AdderAddsDelivered(s: AdderNode.AdderNode, x: u8, y: u8)
    ensures var n := Accept(Accept(Adder(s), AdderValue1, U8Value(x)), AdderValue2, U8Value(y));
            Pull(n, AdderSum) == Ok((U8Value((x + y) % 256), Adder(AdderNode.AdderNode(x, y))))
  {
  }
}
