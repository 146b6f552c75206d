/** Whole ticks on small concrete graphs: the sample node kinds wired together by stored links. */
module Scenarios {
  import opened Wrappers
  import opened Any
  import opened Ui
  import opened Callbacks
  import Node
  import NodeInput
  import NodeOutput
  import opened AnyNode
  import opened NodeArena
  import opened LinkDrag
  import opened LinkEvaluation
  import opened GraphTick
  import SourceNode
  import SinkNode

  const Origin := Pos2(0.0, 0.0)

  /** A tick in which the user does nothing. */
  const Idle := TickInput(PaletteEvents({}, {}, None), PointerEvents({}, {}, {}))

  /** The link from the source's output to the sink's input, input end first. */
  const Wire := Link(End(NodeKey(1), 0), End(NodeKey(0), 0))

  function SourceSinkNodes(x: u8, y: u8): Nodes {
    map[NodeKey(0) := NodeInformation(Source(SourceNode.SourceNode(x)), Origin),
        NodeKey(1) := NodeInformation(Sink(SinkNode.SinkNode(y)), Origin)]
  }

  /** A source holding `x` in slot 0 and a sink holding `y` in slot 1, linked. */
  function SourceSinkGraph(x: u8, y: u8): (g: Graph)
    ensures Valid(g)
  {
    Graph(SourceSinkNodes(x, y), 2, [], false, None, false, [Wire])
  }

  /** What `show` hands out for a source: no inputs, one `u8` output. */
  lemma ShowSource(s: SourceNode.SourceNode)
    ensures ShowOf(Source(s)) == Rendering(Source(s), [], [Node.OutputInfo(U8, NodeOutput.Emit(U8, SourceValue))])
  {
    var b := SourceNode.Body();
    assert Node.InputsOf(b) == [];
    assert Node.OutputsOf(b) == [Node.OutputInfo(U8, NodeOutput.Emit(U8, SourceValue))];
  }

  /** What `show` hands out for a sink: one `u8` input, no outputs. */
  lemma ShowSink(s: SinkNode.SinkNode)
    ensures ShowOf(Sink(s)) == Rendering(Sink(s), [Node.InputInfo(U8, NodeInput.DowncastInto(U8, SinkValue))], [])
  {
    var b := SinkNode.Body();
    assert Node.InputsOf(b) == [Node.InputInfo(U8, NodeInput.DowncastInto(U8, SinkValue))];
    assert Node.OutputsOf(b) == [];
  }

  const SourceSinkInputs := [CollectedInput(NodeKey(1), 0, NodeInput.DowncastInto(U8, SinkValue))]
  const SourceSinkOutputs := [CollectedOutput(NodeKey(0), 0, NodeOutput.Emit(U8, SourceValue))]

  function SourceShown(x: u8): Rendering {
    Rendering(Source(SourceNode.SourceNode(x)), [], [Node.OutputInfo(U8, NodeOutput.Emit(U8, SourceValue))])
  }

  function SinkShown(y: u8): Rendering {
    Rendering(Sink(SinkNode.SinkNode(y)), [Node.InputInfo(U8, NodeInput.DowncastInto(U8, SinkValue))], [])
  }

  /** Slot 0 shows the source, slot 1 the sink. */
  lemma ShowsSourceSink(x: u8, y: u8)
    ensures Shows(SourceSinkNodes(x, y), 2) == [SourceShown(x), SinkShown(y)]
  {
    ShowSource(SourceNode.SourceNode(x));
    ShowSink(SinkNode.SinkNode(y));
  }

  /** The tick's streams: the source's output connector, then the sink's input connector. */
  lemma RenderSourceSink(x: u8, y: u8)
    ensures RenderAll([SourceShown(x), SinkShown(y)]) ==
              Rendered([Connector(ConnectorId(NodeKey(0), false, 0), U8), Connector(ConnectorId(NodeKey(1), true, 0), U8)],
                       SourceSinkInputs, SourceSinkOutputs)
  {
    var shows := [SourceShown(x), SinkShown(y)];
    assert shows[..1][..0] == [];
    RenderAllStep(shows, 0);
    RenderAllStep(shows, 1);
    assert shows[..2] == shows;
  }

  /** Rendering leaves both nodes as they were. */
  lemma ShownSourceSink(x: u8, y: u8)
    ensures RenderedNodes(SourceSinkNodes(x, y), 2) == SourceSinkNodes(x, y)
  {
  }

  /** With no pointer event the connector loops change nothing. */
  lemma ResolveIdle(g: Graph, cs: seq<Connector>)
    requires !g.nextFrameLinkDropped
    ensures ResolveAll(StartDrag(g), cs, Idle.pointer) == Ok(StartDrag(g))
  {
    NoPendingDrop(StartDrag(g), cs, Idle.pointer);
    NoPendingDropDefers(StartDrag(g), cs, Idle.pointer);
    NoStartKeepsInfo(StartDrag(g), cs, Idle.pointer);
  }

  /** The link pulls `x` from the source and hands it to the sink. */
  lemma EvaluateWire(x: u8, y: u8)
    ensures var nodes := SourceSinkNodes(x, y);
            EvaluateAll(Eval(nodes, {}, {}), SourceSinkInputs, SourceSinkOutputs, [Wire]) ==
              Ok(Eval(SourceSinkNodes(x, x), {0}, {0}))
  {
    var nodes := SourceSinkNodes(x, y);
    assert InputOwners(SourceSinkInputs) == [NodeKey(1)];
    assert OutputOwners(SourceSinkOutputs) == [NodeKey(0)];
    assert InputPosition(SourceSinkInputs, Wire) == Some(0);
    assert OutputPosition(SourceSinkOutputs, Wire) == Some(0);
    var source := Source(SourceNode.SourceNode(x));
    assert Pull(source, SourceValue) == Ok((U8Value(x), source));
    assert Replace(nodes, NodeKey(0), source) == nodes;
    assert Produce(nodes, SourceSinkOutputs[0]) == Ok((U8Value(x), nodes));
    assert Accept(nodes[NodeKey(1)].node, SinkValue, U8Value(x)) == Sink(SinkNode.SinkNode(x));
    assert Replace(nodes, NodeKey(1), Sink(SinkNode.SinkNode(x))) == SourceSinkNodes(x, x);
    assert Consume(nodes, SourceSinkInputs[0], U8Value(x)) == Ok(SourceSinkNodes(x, x));
    var e := Eval(nodes, {}, {});
    var ip := InputPosition(SourceSinkInputs, Wire);
    var op := OutputPosition(SourceSinkOutputs, Wire);
    assert !(ip.value in e.usedInputs) && !(op.value in e.usedOutputs);
    assert Produce(e.nodes, SourceSinkOutputs[op.value]) == Ok((U8Value(x), nodes));
    assert Consume(nodes, SourceSinkInputs[ip.value], U8Value(x)) == Ok(SourceSinkNodes(x, x));
    assert e.usedInputs + {ip.value} == {0};
    assert EvaluateLink(Eval(nodes, {}, {}), SourceSinkInputs, SourceSinkOutputs, Wire) == Ok(Eval(SourceSinkNodes(x, x), {0}, {0}));
    assert EvaluateAll(Eval(nodes, {}, {}), SourceSinkInputs, SourceSinkOutputs, []) == Ok(Eval(nodes, {}, {}));
    assert [] + [Wire] == [Wire];
    EvaluateAllStep(Eval(nodes, {}, {}), SourceSinkInputs, SourceSinkOutputs, [], Wire);
  }

  /** One idle tick, in which the user does not move the source's slider, copies the source's
      value into the sink and keeps the link and the source. */
  lemma SourceFeedsSink(x: u8, y: u8)
    ensures Tick(SourceSinkGraph(x, y), Idle) == Ok(SourceSinkGraph(x, x))
  {
    var g := SourceSinkGraph(x, y);
    assert Spawn(g, Idle.palette) == g;
    ShowsSourceSink(x, y);
    RenderSourceSink(x, y);
    ShownSourceSink(x, y);
    ResolveIdle(g, RenderAll(Shows(g.nodes, 2)).connectors);
    EvaluateWire(x, y);
  }
}
