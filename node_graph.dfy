/** `NodeGraph`: the object an application keeps across frames. Its fields are updated in place
    by registering prototypes, adding nodes and showing one tick; `show_inside` is proved to
    compute exactly the tick described in `GraphTick`. */
module NodeGraph {
  import opened Wrappers
  import opened Ui
  import opened AnyNode
  import opened NodeArena
  import opened LinkDrag
  import opened LinkEvaluation
  import opened GraphTick

  class NodeGraph {
    var nodes: Nodes
    var nextSlot: nat
    var registeredNodes: seq<AnyNode>
    var selectorPanelEnabled: bool
    var linkDragInfo: Option<DragInfo>
    var nextFrameLinkDropped: bool
    var links: seq<Link>

    /** The fields as one value. */
    function State(): Graph
      reads this
    {
      Graph(nodes, nextSlot, registeredNodes, selectorPanelEnabled, linkDragInfo, nextFrameLinkDropped, links)
    }

    ghost predicate Valid()
      reads this
    {
      GraphTick.Valid(State())
    }

    /** `NodeGraph::new`: no nodes, no prototypes, the palette hidden, no drag, no links. */
    constructor()
      ensures State() == Empty() && Valid()
    {
      nodes := map[];
      nextSlot := 0;
      registeredNodes := [];
      selectorPanelEnabled := false;
      linkDragInfo := None;
      nextFrameLinkDropped := false;
      links := [];
    }

    /** `register_node`. */
    method RegisterNode(n: AnyNode)
      requires Valid()
      modifies this
      ensures State() == Register(old(State()), n) && Valid()
    {
      registeredNodes := registeredNodes + [n];
    }

    /** Writing the public `selector_panel_enabled` field. */
    method SetSelectorPanelEnabled(enabled: bool)
      requires Valid()
      modifies this
      ensures State() == old(State()).(selectorPanelEnabled := enabled) && Valid()
    {
      selectorPanelEnabled := enabled;
    }

    /** `add_node`: the slot map's insert hands out the next slot. */
    method AddNode(n: AnyNode, position: Pos2) returns (key: NodeKey)
      requires Valid()
      modifies this
      ensures (State(), key) == GraphTick.AddNode(old(State()), n, position)
      ensures key !in old(nodes) && Valid()
    {
      key := NodeKey(nextSlot);
      nodes := nodes[key := NodeInformation(n, position)];
      nextSlot := nextSlot + 1;
    }

    /** The palette loop: every prototype is cloned and its clone shown (twice while it is
        dragged); the last clone whose drag stopped while the pointer had a position is the one
        to add. */
    method PickFromPalette(palette: PaletteEvents) returns (toAdd: Option<(AnyNode, Pos2)>)
      ensures toAdd.Some? <==> palette.dropPosition.Some? && LastStopped(|registeredNodes|, palette.dragStopped).Some?
      ensures toAdd.Some? ==>
                toAdd.value == (AfterShow(registeredNodes[LastStopped(|registeredNodes|, palette.dragStopped).value]),
                                palette.dropPosition.value)
    {
      toAdd := None;
      for i := 0 to |registeredNodes|
        invariant toAdd.Some? <==> palette.dropPosition.Some? && LastStopped(i, palette.dragStopped).Some?
        invariant toAdd.Some? ==>
                    toAdd.value == (AfterShow(registeredNodes[LastStopped(i, palette.dragStopped).value]),
                                    palette.dropPosition.value)
      {
        var node := registeredNodes[i];
        var shown := Show(node);
        node := shown.node;
        if i in palette.dragged {
          ShowIdempotent(registeredNodes[i]);
          shown := Show(node);
          node := shown.node;
        }
        if i in palette.dragStopped && palette.dropPosition.Some? {
          toAdd := Some((node, palette.dropPosition.value));
        }
      }
    }

    /** The palette step of `show_inside`. */
    method SpawnFromPalette(palette: PaletteEvents)
      requires Valid()
      modifies this
      ensures State() == Spawn(old(State()), palette) && Valid()
    {
      if selectorPanelEnabled {
        var toAdd := PickFromPalette(palette);
        if toAdd.Some? {
          var _ := AddNode(toAdd.value.0, toAdd.value.1);
        }
      }
    }

    /** The body of a connector loop for connector `c`: a drag start records the drag, a drag
        stop defers a drop to the next tick, and a pending drop links to `c` if it qualifies;
        the pending drop with no recorded drag is the `unwrap` on `None`. */
    method ResolveConnectorStep(c: Connector, ev: PointerEvents, linkDropped: bool) returns (linkDropped': bool, fatal: Option<Panic>)
      modifies this
      ensures State() == old(State()).(linkDragInfo := linkDragInfo, nextFrameLinkDropped := nextFrameLinkDropped, links := links)
      ensures var r := ResolveConnector(Drag(old(linkDragInfo), old(nextFrameLinkDropped), linkDropped, old(links)), c, ev);
              && (r.Err? ==> fatal == Some(r.panic))
              && (r.Ok? ==> fatal.None? && r.value == Drag(linkDragInfo, nextFrameLinkDropped, linkDropped', links))
    {
      if c.id in ev.dragStarted {
        linkDragInfo := Some(StartInfo(c));
      }
      if c.id in ev.dragStopped {
        nextFrameLinkDropped := true;
      }
      linkDropped', fatal := linkDropped, None;
      if linkDropped {
        if linkDragInfo.None? {
          fatal := Some(DragInfoMissing);
          return;
        }
        var info := linkDragInfo.value;
        if info.isInput != c.id.isInput && info.t == c.t && c.id in ev.withinCapture {
          linkDropped' := false;
          nextFrameLinkDropped := false;
          links := links + [Oriented(info, c)];
          linkDragInfo := None;
        }
      }
    }

    /** The input loop of one node: each input is pushed on the tick's input list, then its
        connector is resolved. */
    method CollectInputs(k: NodeKey, sh: Rendering, ev: PointerEvents, linkDropped: bool, ins: seq<CollectedInput>)
      returns (linkDropped': bool, ins': seq<CollectedInput>, fatal: Option<Panic>)
      modifies this
      ensures State() == old(State()).(linkDragInfo := linkDragInfo, nextFrameLinkDropped := nextFrameLinkDropped, links := links)
      ensures var r := ResolveAll(Drag(old(linkDragInfo), old(nextFrameLinkDropped), linkDropped, old(links)), InputConnectors(k, sh), ev);
              && (r.Err? ==> fatal == Some(r.panic))
              && (r.Ok? ==> fatal.None? && r.value == Drag(linkDragInfo, nextFrameLinkDropped, linkDropped', links) && ins' == ins + NodeInputs(k, sh))
    {
      ghost var d0 := Drag(linkDragInfo, nextFrameLinkDropped, linkDropped, links);
      ghost var cs := InputConnectors(k, sh);
      linkDropped', ins', fatal := linkDropped, ins, None;
      for i := 0 to |sh.inputs|
        invariant State() == old(State()).(linkDragInfo := linkDragInfo, nextFrameLinkDropped := nextFrameLinkDropped, links := links)
        invariant ResolveAll(d0, cs[..i], ev) == Ok(Drag(linkDragInfo, nextFrameLinkDropped, linkDropped', links))
        invariant ins' == ins + NodeInputs(k, sh)[..i] && fatal.None?
      {
        ins' := ins' + [CollectedInput(k, i, sh.inputs[i].callback)];
        var c := Connector(ConnectorId(k, true, i), sh.inputs[i].inputType);
        assert NodeInputs(k, sh)[..i + 1] == NodeInputs(k, sh)[..i] + [CollectedInput(k, i, sh.inputs[i].callback)];
        ResolvePrefixStep(d0, cs, i, ev);
        linkDropped', fatal := ResolveConnectorStep(c, ev, linkDropped');
        if fatal.Some? {
          ResolveErrPrefix(d0, cs[..i + 1], cs, ev);
          return;
        }
      }
      assert cs[..|sh.inputs|] == cs;
      assert NodeInputs(k, sh)[..|sh.inputs|] == NodeInputs(k, sh);
    }

    /** The output loop of one node: each output is pushed on the tick's output list, then its
        connector is resolved. */
    method CollectOutputs(k: NodeKey, sh: Rendering, ev: PointerEvents, linkDropped: bool, outs: seq<CollectedOutput>)
      returns (linkDropped': bool, outs': seq<CollectedOutput>, fatal: Option<Panic>)
      modifies this
      ensures State() == old(State()).(linkDragInfo := linkDragInfo, nextFrameLinkDropped := nextFrameLinkDropped, links := links)
      ensures var r := ResolveAll(Drag(old(linkDragInfo), old(nextFrameLinkDropped), linkDropped, old(links)), OutputConnectors(k, sh), ev);
              && (r.Err? ==> fatal == Some(r.panic))
              && (r.Ok? ==> fatal.None? && r.value == Drag(linkDragInfo, nextFrameLinkDropped, linkDropped', links) && outs' == outs + NodeOutputs(k, sh))
    {
      ghost var d0 := Drag(linkDragInfo, nextFrameLinkDropped, linkDropped, links);
      ghost var cs := OutputConnectors(k, sh);
      linkDropped', outs', fatal := linkDropped, outs, None;
      for i := 0 to |sh.outputs|
        invariant State() == old(State()).(linkDragInfo := linkDragInfo, nextFrameLinkDropped := nextFrameLinkDropped, links := links)
        invariant ResolveAll(d0, cs[..i], ev) == Ok(Drag(linkDragInfo, nextFrameLinkDropped, linkDropped', links))
        invariant outs' == outs + NodeOutputs(k, sh)[..i] && fatal.None?
      {
        outs' := outs' + [CollectedOutput(k, i, sh.outputs[i].callback)];
        var c := Connector(ConnectorId(k, false, i), sh.outputs[i].outputType);
        assert NodeOutputs(k, sh)[..i + 1] == NodeOutputs(k, sh)[..i] + [CollectedOutput(k, i, sh.outputs[i].callback)];
        ResolvePrefixStep(d0, cs, i, ev);
        linkDropped', fatal := ResolveConnectorStep(c, ev, linkDropped');
        if fatal.Some? {
          ResolveErrPrefix(d0, cs[..i + 1], cs, ev);
          return;
        }
      }
      assert cs[..|sh.outputs|] == cs;
      assert NodeOutputs(k, sh)[..|sh.outputs|] == NodeOutputs(k, sh);
    }

    /** The input loop then the output loop of one shown node. */
    method CollectConnectors(k: NodeKey, sh: Rendering, ev: PointerEvents, linkDropped: bool, ins: seq<CollectedInput>, outs: seq<CollectedOutput>)
      returns (linkDropped': bool, ins': seq<CollectedInput>, outs': seq<CollectedOutput>, fatal: Option<Panic>)
      modifies this
      ensures State() == old(State()).(linkDragInfo := linkDragInfo, nextFrameLinkDropped := nextFrameLinkDropped, links := links)
      ensures var r := ResolveAll(Drag(old(linkDragInfo), old(nextFrameLinkDropped), linkDropped, old(links)), NodeConnectors(k, sh), ev);
              && (r.Err? ==> fatal == Some(r.panic))
              && (r.Ok? ==> && fatal.None? && r.value == Drag(linkDragInfo, nextFrameLinkDropped, linkDropped', links)
                            && ins' == ins + NodeInputs(k, sh) && outs' == outs + NodeOutputs(k, sh))
    {
      ghost var d0 := Drag(linkDragInfo, nextFrameLinkDropped, linkDropped, links);
      ResolveAllConcat(d0, InputConnectors(k, sh), OutputConnectors(k, sh), ev);
      outs' := outs;
      linkDropped', ins', fatal := CollectInputs(k, sh, ev, linkDropped, ins);
      if fatal.Some? {
        return;
      }
      linkDropped', outs', fatal := CollectOutputs(k, sh, ev, linkDropped', outs);
    }

    /** One pass of the node loop: show the node under `k`, which updates it in place, then run
        its input loop and its output loop. */
    method ShowNode(k: NodeKey, ev: PointerEvents, linkDropped: bool, ins: seq<CollectedInput>, outs: seq<CollectedOutput>)
      returns (linkDropped': bool, ins': seq<CollectedInput>, outs': seq<CollectedOutput>, fatal: Option<Panic>)
      requires k in nodes
      modifies this
      ensures State() == old(State()).(nodes := nodes, linkDragInfo := linkDragInfo, nextFrameLinkDropped := nextFrameLinkDropped, links := links)
      ensures nodes == Replace(old(nodes), k, AfterShow(old(nodes)[k].node))
      ensures var sh := ShowOf(old(nodes)[k].node);
              var r := ResolveAll(Drag(old(linkDragInfo), old(nextFrameLinkDropped), linkDropped, old(links)), NodeConnectors(k, sh), ev);
              && (r.Err? ==> fatal == Some(r.panic))
              && (r.Ok? ==> && fatal.None? && r.value == Drag(linkDragInfo, nextFrameLinkDropped, linkDropped', links)
                            && ins' == ins + NodeInputs(k, sh) && outs' == outs + NodeOutputs(k, sh))
    {
      var sh := Show(nodes[k].node);
      nodes := Replace(nodes, k, sh.node);
      linkDropped', ins', outs', fatal := CollectConnectors(k, sh, ev, linkDropped, ins, outs);
    }

    /** One iteration of the node loop: the node of slot `s`, shown after those of the slots
        before it. */
    method ShowSlot(ghost n0: Nodes, ghost shows: seq<Rendering>, ghost d0: Drag, s: nat, ev: PointerEvents,
                    linkDropped: bool, ins: seq<CollectedInput>, outs: seq<CollectedOutput>)
      returns (linkDropped': bool, ins': seq<CollectedInput>, outs': seq<CollectedOutput>, fatal: Option<Panic>)
      requires s < |shows| && NodeKey(s) in n0 && shows[s] == ShowOf(n0[NodeKey(s)].node)
      requires nodes == RenderedNodes(n0, s)
      requires ResolveAll(d0, RenderAll(shows[..s]).connectors, ev) == Ok(Drag(linkDragInfo, nextFrameLinkDropped, linkDropped, links))
      requires ins == RenderAll(shows[..s]).inputs && outs == RenderAll(shows[..s]).outputs
      modifies this
      ensures State() == old(State()).(nodes := nodes, linkDragInfo := linkDragInfo, nextFrameLinkDropped := nextFrameLinkDropped, links := links)
      ensures var r := ResolveAll(d0, RenderAll(shows[..s + 1]).connectors, ev);
              && (r.Err? ==> fatal == Some(r.panic))
              && (r.Ok? ==> && fatal.None? && r.value == Drag(linkDragInfo, nextFrameLinkDropped, linkDropped', links)
                            && ins' == RenderAll(shows[..s + 1]).inputs && outs' == RenderAll(shows[..s + 1]).outputs
                            && nodes == RenderedNodes(n0, s + 1))
      ensures fatal.Some? ==> ResolveAll(d0, RenderAll(shows).connectors, ev).Err? && fatal == Some(ResolveAll(d0, RenderAll(shows).connectors, ev).panic)
    {
      var k := NodeKey(s);
      RenderAllStep(shows, s);
      ResolveAllConcat(d0, RenderAll(shows[..s]).connectors, NodeConnectors(k, shows[s]), ev);
      linkDropped', ins', outs', fatal := ShowNode(k, ev, linkDropped, ins, outs);
      RenderedNodesStep(n0, s);
      if fatal.Some? {
        RenderErrPersists(shows, d0, ev, s + 1);
      }
    }

    /** The node loop of `show_inside`: every stored node in slot order, starting from the drop
        deferred by the previous tick. */
    method ShowNodes(ev: PointerEvents) returns (linkDropped: bool, ins: seq<CollectedInput>, outs: seq<CollectedOutput>, fatal: Option<Panic>)
      requires HasSlots(nodes, nextSlot)
      modifies this
      ensures State() == old(State()).(nodes := nodes, linkDragInfo := linkDragInfo, nextFrameLinkDropped := nextFrameLinkDropped, links := links)
      ensures var r := ResolveAll(StartDrag(old(State())), RenderAll(Shows(old(nodes), old(nextSlot))).connectors, ev);
              && (r.Err? ==> fatal == Some(r.panic))
              && (r.Ok? ==> fatal.None? && r.value == Drag(linkDragInfo, nextFrameLinkDropped, linkDropped, links))
      ensures fatal.None? ==>
                var rendered := RenderAll(Shows(old(nodes), old(nextSlot)));
                && ins == rendered.inputs && outs == rendered.outputs
                && nodes == RenderedNodes(old(nodes), old(nextSlot))
    {
      ghost var n0 := nodes;
      ghost var d0 := StartDrag(State());
      var count := nextSlot;
      ghost var shows := Shows(n0, count);
      linkDropped := nextFrameLinkDropped;
      ins, outs, fatal := [], [], None;
      assert RenderedNodes(n0, 0) == n0;
      for s := 0 to count
        invariant State() == old(State()).(nodes := nodes, linkDragInfo := linkDragInfo, nextFrameLinkDropped := nextFrameLinkDropped, links := links)
        invariant nodes == RenderedNodes(n0, s)
        invariant ResolveAll(d0, RenderAll(shows[..s]).connectors, ev) == Ok(Drag(linkDragInfo, nextFrameLinkDropped, linkDropped, links))
        invariant ins == RenderAll(shows[..s]).inputs && outs == RenderAll(shows[..s]).outputs && fatal.None?
      {
        assert Allocated(NodeKey(s), count);
        linkDropped, ins, outs, fatal := ShowSlot(n0, shows, d0, s, ev, linkDropped, ins, outs);
        if fatal.Some? {
          return;
        }
      }
      RenderAllWhole(shows, count);
    }

    /** The link loop of `show_inside`: for each stored link, find and remove both connectors
        from the tick's lists, then pull the output's value and hand it to the input. */
    method EvaluateLinks(ins: seq<CollectedInput>, outs: seq<CollectedOutput>) returns (fatal: Option<Panic>)
      requires Ready(nodes, ins, outs)
      modifies this
      ensures State() == old(State()).(nodes := nodes)
      ensures var r := EvaluateAll(Eval(old(nodes), {}, {}), ins, outs, links);
              && (r.Err? ==> fatal == Some(r.panic))
              && (r.Ok? ==> fatal.None? && nodes == r.value.nodes)
    {
      ghost var e0 := Eval(nodes, {}, {});
      var stored := links;
      var usedInputs: set<nat>, usedOutputs: set<nat> := {}, {};
      fatal := None;
      for j := 0 to |stored|
        invariant State() == old(State()).(nodes := nodes)
        invariant Ready(nodes, ins, outs)
        invariant EvaluateAll(e0, ins, outs, stored[..j]) == Ok(Eval(nodes, usedInputs, usedOutputs)) && fatal.None?
      {
        EvaluatePrefixStep(e0, ins, outs, stored, j);
        var step := EvaluateLinkStep(ins, outs, stored[j], usedInputs, usedOutputs);
        if step.Err? {
          fatal := Some(step.panic);
          EvaluateErrPrefix(e0, ins, outs, stored, j + 1);
          return;
        }
        usedInputs, usedOutputs := step.value.0, step.value.1;
        ReadyAcrossSameKinds(e0.nodes, nodes, ins, outs);
      }
      assert stored[..|stored|] == stored;
    }

    /** One link: `filter(..).nth(..).unwrap()` on each list, `remove(..).unwrap()` on each slot
        map, then `start.2(end.2())`. */
    method EvaluateLinkStep(ins: seq<CollectedInput>, outs: seq<CollectedOutput>, l: Link, usedInputs: set<nat>, usedOutputs: set<nat>)
      returns (r: Result<(set<nat>, set<nat>)>)
      requires Ready(nodes, ins, outs)
      modifies this
      ensures State() == old(State()).(nodes := nodes)
      ensures var e := EvaluateLink(Eval(old(nodes), usedInputs, usedOutputs), ins, outs, l);
              && (e.Err? ==> r == Err(e.panic))
              && (e.Ok? ==> r == Ok((e.value.usedInputs, e.value.usedOutputs)) && nodes == e.value.nodes)
    {
      var start := Nth(InputOwners(ins), l.input.node, l.input.index);
      if start.None? {
        return Err(InputConnectorMissing);
      }
      var end := Nth(OutputOwners(outs), l.output.node, l.output.index);
      if end.None? {
        return Err(OutputConnectorMissing);
      }
      if start.value in usedInputs {
        return Err(InputConnectorReused);
      }
      if end.value in usedOutputs {
        return Err(OutputConnectorReused);
      }
      var produced := Produce(nodes, outs[end.value]);
      if produced.Err? {
        return Err(produced.panic);
      }
      ReadyAcrossSameKinds(nodes, produced.value.1, ins, outs);
      nodes := produced.value.1;
      var consumed := Consume(nodes, ins[start.value], produced.value.0);
      if consumed.Err? {
        return Err(consumed.panic);
      }
      nodes := consumed.value;
      r := Ok((usedInputs + {start.value}, usedOutputs + {end.value}));
    }

    /** The node loop, the link loop and the end-of-tick clear of `show_inside`. */
    method ShowAllNodes(ev: PointerEvents) returns (fatal: Option<Panic>)
      requires Valid()
      modifies this
      ensures ShowAll(old(State()), ev) == if fatal.None? then Ok(State()) else Err(fatal.value)
    {
      ghost var g1 := State();
      DenseHasSlots(nodes, nextSlot);
      var linkDropped, ins, outs;
      linkDropped, ins, outs, fatal := ShowNodes(ev);
      if fatal.Some? {
        return;
      }
      RenderAllReady(g1.nodes, g1.nextSlot);
      fatal := EvaluateAndClear(linkDropped, ins, outs);
    }

    /** The link loop, then the end-of-tick clear of a drop still pending. */
    method EvaluateAndClear(linkDropped: bool, ins: seq<CollectedInput>, outs: seq<CollectedOutput>) returns (fatal: Option<Panic>)
      requires Ready(nodes, ins, outs)
      modifies this
      ensures var r := EvaluateAll(Eval(old(nodes), {}, {}), ins, outs, old(links));
              && (r.Err? ==> fatal == Some(r.panic))
              && (r.Ok? ==> fatal.None? && State() == EndTick(old(State()), r.value.nodes, Drag(old(linkDragInfo), old(nextFrameLinkDropped), linkDropped, old(links))))
    {
      fatal := EvaluateLinks(ins, outs);
      if fatal.Some? {
        return;
      }
      if linkDropped {
        nextFrameLinkDropped := false;
        linkDragInfo := None;
      }
    }

    /** `show_inside`: one tick. Either it completes, leaving exactly the state `Tick`
        describes, or it stops at the panic `Tick` reports. */
    method ShowInside(input: TickInput) returns (fatal: Option<Panic>)
      requires Valid()
      modifies this
      ensures Tick(old(State()), input) == if fatal.None? then Ok(State()) else Err(fatal.value)
      ensures fatal.None? ==> Valid()
    {
      ghost var g0 := State();
      SpawnFromPalette(input.palette);
      fatal := ShowAllNodes(input.pointer);
      if fatal.None? {
        TickPreservesValid(g0, input);
      }
    }
  }
}
