/** One tick of `NodeGraph::show_inside` as a function of the graph's state and the tick's user
    events: palette spawn, rendering with drag/drop resolution, link evaluation, end-of-tick
    cleanup. */
module GraphTick {
  import opened Wrappers
  import opened Any
  import opened Ui
  import opened Callbacks
  import Node
  import opened AnyNode
  import opened NodeArena
  import opened LinkDrag
  import opened LinkEvaluation

  /** The palette's events in a tick: which entries are being dragged (their preview is drawn
      again under the pointer), which reported a drag stop, and the pointer's interaction
      position in graph space (absent when egui has none). */
  datatype PaletteEvents = PaletteEvents(dragged: set<nat>, dragStopped: set<nat>, dropPosition: Option<Pos2>)

  /** Everything a tick observes from the user. */
  datatype TickInput = TickInput(palette: PaletteEvents, pointer: PointerEvents)

  /** The `NodeGraph` fields the tick reads and writes; `nextSlot` is the slot map's allocation
      counter. */
  datatype Graph = Graph(
    nodes: Nodes,
    nextSlot: nat,
    registeredNodes: seq<AnyNode>,
    selectorPanelEnabled: bool,
    linkDragInfo: Option<DragInfo>,
    nextFrameLinkDropped: bool,
    links: seq<Link>)

  /** The graph's invariant: keys are exactly the slots handed out, and the recorded drag and
      every link mention stored nodes only. */
  ghost predicate Valid(g: Graph) {
    && Dense(g.nodes, g.nextSlot)
    && RefersTo(Drag(g.linkDragInfo, g.nextFrameLinkDropped, g.nextFrameLinkDropped, g.links), g.nodes.Keys)
  }

  /** `NodeGraph::new`. */
  function Empty(): (g: Graph)
    ensures Valid(g) && g.nodes == map[] && g.links == [] && g.registeredNodes == []
    ensures !g.selectorPanelEnabled && g.linkDragInfo.None? && !g.nextFrameLinkDropped
  {
    Graph(map[], 0, [], false, None, false, [])
  }

  /** `register_node`: append a prototype to the palette. */
  function Register(g: Graph, n: AnyNode): (r: Graph)
    ensures r.registeredNodes == g.registeredNodes + [n]
    ensures r.(registeredNodes := g.registeredNodes) == g
    ensures Valid(g) ==> Valid(r)
  {
    g.(registeredNodes := g.registeredNodes + [n])
  }

  /** `add_node`: store a node under a key never handed out before. */
  function AddNode(g: Graph, n: AnyNode, pos: Pos2): (r: (Graph, NodeKey))
    ensures Valid(g) ==> r.1 !in g.nodes && Valid(r.0)
    ensures r.0.nodes.Keys == g.nodes.Keys + {r.1}
    ensures r.0.nodes[r.1] == NodeInformation(n, pos)
    ensures forall k :: k in g.nodes && k != r.1 ==> r.0.nodes[k] == g.nodes[k]
    ensures r.0.(nodes := g.nodes, nextSlot := g.nextSlot) == g
  {
    var k := NodeKey(g.nextSlot);
    (g.(nodes := g.nodes[k := NodeInformation(n, pos)], nextSlot := g.nextSlot + 1), k)
  }

  /** The last of the first `n` palette entries that reported a drag stop; a later entry
      overwrites `node_to_add`. */
  function LastStopped(n: nat, stopped: set<nat>): (r: Option<nat>)
    ensures r.Some? ==> r.value < n && r.value in stopped && forall i :: r.value < i < n ==> i !in stopped
    ensures r.None? ==> forall i :: 0 <= i < n ==> i !in stopped
  {
    if n == 0 then None
    else if n - 1 in stopped then Some(n - 1)
    else LastStopped(n - 1, stopped)
  }

  /** Whether the palette step adds a node this tick. */
  predicate Spawns(g: Graph, palette: PaletteEvents) {
    g.selectorPanelEnabled && palette.dropPosition.Some? && LastStopped(|g.registeredNodes|, palette.dragStopped).Some?
  }

  /** The palette step: the clone of the last prototype dropped this tick, as its preview left
      it, is added at the drop position. */
  function Spawn(g: Graph, palette: PaletteEvents): (r: Graph)
    ensures Valid(g) ==> Valid(r)
    ensures && r.registeredNodes == g.registeredNodes && r.selectorPanelEnabled == g.selectorPanelEnabled
            && r.linkDragInfo == g.linkDragInfo && r.nextFrameLinkDropped == g.nextFrameLinkDropped && r.links == g.links
    ensures !Spawns(g, palette) ==> r == g
    ensures Spawns(g, palette) ==>
              && r.nextSlot == g.nextSlot + 1
              && r.nodes.Keys == g.nodes.Keys + {NodeKey(g.nextSlot)}
              && (forall k :: k in g.nodes && k != NodeKey(g.nextSlot) ==> r.nodes[k] == g.nodes[k])
              && r.nodes[NodeKey(g.nextSlot)] ==
                   NodeInformation(AfterShow(g.registeredNodes[LastStopped(|g.registeredNodes|, palette.dragStopped).value]),
                                   palette.dropPosition.value)
  {
    if Spawns(g, palette) then
      var i := LastStopped(|g.registeredNodes|, palette.dragStopped).value;
      AddNode(g, AfterShow(g.registeredNodes[i]), palette.dropPosition.value).0
    else g
  }

  /** The input connectors one node's `show` hands out, in order. */
  function InputConnectors(k: NodeKey, sh: Rendering): (r: seq<Connector>)
    ensures |r| == |sh.inputs|
    ensures forall j :: 0 <= j < |r| ==> r[j] == Connector(ConnectorId(k, true, j), sh.inputs[j].inputType)
  {
    seq(|sh.inputs|, j requires 0 <= j < |sh.inputs| => Connector(ConnectorId(k, true, j), sh.inputs[j].inputType))
  }

  /** The output connectors one node's `show` hands out, in order. */
  function OutputConnectors(k: NodeKey, sh: Rendering): (r: seq<Connector>)
    ensures |r| == |sh.outputs|
    ensures forall j :: 0 <= j < |r| ==> r[j] == Connector(ConnectorId(k, false, j), sh.outputs[j].outputType)
  {
    seq(|sh.outputs|, j requires 0 <= j < |sh.outputs| => Connector(ConnectorId(k, false, j), sh.outputs[j].outputType))
  }

  /** What one node's `show` contributes to the tick's connector stream: its input loop runs
      before its output loop. */
  function NodeConnectors(k: NodeKey, sh: Rendering): (r: seq<Connector>)
    ensures |r| == |sh.inputs| + |sh.outputs|
    ensures forall j :: 0 <= j < |r| ==> r[j].id.node == k
  {
    InputConnectors(k, sh) + OutputConnectors(k, sh)
  }

  /** What one node's `show` contributes to the tick's input list. */
  function NodeInputs(k: NodeKey, sh: Rendering): (r: seq<CollectedInput>)
    ensures |r| == |sh.inputs|
    ensures forall j :: 0 <= j < |r| ==> r[j] == CollectedInput(k, j, sh.inputs[j].callback)
  {
    seq(|sh.inputs|, j requires 0 <= j < |sh.inputs| => CollectedInput(k, j, sh.inputs[j].callback))
  }

  /** What one node's `show` contributes to the tick's output list. */
  function NodeOutputs(k: NodeKey, sh: Rendering): (r: seq<CollectedOutput>)
    ensures |r| == |sh.outputs|
    ensures forall j :: 0 <= j < |r| ==> r[j] == CollectedOutput(k, j, sh.outputs[j].callback)
  {
    seq(|sh.outputs|, j requires 0 <= j < |sh.outputs| => CollectedOutput(k, j, sh.outputs[j].callback))
  }

  /** The connector stream and the input and output lists of a tick. */
  datatype Rendered = Rendered(connectors: seq<Connector>, inputs: seq<CollectedInput>, outputs: seq<CollectedOutput>)

  /** The nodes once those of the slots below `n` have been shown: `show` changes only the node
      it is called on, and positions never change. */
  function RenderedNodes(nodes: Nodes, n: nat): (r: Nodes)
    ensures r.Keys == nodes.Keys
    ensures forall k :: k in r ==> r[k] == RenderedNode(nodes, n, k)
    ensures SameKinds(nodes, r)
  {
    map k | k in nodes :: RenderedNode(nodes, n, k)
  }

  function RenderedNode(nodes: Nodes, n: nat, k: NodeKey): (r: NodeInformation)
    requires k in nodes
    ensures KindOf(r.node) == KindOf(nodes[k].node) && r.position == nodes[k].position
    ensures !Allocated(k, n) ==> r == nodes[k]
  {
    if Allocated(k, n) then nodes[k].(node := AfterShow(nodes[k].node)) else nodes[k]
  }

  /** Showing the node of slot `n` next. */
  lemma RenderedNodesStep(nodes: Nodes, n: nat)
    requires NodeKey(n) in nodes
    ensures RenderedNodes(nodes, n + 1) ==
              Replace(RenderedNodes(nodes, n), NodeKey(n), AfterShow(nodes[NodeKey(n)].node))
  {
    var r, r' := RenderedNodes(nodes, n + 1), Replace(RenderedNodes(nodes, n), NodeKey(n), AfterShow(nodes[NodeKey(n)].node));
    assert forall k :: k in r ==> r[k] == r'[k];
  }

  /** What `show` returns for the node of slot `i`. */
  function ShowAt(nodes: Nodes, i: nat): Rendering
    requires NodeKey(i) in nodes
  {
    ShowOf(nodes[NodeKey(i)].node)
  }

  /** What `show` returns for each of the first `n` slots, in slot order. */
  function Shows(nodes: Nodes, n: nat): (r: seq<Rendering>)
    requires HasSlots(nodes, n)
    ensures |r| == n && forall i :: 0 <= i < n ==> r[i] == ShowAt(nodes, i)
  {
    seq(n, i requires 0 <= i < n && NodeKey(i) in nodes => ShowAt(nodes, i))
  }

  /** Rendering every slot is rendering the whole list of renderings. */
  lemma RenderAllWhole(shows: seq<Rendering>, n: nat)
    requires n == |shows|
    ensures RenderAll(shows[..n]) == RenderAll(shows)
  {
    assert shows[..n] == shows;
  }

  /** The connector stream and the two lists collected from the renderings `shows`, the one at
      position `i` being that of the node of slot `i`. */
  function RenderAll(shows: seq<Rendering>): Rendered
    decreases |shows|
  {
    if shows == [] then Rendered([], [], [])
    else
      var prev := RenderAll(shows[..|shows| - 1]);
      var k := NodeKey(|shows| - 1);
      var sh := shows[|shows| - 1];
      Rendered(prev.connectors + NodeConnectors(k, sh), prev.inputs + NodeInputs(k, sh), prev.outputs + NodeOutputs(k, sh))
  }

  /** Rendering the node of slot `s` after those of the slots below it. */
  lemma RenderAllStep(shows: seq<Rendering>, s: nat)
    requires s < |shows|
    ensures var prev, k := RenderAll(shows[..s]), NodeKey(s);
            RenderAll(shows[..s + 1]) ==
              Rendered(prev.connectors + NodeConnectors(k, shows[s]), prev.inputs + NodeInputs(k, shows[s]), prev.outputs + NodeOutputs(k, shows[s]))
  {
    assert shows[..s + 1][..s] == shows[..s];
  }

  /** A panic while resolving the connectors of the first `s` slots is the panic of the whole
      connector loop: rendering further slots only appends connectors. */
  lemma {:induction false} RenderErrPersists(shows: seq<Rendering>, d: Drag, ev: PointerEvents, s: nat)
    requires s <= |shows| && ResolveAll(d, RenderAll(shows[..s]).connectors, ev).Err?
    ensures ResolveAll(d, RenderAll(shows).connectors, ev) == ResolveAll(d, RenderAll(shows[..s]).connectors, ev)
    decreases |shows|
  {
    if s < |shows| {
      var p := shows[..|shows| - 1];
      assert p[..s] == shows[..s];
      RenderErrPersists(p, d, ev, s);
      ResolveErrPersists(d, RenderAll(p).connectors, NodeConnectors(NodeKey(|shows| - 1), shows[|shows| - 1]), ev);
    } else {
      assert shows[..s] == shows;
    }
  }

  lemma ReadyAppend(nodes: Nodes, ins: seq<CollectedInput>, outs: seq<CollectedOutput>, ins': seq<CollectedInput>, outs': seq<CollectedOutput>)
    requires Ready(nodes, ins, outs) && Ready(nodes, ins', outs')
    ensures Ready(nodes, ins + ins', outs + outs')
  {
    assert forall p :: |ins| <= p < |ins + ins'| ==> (ins + ins')[p] == ins'[p - |ins|];
    assert forall p :: |outs| <= p < |outs + outs'| ==> (outs + outs')[p] == outs'[p - |outs|];
  }

  /** The rendering at position `i` hands out connectors fitting the node of slot `i`. */
  predicate Fits(nodes: Nodes, shows: seq<Rendering>) {
    forall i :: 0 <= i < |shows| ==>
      NodeKey(i) in nodes && Ready(nodes, NodeInputs(NodeKey(i), shows[i]), NodeOutputs(NodeKey(i), shows[i]))
  }

  /** The connectors a node's `show` hands out fit its kind. */
  lemma ShowsFit(nodes: Nodes, n: nat)
    requires HasSlots(nodes, n)
    ensures Fits(nodes, Shows(nodes, n))
  {
    var shows := Shows(nodes, n);
    forall i | 0 <= i < n
      ensures NodeKey(i) in nodes && Ready(nodes, NodeInputs(NodeKey(i), shows[i]), NodeOutputs(NodeKey(i), shows[i]))
    {
      assert Allocated(NodeKey(i), n);
      assert shows[i] == ShowOf(nodes[NodeKey(i)].node);
    }
  }

  lemma {:induction false} RenderAllReadyBefore(nodes: Nodes, shows: seq<Rendering>)
    requires Fits(nodes, shows)
    ensures var r := RenderAll(shows); Ready(nodes, r.inputs, r.outputs)
    decreases |shows|
  {
    if shows != [] {
      var p := shows[..|shows| - 1];
      var k, sh := NodeKey(|shows| - 1), shows[|shows| - 1];
      assert forall i :: 0 <= i < |p| ==> p[i] == shows[i];
      RenderAllReadyBefore(nodes, p);
      ReadyAppend(nodes, RenderAll(p).inputs, RenderAll(p).outputs, NodeInputs(k, sh), NodeOutputs(k, sh));
    }
  }

  /** Every connector collected while rendering fits its node as rendering leaves it. */
  lemma RenderAllReady(nodes: Nodes, n: nat)
    requires HasSlots(nodes, n)
    ensures var r := RenderAll(Shows(nodes, n)); Ready(RenderedNodes(nodes, n), r.inputs, r.outputs)
  {
    var r := RenderAll(Shows(nodes, n));
    ShowsFit(nodes, n);
    RenderAllReadyBefore(nodes, Shows(nodes, n));
    ReadyAcrossSameKinds(nodes, RenderedNodes(nodes, n), r.inputs, r.outputs);
  }

  /** Every connector in `cs` belongs to a node of a slot below `n`. */
  predicate Below(cs: seq<Connector>, n: nat) {
    forall j :: 0 <= j < |cs| ==> Allocated(cs[j].id.node, n)
  }

  lemma BelowAppend(cs: seq<Connector>, more: seq<Connector>, slot: nat)
    requires Below(cs, slot) && forall j :: 0 <= j < |more| ==> more[j].id.node == NodeKey(slot)
    ensures Below(cs + more, slot + 1)
  {
    assert forall j :: |cs| <= j < |cs + more| ==> (cs + more)[j] == more[j - |cs|];
  }

  /** Only the nodes of slots below `|shows|` contribute connectors. */
  lemma {:induction false} RenderAllBelow(shows: seq<Rendering>)
    ensures Below(RenderAll(shows).connectors, |shows|)
    decreases |shows|
  {
    if shows != [] {
      var p := shows[..|shows| - 1];
      RenderAllBelow(p);
      BelowAppend(RenderAll(p).connectors, NodeConnectors(NodeKey(|shows| - 1), shows[|shows| - 1]), |shows| - 1);
    }
  }

  /** The state at the end of a tick: a drop still pending after every connector is abandoned. */
  function EndTick(g: Graph, nodes: Nodes, d: Drag): Graph {
    g.(nodes := nodes,
       linkDragInfo := if d.linkDropped then None else d.info,
       nextFrameLinkDropped := if d.linkDropped then false else d.nextFrameDropped,
       links := d.links)
  }

  /** The drag state the connector loops start from: the drop deferred by the previous tick is
      the one that can link now. */
  function StartDrag(g: Graph): Drag {
    Drag(g.linkDragInfo, g.nextFrameLinkDropped, g.nextFrameLinkDropped, g.links)
  }

  /** The tick's rendering, after the palette step. */
  function Render(g: Graph, palette: PaletteEvents): Rendered
    requires Valid(g)
  {
    var g1 := Spawn(g, palette);
    RenderAll(Shows(g1.nodes, g1.nextSlot))
  }

  /** The drag state after every connector of the tick has been resolved. */
  function Resolve(g: Graph, input: TickInput): Result<Drag>
    requires Valid(g)
  {
    ResolveAll(StartDrag(Spawn(g, input.palette)), Render(g, input.palette).connectors, input.pointer)
  }

  /** The nodes as rendering leaves them, before any link is evaluated. */
  function Shown(g: Graph, palette: PaletteEvents): Nodes
    requires Valid(g)
  {
    var g1 := Spawn(g, palette);
    RenderedNodes(g1.nodes, g1.nextSlot)
  }

  /** Evaluating `links` over the connectors rendered this tick. */
  function Evaluate(g: Graph, input: TickInput, links: seq<Link>): Result<Eval>
    requires Valid(g)
  {
    var g1 := Spawn(g, input.palette);
    var rendered := Render(g, input.palette);
    RenderAllReady(g1.nodes, g1.nextSlot);
    EvaluateAll(Eval(Shown(g, input.palette), {}, {}), rendered.inputs, rendered.outputs, links)
  }

  /** The node loop and the link loop of `show_inside`, on the graph the palette step left:
      the new state, or the panic that aborts the tick. */
  function ShowAll(g: Graph, ev: PointerEvents): Result<Graph>
    requires Valid(g)
  {
    var rendered := RenderAll(Shows(g.nodes, g.nextSlot));
    var resolved := ResolveAll(StartDrag(g), rendered.connectors, ev);
    if resolved.Err? then Err(resolved.panic)
    else
      RenderAllReady(g.nodes, g.nextSlot);
      var evaluated := EvaluateAll(Eval(RenderedNodes(g.nodes, g.nextSlot), {}, {}), rendered.inputs, rendered.outputs, resolved.value.links);
      if evaluated.Err? then Err(evaluated.panic)
      else Ok(EndTick(g, evaluated.value.nodes, resolved.value))
  }

  /** `show_inside`: the palette step, then the node loop and the link loop. */
  function Tick(g: Graph, input: TickInput): Result<Graph>
    requires Valid(g)
  {
    ShowAll(Spawn(g, input.palette), input.pointer)
  }

  /** What a tick that does not panic leaves of its connector loops' drag state. */
  lemma TickEnd(g: Graph, input: TickInput)
    requires Valid(g) && Tick(g, input).Ok?
    ensures Resolve(g, input).Ok?
    ensures var d, r := Resolve(g, input).value, Tick(g, input).value;
            && r.links == d.links
            && r.linkDragInfo == (if d.linkDropped then None else d.info)
            && r.nextFrameLinkDropped == (!d.linkDropped && d.nextFrameDropped)
  {
  }

  /** A tick keeps the graph's invariant. */
  lemma TickPreservesValid(g: Graph, input: TickInput)
    requires Valid(g) && Tick(g, input).Ok?
    ensures Valid(Tick(g, input).value)
  {
    var g1 := Spawn(g, input.palette);
    var cs := Render(g, input.palette).connectors;
    var d := Resolve(g, input).value;
    var e := Evaluate(g, input, d.links).value;
    RenderAllBelow(Shows(g1.nodes, g1.nextSlot));
    BelowStored(cs, g1.nodes, g1.nextSlot);
    ResolveRefersTo(StartDrag(g1), cs, input.pointer, g1.nodes.Keys);
    EndTickValid(g1, e.nodes, d);
  }

  /** Connectors of allocated slots belong to stored nodes. */
  lemma BelowStored(cs: seq<Connector>, nodes: Nodes, n: nat)
    requires Below(cs, n) && HasSlots(nodes, n)
    ensures forall j :: 0 <= j < |cs| ==> cs[j].id.node in nodes
  {
  }

  /** Ending a tick on the same keys with a drag state that mentions stored nodes only keeps the
      invariant. */
  lemma EndTickValid(g: Graph, nodes: Nodes, d: Drag)
    requires Dense(g.nodes, g.nextSlot) && nodes.Keys == g.nodes.Keys && RefersTo(d, g.nodes.Keys)
    ensures Valid(EndTick(g, nodes, d))
  {
  }

  /** A tick keeps the palette, its settings, and every node with its kind. */
  lemma TickKeepsNodes(g: Graph, input: TickInput)
    requires Valid(g) && Tick(g, input).Ok?
    ensures var r := Tick(g, input).value;
            && r.registeredNodes == g.registeredNodes && r.selectorPanelEnabled == g.selectorPanelEnabled
            && (forall k :: k in g.nodes ==> k in r.nodes && KindOf(r.nodes[k].node) == KindOf(g.nodes[k].node))
  {
    var g1 := Spawn(g, input.palette);
    SpawnKeepsKinds(g, input.palette);
    var d := Resolve(g, input).value;
    var e := Evaluate(g, input, d.links).value;
    assert Tick(g, input).value.nodes == e.nodes;
    assert SameKinds(g1.nodes, Shown(g, input.palette));
    assert SameKinds(Shown(g, input.palette), e.nodes);
  }

  /** The palette step keeps every stored node and its kind. */
  lemma SpawnKeepsKinds(g: Graph, palette: PaletteEvents)
    requires Valid(g)
    ensures forall k :: k in g.nodes ==> k in Spawn(g, palette).nodes && KindOf(Spawn(g, palette).nodes[k].node) == KindOf(g.nodes[k].node)
  {
    if Spawns(g, palette) {
      assert NodeKey(g.nextSlot) !in g.nodes;
    }
  }

  /** A tick appends at most one link and never removes or reorders the stored ones; a new link
      needs a drop deferred from the previous tick, and a deferred drop that links nothing is
      abandoned: afterwards no drag is recorded and no drop is pending. */
  lemma TickLinks(g: Graph, input: TickInput)
    requires Valid(g) && Tick(g, input).Ok?
    ensures var r := Tick(g, input).value;
            && |g.links| <= |r.links| <= |g.links| + 1
            && r.links[..|g.links|] == g.links
            && (|r.links| == |g.links| + 1 ==> g.nextFrameLinkDropped)
            && (g.nextFrameLinkDropped && |r.links| == |g.links| ==> r.linkDragInfo.None? && !r.nextFrameLinkDropped)
  {
    var g1 := Spawn(g, input.palette);
    AtMostOneLink(StartDrag(g1), Render(g, input.palette).connectors, input.pointer);
  }

  /** Without a deferred drop a tick links nothing and its connector loops cannot panic; the drop
      is deferred to the next tick exactly when some connector reports a drag stop. */
  lemma TickWithoutPendingDrop(g: Graph, input: TickInput)
    requires Valid(g) && !g.nextFrameLinkDropped
    ensures Resolve(g, input).Ok?
    ensures Tick(g, input).Ok? ==>
              var r := Tick(g, input).value;
              var cs := Render(g, input.palette).connectors;
              && r.links == g.links
              && (r.nextFrameLinkDropped <==> exists j :: 0 <= j < |cs| && cs[j].id in input.pointer.dragStopped)
  {
    NoPendingDrop(StartDrag(Spawn(g, input.palette)), Render(g, input.palette).connectors, input.pointer);
    NoPendingDropDefers(StartDrag(Spawn(g, input.palette)), Render(g, input.palette).connectors, input.pointer);
    if Tick(g, input).Ok? {
      TickEnd(g, input);
    }
  }

  /** Without a deferred drop and without a drag start, a tick keeps the recorded drag. */
  lemma TickKeepsDragWithoutStart(g: Graph, input: TickInput)
    requires Valid(g) && !g.nextFrameLinkDropped
    requires var cs := Render(g, input.palette).connectors;
             forall j :: 0 <= j < |cs| ==> cs[j].id !in input.pointer.dragStarted
    ensures Tick(g, input).Ok? ==> Tick(g, input).value.linkDragInfo == g.linkDragInfo
  {
    NoPendingDrop(StartDrag(Spawn(g, input.palette)), Render(g, input.palette).connectors, input.pointer);
    NoStartKeepsInfo(StartDrag(Spawn(g, input.palette)), Render(g, input.palette).connectors, input.pointer);
    if Tick(g, input).Ok? {
      TickEnd(g, input);
    }
  }

  /** Without a deferred drop, the drag recorded after a tick is the one the last connector
      reporting a drag start began. */
  lemma TickRecordsLastDragStart(g: Graph, input: TickInput, j: nat)
    requires Valid(g) && !g.nextFrameLinkDropped
    requires var cs := Render(g, input.palette).connectors;
             && j < |cs| && cs[j].id in input.pointer.dragStarted
             && forall i :: j < i < |cs| ==> cs[i].id !in input.pointer.dragStarted
    ensures Tick(g, input).Ok? ==>
              Tick(g, input).value.linkDragInfo == Some(StartInfo(Render(g, input.palette).connectors[j]))
  {
    NoPendingDrop(StartDrag(Spawn(g, input.palette)), Render(g, input.palette).connectors, input.pointer);
    LastStartRecorded(StartDrag(Spawn(g, input.palette)), Render(g, input.palette).connectors, input.pointer, j);
    if Tick(g, input).Ok? {
      TickEnd(g, input);
    }
  }

  /** With a deferred drop of the recorded drag `info` and no new drag start, the tick's link is
      the one to the first connector in rendering order that qualifies, unless evaluation
      panics. */
  lemma TickLinksFirstQualifying(g: Graph, input: TickInput, info: DragInfo, j: nat)
    requires Valid(g) && g.nextFrameLinkDropped && g.linkDragInfo == Some(info)
    requires var cs := Render(g, input.palette).connectors;
             && (forall i :: 0 <= i < |cs| ==> cs[i].id !in input.pointer.dragStarted)
             && j < |cs| && Qualifies(info, cs[j], input.pointer)
             && (forall i :: 0 <= i < j ==> !Qualifies(info, cs[i], input.pointer))
    ensures Tick(g, input).Ok? ==>
              Tick(g, input).value.links == g.links + [Oriented(info, Render(g, input.palette).connectors[j])]
  {
    FirstQualifyingWins(StartDrag(Spawn(g, input.palette)), info, Render(g, input.palette).connectors, j, input.pointer);
  }

  /** With a deferred drop and no connector qualifying, the drop is abandoned: no link. */
  lemma TickAbandonsUnmatchedDrop(g: Graph, input: TickInput, info: DragInfo)
    requires Valid(g) && g.nextFrameLinkDropped && g.linkDragInfo == Some(info)
    requires var cs := Render(g, input.palette).connectors;
             && (forall i :: 0 <= i < |cs| ==> cs[i].id !in input.pointer.dragStarted)
             && (forall i :: 0 <= i < |cs| ==> !Qualifies(info, cs[i], input.pointer))
    ensures Tick(g, input).Ok? ==>
              var r := Tick(g, input).value;
              r.links == g.links && r.linkDragInfo.None? && !r.nextFrameLinkDropped
  {
    ResolveAbandons(g, input, info);
    if Tick(g, input).Ok? {
      TickEnd(g, input);
    }
  }

  /** The connector loops of such a tick keep the stored links and leave the drop pending. */
  lemma ResolveAbandons(g: Graph, input: TickInput, info: DragInfo)
    requires Valid(g) && g.nextFrameLinkDropped && g.linkDragInfo == Some(info)
    requires var cs := Render(g, input.palette).connectors;
             && (forall i :: 0 <= i < |cs| ==> cs[i].id !in input.pointer.dragStarted)
             && (forall i :: 0 <= i < |cs| ==> !Qualifies(info, cs[i], input.pointer))
    ensures Resolve(g, input).Ok? && Resolve(g, input).value.links == g.links && Resolve(g, input).value.linkDropped
  {
    NoQualifyingKeepsDrop(StartDrag(Spawn(g, input.palette)), info, Render(g, input.palette).connectors, input.pointer);
  }

  /** A tick that does not panic leaves no two links sharing an input or an output. */
  lemma TickLinksDistinct(g: Graph, input: TickInput)
    requires Valid(g) && Tick(g, input).Ok?
    ensures var links := Tick(g, input).value.links;
            forall a, b :: 0 <= a < b < |links| ==> links[a].input != links[b].input && links[a].output != links[b].output
  {
    var g1 := Spawn(g, input.palette);
    var rendered := Render(g, input.palette);
    RenderAllReady(g1.nodes, g1.nextSlot);
    EvaluatedLinksDistinct(Eval(Shown(g, input.palette), {}, {}), rendered.inputs, rendered.outputs, Resolve(g, input).value.links);
  }
}
