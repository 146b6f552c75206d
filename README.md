# Factory-Designer node graph, modelled in Dafny

Factory-Designer is an egui application for wiring boxes ("nodes") together on a canvas.
Each node shows input connectors on its left and output connectors on its right. The user drags
from one connector to another to create a link. Every frame ("tick"), each link pulls a value
out of its output connector and hands it to its input connector.

This project models the core of that program:

- the `NodeGraph` object, with its bookkeeping (`new`, `register_node`, `add_node`) and the
  whole tick `show_inside`: the palette spawn, the node loop that collects connectors and
  resolves the drag-to-link gesture, the link loop that evaluates every link, and the
  end-of-tick clear;
- the typed connector protocol: `NodeInput` and `NodeOutput` descriptors, their type tokens
  (`TypeId`, with the two private sentinel types for callback-less connectors) and the
  checked downcast;
- the default `Node::show`, which turns a node's `body()` into the two ordered connector lists
  the graph consumes;
- the four sample node kinds: adder, one-to-N, sink and source.

## Shape of the model

Modules follow the program's files, except that `src/node_graph.rs` is split into five:
`NodeArena`, `LinkDrag`, `LinkEvaluation`, `GraphTick` and `NodeGraph`.

| Module | Contents |
|---|---|
| `Any` | `TypeId` as `TypeToken` and `Box<dyn Any>` as `Value`. |
| `NodeInput`, `NodeOutput` | The connector descriptors and their constructors. |
| `Node` | The `body()` result and the default `show`, as an imperative method with loops. |
| `AdderNode`, `OneToNNode`, `SinkNode`, `SourceNode` | The sample kinds. Their `RefCell` cells are fields of a value; each callback is a function from the node to the node. |
| `AnyNode` | `Box<dyn Node>` as a closed sum of the four kinds, with dispatch. |
| `NodeArena` | The node slot map, keyed by allocation slot. |
| `LinkDrag` | One connector's step of the drag/drop state machine (`ResolveConnector`), folded over a tick's connectors (`ResolveAll`). |
| `LinkEvaluation` | One link's step of the link loop (`EvaluateLink`), folded over the link list (`EvaluateAll`). |
| `GraphTick` | The graph state as a value, and one whole tick as a function `Tick`, with the lemmas about ticks. |
| `NodeGraph` | The class `NodeGraph`, whose fields the methods update in place. Its `ShowInside` method follows `show_inside` loop by loop; its `ensures` proves it computes exactly `GraphTick.Tick`. |
| `Scenarios` | A whole tick on a concrete graph: a source feeding a sink. |

### Modelling choices

- **Panics.** Every `unwrap` that can fail, and the `u8` `add_assign` overflow of the
  one-to-N counter (debug build), becomes `Err(panic)` of a `Result`. A panic aborts the tick.
- **Closures.** Value closures are named (`Callbacks.InputAction`, `Callbacks.OutputAction`).
  The graph applies the named action to the node whose `body()` produced the closure.
- **Capture test and pointer events.** The capture distance test `distance_sq <= 100.0` is
  the `withinCapture` set of connectors. Drag starts and stops on connectors are the
  `dragStarted` and `dragStopped` sets. Both are inputs of a tick.
- **When a drop resolves.** The code reads `next_frame_link_dropped` into `link_dropped` at the
  start of a tick (src/node_graph.rs:117) and sets `next_frame_link_dropped` when a drag stops
  (src/node_graph.rs:168-170). A drag stopped in one tick is therefore matched against
  connectors only in the **following** tick, never in the same one.
- **Palette.** A palette prototype's clone is shown (its `body()` runs) before it is added. So a
  spawned one-to-N node starts with `output_count == 1`, not 0 (`AnyNode.AfterShow`).

## Model

| member | source | states |
|---|---|---|
| Any.TypeIdOf | src/node_input.rs:17-19 | No boxed value has the input sentinel's type (it is an empty enum); a value is a `u8` exactly when its token is that of `u8`. |
| Any.Downcast | src/node_input.rs:29 | `downcast::<T>()` succeeds exactly when the value's type is `T`, and then hands back the same value. |
| NodeInput.Deliver | src/node_input.rs:29 | A callback-less input ignores any value. A typed input succeeds exactly on a value of its type, delivering it unchanged to the node's callback; any other value is the downcast panic. |
| NodeInput.New | src/node_input.rs:23-32 | The connector's token is `T`, its UI closure is the given one, and its callback downcasts to `T` before calling the user closure. |
| NodeInput.WithUi | src/node_input.rs:35-41 | The connector has no input callback and carries the input sentinel, which is neither a user type nor the output sentinel. |
| NodeInput.Input | src/node_input.rs:44-50 | Like `new`, with the no-op UI closure. |
| NodeInput.None | src/node_input.rs:53-59 | No callback, the no-op UI closure, the input sentinel. |
| NodeInput.TypedInputDelivers | src/node_input.rs:29 | For a typed input: a value tagged `T` is delivered unchanged; any other tag is the fatal downcast failure. |
| NodeInput.CallbacklessInputIgnores | src/node_input.rs:38 | The `ui`/`none` input callback accepts and discards any value. |
| NodeOutput.New | src/node_output.rs:23-32 | The connector's token is `T`, its UI closure is the given one, and its callback boxes what the producer returns. |
| NodeOutput.WithUi | src/node_output.rs:35-41 | No output callback; the output sentinel, which is not a user type. |
| NodeOutput.Output | src/node_output.rs:44-50 | Like `new`, with the no-op UI closure. |
| NodeOutput.None | src/node_output.rs:53-59 | No callback, the no-op UI closure, the output sentinel. |
| NodeOutput.BoxedValueHasDeclaredType | src/node_output.rs:29-30 | Whatever a well-formed output yields is tagged with exactly its declared `output_type`: the invariant that makes the downcast at the receiving input safe. |
| NodeOutput.CallbacklessConnectorsNeverMatch | src/node_output.rs:9-19 | A connector without a callback can never be linked: its token equals no token of the other direction, the other sentinel included. |
| NodeOutput.CallbacklessOutputYieldsMarker | src/node_output.rs:38 | A `ui`/`none` output yields the `EmptyNodeOutput` marker, whose tag is the output's declared token. |
| Node.Show | src/node.rs:31-69 | Entry `j` of each returned list carries connector `j`'s token and callback, in order and with the same length. Every UI closure runs exactly once: inputs first, then the interior, then outputs. No value callback is invoked. |
| AnyNode.Title | src/node.rs:19 | Defines `title()` by dispatch on the node's kind; `TitleNamesKind` states what it guarantees. |
| AnyNode.TitleNamesKind | src/node.rs:19 | The four titles are distinct, so two nodes have the same title exactly when they are of the same kind. |
| AnyNode.BodyOf | src/node.rs:26 | `body()` keeps the node's kind and hands out connectors whose callbacks act on that kind with the types their closures take. Only the one-to-N node changes. |
| AnyNode.Body | src/node.rs:26 | The dispatching `body()` method yields what `BodyOf` describes. |
| AnyNode.ShowOf | src/node.rs:31-69 | `show` calls `body()` once: the node afterwards is as that one call leaves it, and every connector handed out fits the node's kind. |
| AnyNode.AfterShow | src/nodes/one_to_n_node.rs:33 | `show` keeps the node's kind. A one-to-N node keeps `value_1` and has its counter reset to 1. Every other node is unchanged (the slider's write is not modelled, see below). |
| AnyNode.Show | src/node.rs:31-69 | The `show` method yields what `ShowOf` describes. |
| AnyNode.ShowIdempotent | src/node_graph.rs:90-102 | Showing a palette clone a second time while it is dragged leaves it as one showing does. |
| AnyNode.Accept | src/node_graph.rs:250 | Running an input callback keeps the node's kind. |
| AnyNode.Pull | src/node_graph.rs:250 | Running an output callback yields a value of the declared type and keeps the node's kind. It panics exactly when a one-to-N counter is at 255. Only a one-to-N node changes. |
| AnyNode.SourceToSink | src/nodes/source_node.rs:22 | A source's output delivered into a sink makes the sink hold the source's value and leaves the source unchanged. |
| AnyNode.AdderAddsDelivered | src/nodes/adder_node.rs:27-47 | Values `x` and `y` delivered to the adder's two inputs make its output yield `(x + y) mod 256`, and pulling leaves both cells alone. |
| AdderNode.Default | src/nodes/adder_node.rs:8-12 | A default adder has both cells 0. |
| AdderNode.Title | src/nodes/adder_node.rs:15-17 | Defines the adder's title, "Adder". |
| AdderNode.WrappingAdd | src/nodes/adder_node.rs:46 | `wrapping_add`: the sum when it fits in a byte, the sum less 256 otherwise. |
| AdderNode.Body | src/nodes/adder_node.rs:19-49 | Two `u8` inputs feeding `value_1` and `value_2`, a no-op interior, one `u8` output producing the sum. |
| AdderNode.SetValue1 | src/nodes/adder_node.rs:31-33 | The first input replaces `value_1` and leaves `value_2` alone. |
| AdderNode.SetValue2 | src/nodes/adder_node.rs:38-40 | The second input replaces `value_2` and leaves `value_1` alone. |
| AdderNode.Sum | src/nodes/adder_node.rs:46 | The output yields the two cells' sum modulo 256. |
| AdderNode.SumOfDelivered | src/nodes/adder_node.rs:46 | After both inputs are delivered, in either order, the output yields their sum modulo 256. |
| AdderNode.SumWraps | src/nodes/adder_node.rs:46 | 250 and 10 give 4. |
| OneToNNode.Default | src/nodes/one_to_n_node.rs:9-13 | A default node has `value_1 == 0` and `output_count == 0`. |
| OneToNNode.Title | src/nodes/one_to_n_node.rs:16-18 | Defines the one-to-N node's title, "OneToN". |
| OneToNNode.BodyOf | src/nodes/one_to_n_node.rs:20-44 | `body()` yields one `u8` input feeding `value_1` and exactly `output_count` `u8` outputs (the count read before the reset). Afterwards `output_count == 1`. |
| OneToNNode.Body | src/nodes/one_to_n_node.rs:27-34 | The loop that pushes the outputs, then the reset, yields what `BodyOf` describes. |
| OneToNNode.SetValue1 | src/nodes/one_to_n_node.rs:36-38 | The input replaces `value_1` and leaves the counter alone. |
| OneToNNode.Pull | src/nodes/one_to_n_node.rs:29-32 | An output yields `value_1` and adds one to the counter. It panics exactly when the counter is 255. |
| OneToNNode.PulledOutputsGrowNextBody | src/nodes/one_to_n_node.rs:28-34 | After a body call, pulling `p` outputs leaves the counter at `1 + p`, so the next body has `1 + p` outputs. |
| OneToNNode.DefaultBodies | src/nodes/one_to_n_node.rs:28-34 | A default node's first body has no outputs, and its second body has one. |
| SinkNode.Default | src/nodes/sink_node.rs:8-11 | A default sink holds 0. |
| SinkNode.Title | src/nodes/sink_node.rs:14-16 | Defines the sink's title, "Sink". |
| SinkNode.Body | src/nodes/sink_node.rs:18-35 | One `u8` input storing into `value`, a no-op interior, no outputs. |
| SinkNode.Store | src/nodes/sink_node.rs:30 | The input callback replaces `value` with the delivered value. |
| SourceNode.Default | src/nodes/source_node.rs:9-12 | A default source holds 0. |
| SourceNode.Title | src/nodes/source_node.rs:15-17 | Defines the source's title, "Source". |
| SourceNode.Body | src/nodes/source_node.rs:19-23 | No inputs, a no-op interior, one `u8` output reading `value`. |
| SourceNode.Read | src/nodes/source_node.rs:22 | Defines the output's callback: it reads the cell. `AnyNode.SourceToSink` and `LinkEvaluation.LinkCopiesSourceIntoSink` state what a link from it does. |
| GraphTick.Empty | src/node_graph.rs:44-58 | A new graph has no nodes, prototypes or links, no drag and no pending drop, the palette disabled, and satisfies the graph invariant. |
| GraphTick.Register | src/node_graph.rs:64-66 | Registering appends exactly one prototype at the end, with no deduplication, and changes nothing else. |
| GraphTick.AddNode | src/node_graph.rs:72-74 | The returned key was not in the graph. The node and its position are stored under it, every other entry is unchanged, and the invariant is kept. |
| GraphTick.LastStopped | src/node_graph.rs:90-109 | The palette entry added is the last one in list order that reported a drag stop; none is chosen when none stopped. |
| GraphTick.Spawn | src/node_graph.rs:87-115 | With the palette enabled and a drop position, the clone of the last dropped prototype, as its preview left it, is added at the drop position under a fresh key. Otherwise nothing changes. |
| GraphTick.SpawnKeepsKinds | src/node_graph.rs:87-115 | The palette step keeps every stored node and its kind. |
| GraphTick.NodeConnectors | src/node_graph.rs:155-226 | A node contributes its inputs' connectors, then its outputs', all owned by that node. |
| GraphTick.NodeInputs | src/node_graph.rs:155-156 | Input `j` of a node is pushed as `(node, j, callback)`, in order. |
| GraphTick.NodeOutputs | src/node_graph.rs:191-192 | Output `j` of a node is pushed as `(node, j, callback)`, in order. |
| GraphTick.RenderedNodes | src/node_graph.rs:146-154 | The node loop keeps every key, position and kind; each node shown so far is as its `show` left it. |
| GraphTick.RenderAll | src/node_graph.rs:146-232 | Defines the node loop's collection: each node's connectors, inputs and outputs, appended in slot order. `RenderAllReady` and `RenderErrPersists` state its properties. |
| GraphTick.Shows | src/node_graph.rs:146-154 | The node loop shows the nodes in slot order. |
| GraphTick.RenderErrPersists | src/node_graph.rs:172 | A panic in the connector loops of some node is the panic of the whole tick. |
| GraphTick.RenderAllReady | src/node_graph.rs:146-232 | Every connector collected in a tick belongs to a stored node, and its callback fits that node's kind. |
| GraphTick.EndTick | src/node_graph.rs:284-287 | Defines the end of a tick. `TickEnd` and `TickAbandonsUnmatchedDrop` state what it leaves. |
| GraphTick.ShowAll | src/node_graph.rs:117-287 | Defines the node loop, the link loop and the end clear as one function. The `Tick` lemmas below state its properties. |
| GraphTick.Tick | src/node_graph.rs:83-288 | Defines `show_inside`: the palette step, then `ShowAll`. The lemmas below state its properties. |
| GraphTick.TickEnd | src/node_graph.rs:284-287 | After a tick, the links are those resolution left. A drop still pending at the end is abandoned: no drag recorded, no drop deferred. |
| GraphTick.TickPreservesValid | src/node_graph.rs:83-288 | A tick keeps the invariant: keys are exactly the allocated slots, and the drag record and every link mention stored nodes only. |
| GraphTick.TickKeepsNodes | src/node_graph.rs:83-288 | A tick keeps the palette, its setting, and every node with its kind. |
| GraphTick.TickLinks | src/node_graph.rs:171-189 | A tick appends at most one link and never removes or reorders stored ones. A new link needs a drop deferred from the previous tick. A deferred drop that links nothing is cleared. |
| GraphTick.TickWithoutPendingDrop | src/node_graph.rs:117 | Without a deferred drop, a tick links nothing and its connector loops cannot panic. The next tick has a pending drop exactly when some connector reported a drag stop. |
| GraphTick.TickKeepsDragWithoutStart | src/node_graph.rs:165-167 | Without a deferred drop or a drag start, the recorded drag survives the tick. |
| GraphTick.TickRecordsLastDragStart | src/node_graph.rs:165-167 | Without a deferred drop, the recorded drag is the one begun by the last connector in rendering order that reported a drag start. |
| GraphTick.TickLinksFirstQualifying | src/node_graph.rs:171-189 | With a deferred drop and no new drag start, the tick's one new link goes to the first qualifying connector in rendering order (node order, inputs before outputs, index order). |
| GraphTick.TickAbandonsUnmatchedDrop | src/node_graph.rs:284-287 | A deferred drop that no connector qualifies for adds no link and ends with no drag and no pending drop. |
| GraphTick.TickLinksDistinct | src/node_graph.rs:244-245 | After a tick that does not panic, no two links share an input end or an output end. |
| LinkDrag.OrientedInputFirst | src/node_graph.rs:181-187 | Whichever end the drag began at, a stored link has its input end first. |
| LinkDrag.Qualifies | src/node_graph.rs:171-177 | Defines the connector a pending drop links to: opposite direction, same type token, within capture distance. `ResolveConnector` states that a link is made exactly then. |
| LinkDrag.Oriented | src/node_graph.rs:181-187 | Defines the stored link; `OrientedInputFirst` states that its input end comes first. |
| LinkDrag.ResolveConnector | src/node_graph.rs:165-189 | A pending drop with no recorded drag panics. A link is appended exactly when a drop is pending and the connector has the opposite direction, the same token and is within capture distance. A link clears the drag and the pending drop. Otherwise a drag start records the connector and a drag stop defers a drop to the next tick. |
| LinkDrag.ResolveAll | src/node_graph.rs:155-226 | The connector loops' only panic is a drop pending with no recorded drag. The stored links are only ever appended to, never removed or reordered. |
| LinkDrag.ResolveErrPersists | src/node_graph.rs:172 | Once a connector loop panics, later connectors do not change the outcome. |
| LinkDrag.AtMostOneLink | src/node_graph.rs:179-188 | Over any run of connectors, either nothing is linked and the pending flag is unchanged, or exactly one link is appended and the pending drop is consumed. |
| LinkDrag.NoPendingDrop | src/node_graph.rs:171 | Without a pending drop nothing is linked and nothing panics. |
| LinkDrag.NoPendingDropDefers | src/node_graph.rs:168-170 | Without a pending drop, the deferred-drop flag ends raised exactly when it was already raised or some connector reported a drag stop. |
| LinkDrag.NoStartKeepsInfo | src/node_graph.rs:165-167 | Without a pending drop and without a drag start, the drag record is unchanged. |
| LinkDrag.LastStartRecorded | src/node_graph.rs:165-167 | Without a pending drop, the drag record is that of the last connector reporting a drag start. |
| LinkDrag.NoQualifyingKeepsDrop | src/node_graph.rs:171-177 | While a drop is pending, connectors that do not qualify leave the drag, the pending drop and the links unchanged. |
| LinkDrag.FirstQualifyingWins | src/node_graph.rs:179-188 | While a drop is pending, the first qualifying connector gets the link, and the drag is then over. |
| LinkDrag.ResolveRefersTo | src/node_graph.rs:181-187 | Resolution records drags and links that mention only nodes already mentioned or rendered. |
| LinkEvaluation.Nth | src/node_graph.rs:234-238 | `filter(..).nth(n)` finds a position exactly when the node owns more than `n` entries; the position holds that node's `n`-th entry. |
| LinkEvaluation.Produce | src/node_graph.rs:250 | `end.2()`: a callback-less output yields the empty-output marker and changes nothing. A typed output yields a value of its declared type and keeps every node's kind. |
| LinkEvaluation.Consume | src/node_graph.rs:250 | `start.2(value)` panics exactly when a typed input gets a value of another type. A callback-less input changes nothing. |
| LinkEvaluation.EvaluateLink | src/node_graph.rs:234-250 | A missing input connector, then a missing output connector, then a reused input, then a reused output, each panics with its own reason. A successful link marks both connectors used and keeps every node's kind. |
| LinkEvaluation.EvaluateAll | src/node_graph.rs:233-251 | The link loop keeps every node's kind and only ever adds used connectors. |
| LinkEvaluation.EvaluateErrPersists | src/node_graph.rs:233-251 | A panic on one link ends the loop: later links are never evaluated. |
| LinkEvaluation.EvaluatedLinksFound | src/node_graph.rs:244-245 | Every link evaluated without a panic found both its connectors this tick and removed them. |
| LinkEvaluation.EvaluatedLinksDistinct | src/node_graph.rs:244-245 | From any evaluation state, a link loop without a panic has no two links sharing an input end or an output end. |
| LinkEvaluation.AgreeingLinkDelivers | src/node_graph.rs:250 | A link between unused connectors whose types agree never fails its downcast. Its only possible panic is the one-to-N counter overflowing. |
| LinkEvaluation.LinkDeliversPulledValue | src/node_graph.rs:250 | A link that evaluates without a panic pulls a value from the output's node and hands exactly that value to the input's node, as the pull left it. A callback-less output can pair only with a callback-less input, and changes nothing. |
| LinkEvaluation.LinkCopiesSourceIntoSink | src/node_graph.rs:250 | A link from a source's output to a sink's input, both unused this tick, does not panic. The sink then holds the source's value and keeps its position, and every other node, the source included, is unchanged. |
| NodeGraph.NodeGraph.constructor | src/node_graph.rs:44-58 | The new object's state is the empty graph, which satisfies the invariant. |
| NodeGraph.NodeGraph.RegisterNode | src/node_graph.rs:64-66 | The new state is `Register` of the old one; the invariant is kept. |
| NodeGraph.NodeGraph.SetSelectorPanelEnabled | src/node_graph.rs:37 | Only the public palette flag changes. |
| NodeGraph.NodeGraph.AddNode | src/node_graph.rs:72-74 | The new state and key are `AddNode` of the old state; the key was not present before. |
| NodeGraph.NodeGraph.PickFromPalette | src/node_graph.rs:88-110 | The palette loop picks the last prototype whose drag stopped while the pointer had a position, as its preview left it. |
| NodeGraph.NodeGraph.SpawnFromPalette | src/node_graph.rs:87-115 | The new state is `Spawn` of the old one. |
| NodeGraph.NodeGraph.ResolveConnectorStep | src/node_graph.rs:165-189 | One connector's step updates the drag fields and the links exactly as `ResolveConnector` says, or reports its panic. |
| NodeGraph.NodeGraph.CollectInputs | src/node_graph.rs:155-190 | The input loop pushes every input and resolves its connectors as `ResolveAll` over them says, or reports the first panic. |
| NodeGraph.NodeGraph.CollectOutputs | src/node_graph.rs:191-226 | The same for the output loop. |
| NodeGraph.NodeGraph.CollectConnectors | src/node_graph.rs:155-226 | The input loop, then the output loop, of one node. |
| NodeGraph.NodeGraph.ShowNode | src/node_graph.rs:146-231 | One pass of the node loop shows the node in place, then resolves its connectors, inputs first. |
| NodeGraph.NodeGraph.ShowSlot | src/node_graph.rs:146-231 | The pass for slot `s` extends the rendering of the slots below `s` by that node's rendering. A panic in it is the panic of the whole node loop. |
| NodeGraph.NodeGraph.ShowNodes | src/node_graph.rs:142-232 | The node loop renders every node in slot order, starting from the drop deferred by the previous tick. It ends with the drag state `ResolveAll` gives, or reports the first panic. |
| NodeGraph.NodeGraph.EvaluateLinks | src/node_graph.rs:233-251 | The link loop leaves the nodes as `EvaluateAll` says, or reports the first panic; nothing else changes. |
| NodeGraph.NodeGraph.EvaluateLinkStep | src/node_graph.rs:234-250 | One link's lookups, removals and value transfer are `EvaluateLink`. |
| NodeGraph.NodeGraph.EvaluateAndClear | src/node_graph.rs:284-287 | After the link loop, a drop still pending is abandoned as `EndTick` says. |
| NodeGraph.NodeGraph.ShowAllNodes | src/node_graph.rs:117-287 | The node loop, the link loop and the end clear compute `ShowAll` on the current state. |
| NodeGraph.NodeGraph.ShowInside | src/node_graph.rs:83-288 | `show_inside` either leaves exactly the state `Tick` gives or stops at the panic `Tick` reports. The invariant holds afterwards. |
| Scenarios.ShowSource | src/nodes/source_node.rs:19-23 | `show` on a source hands out no inputs and one `u8` output, and leaves the source unchanged. |
| Scenarios.ShowSink | src/nodes/sink_node.rs:18-35 | `show` on a sink hands out one `u8` input and no outputs, and leaves the sink unchanged. |
| Scenarios.EvaluateWire | src/node_graph.rs:233-251 | Evaluating the link from a source holding `x` to a sink copies `x` into the sink and uses up both connectors. |
| Scenarios.SourceFeedsSink | src/node_graph.rs:83-288 | One idle tick of a linked source holding `x` and sink holding `y` ends with the sink holding `x`, everything else unchanged. |

## Left out

- The viewport: the `TSTransform` pan and zoom (src/node_graph.rs:84-85, 122-140), screen
  positions, connector centre offsets and `distance_sq`. The capture test is an input set of
  connectors; the position in `link_drag_info` is dropped, as only the guide line uses it.
- All egui rendering and hit-testing: panels, areas, layers, painters, frames, labels,
  `ui.interact`, the drag guide line (src/node_graph.rs:267-282), and the widget `Id`s.
  Drag starts and stops are input events. UI closures are named, not run.
- The source node's slider writing `value` through `borrow_mut`. The slider is the output's
  `ui_callback` (src/nodes/source_node.rs:22), run by `Node::show` (src/node.rs:58) inside the
  node loop, before the link loop reads `value`. That write is not modelled: `AnyNode.AfterShow`
  and `Scenarios.SourceFeedsSink` describe a tick in which the user does not move the slider.
- `NodeGraph::show` (src/node_graph.rs:78-80): it only wraps `show_inside` in a central panel.
- Open-ended `dyn Node`: the model has a closed sum of the four sample kinds. `dyn_clone`,
  lifetimes and `RefCell` become plain values.
- Node removal: the source has none, so keys are allocation slots and the slot map iterates
  in slot order.
- src/main.rs, src/nodes/graph_node.rs, src/createable_node.rs, src/sink_node.rs and
  src/source_node.rs are not part of this model. They are application bootstrap, a nested graph
  that only renders, a bare trait, and two files not compiled into the crate.
- The state after a panic: `NodeGraph.ShowInside` reports the panic and says nothing about
  the fields, since the program aborts.
- OneToNNode.Pull: models the debug-build panic at 255. A release build would wrap the counter
  to 0 instead.
- GraphTick.TickLinks: the clearing claim is stated only for a tick that appends no link,
  because a new drag can start after the link in the same tick and is then kept.
- LinkEvaluation.AgreeingLinkDelivers: the agreement of types is a premise. It is not derived
  from the drag rule's token equality, because a link names its connectors by position, and
  the connector at a position can differ in a later tick.
- Adder scenario: the "250 + 10 = 4" example is proved on the node (`AdderNode.SumWraps`,
  `AnyNode.AdderAddsDelivered`), not as a whole tick of a wired graph.
