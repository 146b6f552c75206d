/** Link evaluation at the end of a tick: every stored link, in order, pulls a value out of its
    output connector and hands it to its input connector. */
module LinkEvaluation {
  import opened Wrappers
  import opened Any
  import opened Callbacks
  import NodeInput
  import NodeOutput
  import opened AnyNode
  import SinkNode
  import opened NodeArena
  import opened LinkDrag

  /** An entry of the tick's input list: the owning node, the connector's position among that
      node's inputs, and its callback. */
  datatype CollectedInput = CollectedInput(node: NodeKey, index: nat, callback: NodeInput.InputCallback<InputAction>)

  /** An entry of the tick's output list. */
  datatype CollectedOutput = CollectedOutput(node: NodeKey, index: nat, callback: NodeOutput.OutputCallback<OutputAction>)

  /** The owning node of each input entry, the key that `filter` compares. */
  function InputOwners(ins: seq<CollectedInput>): (r: seq<NodeKey>)
    ensures |r| == |ins| && forall p :: 0 <= p < |ins| ==> r[p] == ins[p].node
  {
    seq(|ins|, p requires 0 <= p < |ins| => ins[p].node)
  }

  /** The owning node of each output entry. */
  function OutputOwners(outs: seq<CollectedOutput>): (r: seq<NodeKey>)
    ensures |r| == |outs| && forall p :: 0 <= p < |outs| ==> r[p] == outs[p].node
  {
    seq(|outs|, p requires 0 <= p < |outs| => outs[p].node)
  }

  /** How many entries of `owners` are `key`. */
  function Count(owners: seq<NodeKey>, key: NodeKey): nat {
    if owners == [] then 0
    else (if owners[0] == key then 1 else 0) + Count(owners[1..], key)
  }

  /** `filter(|(k, _)| *k == key).nth(n)`: the position of the `n`-th entry owned by `key`. */
  function Nth(owners: seq<NodeKey>, key: NodeKey, n: nat): (r: Option<nat>)
    ensures r.Some? <==> n < Count(owners, key)
    ensures r.Some? ==> r.value < |owners| && owners[r.value] == key && Count(owners[..r.value], key) == n
  {
    if owners == [] then None
    else if owners[0] == key && n == 0 then
      assert owners[..0] == [];
      Some(0)
    else
      var n' := if owners[0] == key then n - 1 else n;
      var r := Nth(owners[1..], key, n');
      if r.None? then None
      else
        assert owners[..r.value + 1] == [owners[0]] + owners[1..][..r.value];
        Some(r.value + 1)
  }

  /** Every collected connector belongs to a stored node and its callback fits that node's kind:
      what makes running the callbacks well defined. */
  predicate Ready(nodes: Nodes, ins: seq<CollectedInput>, outs: seq<CollectedOutput>) {
    && (forall p :: 0 <= p < |ins| ==> ins[p].node in nodes && InputBound(KindOf(nodes[ins[p].node].node), ins[p].callback))
    && (forall p :: 0 <= p < |outs| ==> outs[p].node in nodes && OutputBound(KindOf(nodes[outs[p].node].node), outs[p].callback))
  }

  lemma ReadyAcrossSameKinds(m1: Nodes, m2: Nodes, ins: seq<CollectedInput>, outs: seq<CollectedOutput>)
    requires Ready(m1, ins, outs) && SameKinds(m1, m2)
    ensures Ready(m2, ins, outs)
  {
  }

  /** The evaluation state: the nodes and the positions already removed from the two lists. */
  datatype Eval = Eval(nodes: Nodes, usedInputs: set<nat>, usedOutputs: set<nat>)

  /** Running an output callback (`end.2()`): a callback-less output boxes the empty-output
      marker; otherwise the owning node produces a value. */
  function Produce(nodes: Nodes, src: CollectedOutput): (r: Result<(Value, Nodes)>)
    requires src.node in nodes && OutputBound(KindOf(nodes[src.node].node), src.callback)
    ensures r.Ok? ==> SameKinds(nodes, r.value.1)
    ensures r.Ok? ==> TypeIdOf(r.value.0) == if src.callback.Emit? then src.callback.t else EmptyNodeOutput
    ensures src.callback.EmitEmpty? ==> r == Ok((EmptyNodeOutputValue, nodes))
  {
    match src.callback
    case EmitEmpty => Ok((EmptyNodeOutputValue, nodes))
    case Emit(_, a) =>
      var pulled := Pull(nodes[src.node].node, a);
      if pulled.Err? then Err(pulled.panic)
      else Ok((pulled.value.0, Replace(nodes, src.node, pulled.value.1)))
  }

  /** Running an input callback (`start.2(value)`): a callback-less input drops the value;
      otherwise the value is downcast and handed to the owning node. */
  function Consume(nodes: Nodes, dst: CollectedInput, v: Value): (r: Result<Nodes>)
    requires dst.node in nodes && InputBound(KindOf(nodes[dst.node].node), dst.callback)
    ensures r.Ok? ==> SameKinds(nodes, r.value)
    ensures r.Err? <==> dst.callback.DowncastInto? && TypeIdOf(v) != dst.callback.t
    ensures dst.callback.Discard? ==> r == Ok(nodes)
  {
    var delivery := NodeInput.Deliver(dst.callback, v);
    if delivery.Err? then Err(delivery.panic)
    else if delivery.value.Ignored? then Ok(nodes)
    else Ok(Replace(nodes, dst.node, Accept(nodes[dst.node].node, delivery.value.user, delivery.value.value)))
  }

  /** Where the link's input end is in the tick's input list, if that connector exists. */
  function InputPosition(ins: seq<CollectedInput>, l: Link): Option<nat> {
    Nth(InputOwners(ins), l.input.node, l.input.index)
  }

  /** Where the link's output end is in the tick's output list, if that connector exists. */
  function OutputPosition(outs: seq<CollectedOutput>, l: Link): Option<nat> {
    Nth(OutputOwners(outs), l.output.node, l.output.index)
  }

  /** Both ends of `l` exist this tick and their positions have been removed in `e`. */
  predicate Removed(e: Eval, ins: seq<CollectedInput>, outs: seq<CollectedOutput>, l: Link) {
    && InputPosition(ins, l).Some? && InputPosition(ins, l).value in e.usedInputs
    && OutputPosition(outs, l).Some? && OutputPosition(outs, l).value in e.usedOutputs
  }

  /** One iteration of the evaluation loop: find both connectors (panicking if either is
      missing), remove them (panicking if either is already gone), then pull and deliver. */
  function EvaluateLink(e: Eval, ins: seq<CollectedInput>, outs: seq<CollectedOutput>, l: Link): (r: Result<Eval>)
    requires Ready(e.nodes, ins, outs)
    ensures InputPosition(ins, l).None? ==> r == Err(InputConnectorMissing)
    ensures InputPosition(ins, l).Some? && OutputPosition(outs, l).None? ==> r == Err(OutputConnectorMissing)
    ensures InputPosition(ins, l).Some? && OutputPosition(outs, l).Some? ==>
              && (InputPosition(ins, l).value in e.usedInputs ==> r == Err(InputConnectorReused))
              && (InputPosition(ins, l).value !in e.usedInputs && OutputPosition(outs, l).value in e.usedOutputs ==> r == Err(OutputConnectorReused))
    ensures r.Ok? ==>
              && SameKinds(e.nodes, r.value.nodes)
              && r.value.usedInputs == e.usedInputs + {InputPosition(ins, l).value}
              && r.value.usedOutputs == e.usedOutputs + {OutputPosition(outs, l).value}
  {
    var ip := InputPosition(ins, l);
    var op := OutputPosition(outs, l);
    if ip.None? then Err(InputConnectorMissing)
    else if op.None? then Err(OutputConnectorMissing)
    else if ip.value in e.usedInputs then Err(InputConnectorReused)
    else if op.value in e.usedOutputs then Err(OutputConnectorReused)
    else
      var produced := Produce(e.nodes, outs[op.value]);
      if produced.Err? then Err(produced.panic)
      else
        var (v, nodes') := produced.value;
        ReadyAcrossSameKinds(e.nodes, nodes', ins, outs);
        var consumed := Consume(nodes', ins[ip.value], v);
        if consumed.Err? then Err(consumed.panic)
        else Ok(Eval(consumed.value, e.usedInputs + {ip.value}, e.usedOutputs + {op.value}))
  }

  /** The evaluation loop over the stored links, in order; the first panic ends it. */
  function EvaluateAll(e: Eval, ins: seq<CollectedInput>, outs: seq<CollectedOutput>, links: seq<Link>): (r: Result<Eval>)
    requires Ready(e.nodes, ins, outs)
    ensures r.Ok? ==> SameKinds(e.nodes, r.value.nodes)
    ensures r.Ok? ==> e.usedInputs <= r.value.usedInputs && e.usedOutputs <= r.value.usedOutputs
    decreases |links|
  {
    if links == [] then Ok(e)
    else
      var prev := EvaluateAll(e, ins, outs, links[..|links| - 1]);
      if prev.Err? then prev
      else
        ReadyAcrossSameKinds(e.nodes, prev.value.nodes, ins, outs);
        EvaluateLink(prev.value, ins, outs, links[|links| - 1])
  }

  lemma EvaluateAllStep(e: Eval, ins: seq<CollectedInput>, outs: seq<CollectedOutput>, links: seq<Link>, l: Link)
    requires Ready(e.nodes, ins, outs)
    ensures var prev := EvaluateAll(e, ins, outs, links);
            prev.Ok? ==> Ready(prev.value.nodes, ins, outs)
    ensures var prev := EvaluateAll(e, ins, outs, links);
            EvaluateAll(e, ins, outs, links + [l]) == if prev.Err? then prev else EvaluateLink(prev.value, ins, outs, l)
  {
    assert (links + [l])[..|links|] == links;
    var prev := EvaluateAll(e, ins, outs, links);
    if prev.Ok? {
      ReadyAcrossSameKinds(e.nodes, prev.value.nodes, ins, outs);
    }
  }

  /** A panic ends the tick: later links are never evaluated. */
  lemma {:induction false} EvaluateErrPersists(e: Eval, ins: seq<CollectedInput>, outs: seq<CollectedOutput>, links: seq<Link>, more: seq<Link>)
    requires Ready(e.nodes, ins, outs)
    requires EvaluateAll(e, ins, outs, links).Err?
    ensures EvaluateAll(e, ins, outs, links + more) == EvaluateAll(e, ins, outs, links)
    decreases |more|
  {
    if more == [] {
      assert links + more == links;
    } else {
      var last := more[|more| - 1];
      EvaluateErrPersists(e, ins, outs, links, more[..|more| - 1]);
      assert links + more == (links + more[..|more| - 1]) + [last];
      EvaluateAllStep(e, ins, outs, links + more[..|more| - 1], last);
    }
  }

  /** Evaluating one more of the stored links. */
  lemma EvaluatePrefixStep(e: Eval, ins: seq<CollectedInput>, outs: seq<CollectedOutput>, links: seq<Link>, j: nat)
    requires Ready(e.nodes, ins, outs) && j < |links|
    ensures var prev := EvaluateAll(e, ins, outs, links[..j]);
            prev.Ok? ==> Ready(prev.value.nodes, ins, outs)
    ensures var prev := EvaluateAll(e, ins, outs, links[..j]);
            EvaluateAll(e, ins, outs, links[..j + 1]) == if prev.Err? then prev else EvaluateLink(prev.value, ins, outs, links[j])
  {
    assert links[..j + 1] == links[..j] + [links[j]];
    EvaluateAllStep(e, ins, outs, links[..j], links[j]);
  }

  /** A panic on the first links is the panic of the whole loop. */
  lemma {:induction false} EvaluateErrPrefix(e: Eval, ins: seq<CollectedInput>, outs: seq<CollectedOutput>, links: seq<Link>, j: nat)
    requires Ready(e.nodes, ins, outs) && j <= |links|
    requires EvaluateAll(e, ins, outs, links[..j]).Err?
    ensures EvaluateAll(e, ins, outs, links) == EvaluateAll(e, ins, outs, links[..j])
    decreases |links|
  {
    if j == |links| {
      assert links[..j] == links;
    } else {
      var p := links[..|links| - 1];
      assert p[..j] == links[..j];
      EvaluateErrPrefix(e, ins, outs, p, j);
    }
  }

  /** Every link evaluated without a panic found both its connectors this tick, and their
      positions are among those removed. */
  lemma {:induction false} EvaluatedLinksFound(e: Eval, ins: seq<CollectedInput>, outs: seq<CollectedOutput>, links: seq<Link>)
    requires Ready(e.nodes, ins, outs)
    requires EvaluateAll(e, ins, outs, links).Ok?
    ensures forall j :: 0 <= j < |links| ==> Removed(EvaluateAll(e, ins, outs, links).value, ins, outs, links[j])
    decreases |links|
  {
    if links != [] {
      var p := links[..|links| - 1];
      var l := links[|links| - 1];
      SplitLast(links);
      EvaluateAllStep(e, ins, outs, p, l);
      EvaluatedLinksFound(e, ins, outs, p);
      var before := EvaluateAll(e, ins, outs, p).value;
      var after := EvaluateAll(e, ins, outs, links).value;
      assert before.usedInputs <= after.usedInputs && before.usedOutputs <= after.usedOutputs;
      forall j | 0 <= j < |links|
        ensures Removed(after, ins, outs, links[j])
      {
        if j < |p| {
          assert links[j] == p[j];
          assert Removed(before, ins, outs, p[j]);
        }
      }
    }
  }

  /** Every prefix of a link list that evaluates without a panic does too. */
  lemma EvaluatePrefixOk(e: Eval, ins: seq<CollectedInput>, outs: seq<CollectedOutput>, links: seq<Link>, m: nat)
    requires Ready(e.nodes, ins, outs)
    requires m <= |links| && EvaluateAll(e, ins, outs, links).Ok?
    ensures EvaluateAll(e, ins, outs, links[..m]).Ok?
  {
    assert links == links[..m] + links[m..];
    if EvaluateAll(e, ins, outs, links[..m]).Err? {
      EvaluateErrPersists(e, ins, outs, links[..m], links[m..]);
    }
  }

  /** A non-empty list is its prefix without the last element, then that element. */
  lemma SplitLast(links: seq<Link>)
    requires links != []
    ensures links == links[..|links| - 1] + [links[|links| - 1]]
  {
  }

  /** A link loop without a panic has no two links sharing an input end or an output end: each
      connector is removed from its list by the first link that uses it, and a later link
      looking for it panics. */
  lemma {:induction false} EvaluatedLinksDistinct(e: Eval, ins: seq<CollectedInput>, outs: seq<CollectedOutput>, links: seq<Link>)
    requires Ready(e.nodes, ins, outs)
    requires EvaluateAll(e, ins, outs, links).Ok?
    ensures forall a, b :: 0 <= a < b < |links| ==> links[a].input != links[b].input && links[a].output != links[b].output
    decreases |links|
  {
    if links != [] {
      var p, l := links[..|links| - 1], links[|links| - 1];
      SplitLast(links);
      EvaluateAllStep(e, ins, outs, p, l);
      var prev := EvaluateAll(e, ins, outs, p).value;
      EvaluatedLinksDistinct(e, ins, outs, p);
      EvaluatedLinksFound(e, ins, outs, p);
      forall a, b | 0 <= a < b < |links|
        ensures links[a].input != links[b].input && links[a].output != links[b].output
      {
        assert links[a] == p[a];
        if b < |p| {
          assert links[b] == p[b];
        } else {
          assert Removed(prev, ins, outs, p[a]);
        }
      }
    }
  }

  /** The output's value reaches an input expecting its type: when the input downcasts to `t`,
      the output boxes values of type `t`. */
  predicate TypesAgree(dst: CollectedInput, src: CollectedOutput) {
    dst.callback.DowncastInto? ==> src.callback.Emit? && src.callback.t == dst.callback.t
  }

  /** A link between two connectors of this tick that no earlier link used, whose types agree,
      never fails its downcast: its only possible panic is the one-to-N counter overflowing. */
  lemma AgreeingLinkDelivers(e: Eval, ins: seq<CollectedInput>, outs: seq<CollectedOutput>, l: Link)
    requires Ready(e.nodes, ins, outs)
    requires InputPosition(ins, l).Some? && InputPosition(ins, l).value !in e.usedInputs
    requires OutputPosition(outs, l).Some? && OutputPosition(outs, l).value !in e.usedOutputs
    requires TypesAgree(ins[InputPosition(ins, l).value], outs[OutputPosition(outs, l).value])
    ensures EvaluateLink(e, ins, outs, l).Ok? || EvaluateLink(e, ins, outs, l) == Err(OutputCountOverflow)
  {
  }

  /** What a link that evaluates without a panic does to the nodes. The output's owner produces
      a value (`end.2()`), and the input's owner, as that step left it, receives the value
      (`start.2(value)`). A callback-less output can pair only with a callback-less input, which
      drops the marker. */
  lemma LinkDeliversPulledValue(e: Eval, ins: seq<CollectedInput>, outs: seq<CollectedOutput>, l: Link)
    requires Ready(e.nodes, ins, outs)
    requires EvaluateLink(e, ins, outs, l).Ok?
    ensures InputPosition(ins, l).Some? && OutputPosition(outs, l).Some?
    ensures var src := outs[OutputPosition(outs, l).value];
            var dst := ins[InputPosition(ins, l).value];
            src.callback.EmitEmpty? ==>
              dst.callback.Discard? && EvaluateLink(e, ins, outs, l).value.nodes == e.nodes
    ensures var src := outs[OutputPosition(outs, l).value];
            var dst := ins[InputPosition(ins, l).value];
            var r := EvaluateLink(e, ins, outs, l).value;
            src.callback.Emit? ==>
              var pulled := Pull(e.nodes[src.node].node, src.callback.producer);
              && pulled.Ok?
              && var mid := Replace(e.nodes, src.node, pulled.value.1);
                 && (dst.callback.Discard? ==> r.nodes == mid)
                 && (dst.callback.DowncastInto? ==>
                       r.nodes == Replace(mid, dst.node, Accept(mid[dst.node].node, dst.callback.user, pulled.value.0)))
  {
    var ip, op := InputPosition(ins, l).value, OutputPosition(outs, l).value;
    var src, dst := outs[op], ins[ip];
    var produced := Produce(e.nodes, src);
    assert produced.Ok?;
    var (v, mid) := produced.value;
    ReadyAcrossSameKinds(e.nodes, mid, ins, outs);
    var consumed := Consume(mid, dst, v);
    assert consumed.Ok?;
    assert EvaluateLink(e, ins, outs, l).value.nodes == consumed.value;
  }

  /** A link from a source node's output to a sink node's input, neither of them used yet this
      tick, copies the source's value into the sink and changes no other node, the source
      included. */
  lemma LinkCopiesSourceIntoSink(e: Eval, ins: seq<CollectedInput>, outs: seq<CollectedOutput>, l: Link)
    requires Ready(e.nodes, ins, outs)
    requires InputPosition(ins, l).Some? && InputPosition(ins, l).value !in e.usedInputs
    requires OutputPosition(outs, l).Some? && OutputPosition(outs, l).value !in e.usedOutputs
    requires ins[InputPosition(ins, l).value].callback.DowncastInto?
    requires outs[OutputPosition(outs, l).value].callback.Emit?
    requires l.output.node in e.nodes && e.nodes[l.output.node].node.Source?
    requires l.input.node in e.nodes && e.nodes[l.input.node].node.Sink?
    ensures var r := EvaluateLink(e, ins, outs, l);
            && r.Ok?
            && r.value.nodes.Keys == e.nodes.Keys
            && r.value.nodes[l.input.node].node == Sink(SinkNode.SinkNode(e.nodes[l.output.node].node.source.value))
            && r.value.nodes[l.input.node].position == e.nodes[l.input.node].position
            && forall k :: k in e.nodes && k != l.input.node ==> r.value.nodes[k] == e.nodes[k]
  {
    var ip := InputPosition(ins, l).value;
    var op := OutputPosition(outs, l).value;
    assert InputOwners(ins)[ip] == l.input.node && OutputOwners(outs)[op] == l.output.node;
    var source := e.nodes[l.output.node].node.source;
    SourceToSink(source, e.nodes[l.input.node].node.sink);
    LinkDeliversPulledValue(e, ins, outs, l);
  }
}
