/** The drag-to-link gesture: how each connector rendered in a tick advances the recorded drag,
    the deferred drop flag and the link list. */
module LinkDrag {
  import opened Wrappers
  import opened Any
  import opened NodeArena

  /** One end of a link, `(NodeKey, usize)`: a node and the position of the connector among that
      node's inputs, or among its outputs, in the tick's lists. */
  datatype End = End(node: NodeKey, index: nat)

  /** A stored link `((input node, input index), (output node, output index))`: the input side
      always comes first. */
  datatype Link = Link(input: End, output: End)

  /** A connector as the graph sees it in one tick: its node, its direction, its position in that
      direction's list, and its type token. */
  datatype ConnectorId = ConnectorId(node: NodeKey, isInput: bool, index: nat)
  datatype Connector = Connector(id: ConnectorId, t: TypeToken)

  /** `link_drag_info`: `(node, type, position, is_input, index)` without the position. */
  datatype DragInfo = DragInfo(node: NodeKey, t: TypeToken, isInput: bool, index: nat)

  /** What egui reports about the connectors in one tick: which had a drag start, which a drag
      stop, and which lie within the capture distance of the pointer (`distance_sq <= 100.0`). */
  datatype PointerEvents = PointerEvents(dragStarted: set<ConnectorId>, dragStopped: set<ConnectorId>, withinCapture: set<ConnectorId>)

  /** The state the connector loop updates: `link_drag_info`, `next_frame_link_dropped`, the
      local `link_dropped` and `links`. */
  datatype Drag = Drag(info: Option<DragInfo>, nextFrameDropped: bool, linkDropped: bool, links: seq<Link>)

  /** What a drag starting on `c` records. */
  function StartInfo(c: Connector): DragInfo {
    DragInfo(c.id.node, c.t, c.id.isInput, c.id.index)
  }

  /** The drag record once `c`'s drag-start event, if any, has been handled. */
  function InfoAfterStart(d: Drag, c: Connector, ev: PointerEvents): Option<DragInfo> {
    if c.id in ev.dragStarted then Some(StartInfo(c)) else d.info
  }

  /** A connector a pending drop links to: opposite direction to the drag's origin, the same type
      token, and within the capture distance. */
  predicate Qualifies(info: DragInfo, c: Connector, ev: PointerEvents) {
    info.isInput != c.id.isInput && info.t == c.t && c.id in ev.withinCapture
  }

  /** The link stored for a drag from `info` dropped on `c`. */
  function Oriented(info: DragInfo, c: Connector): Link {
    if c.id.isInput then Link(End(c.id.node, c.id.index), End(info.node, info.index))
    else Link(End(info.node, info.index), End(c.id.node, c.id.index))
  }

  /** Whichever end the drag began at, the input connector's end is stored first. */
  lemma OrientedInputFirst(info: DragInfo, c: Connector)
    requires info.isInput != c.id.isInput
    ensures c.id.isInput ==> Oriented(info, c) == Link(End(c.id.node, c.id.index), End(info.node, info.index))
    ensures info.isInput ==> Oriented(info, c) == Link(End(info.node, info.index), End(c.id.node, c.id.index))
  {
  }

  /** The body of the connector loop for one connector: record a drag start, defer a drag stop
      to the next tick, and, while a drop is pending, link to this connector if it qualifies. */
  function ResolveConnector(d: Drag, c: Connector, ev: PointerEvents): (r: Result<Drag>)
    ensures r.Err? <==> d.linkDropped && InfoAfterStart(d, c, ev).None?
    ensures r.Ok? ==> (r.value.links != d.links <==> d.linkDropped && Qualifies(InfoAfterStart(d, c, ev).value, c, ev))
    ensures r.Ok? && r.value.links != d.links ==>
              && r.value.links == d.links + [Oriented(InfoAfterStart(d, c, ev).value, c)]
              && r.value.info.None? && !r.value.nextFrameDropped && !r.value.linkDropped
    ensures r.Ok? && r.value.links == d.links ==>
              && r.value.info == InfoAfterStart(d, c, ev)
              && r.value.linkDropped == d.linkDropped
              && r.value.nextFrameDropped == (d.nextFrameDropped || c.id in ev.dragStopped)
  {
    var info := InfoAfterStart(d, c, ev);
    var next := d.nextFrameDropped || c.id in ev.dragStopped;
    if !d.linkDropped then Ok(Drag(info, next, false, d.links))
    else if info.None? then Err(DragInfoMissing)
    else if Qualifies(info.value, c, ev) then Ok(Drag(None, false, false, d.links + [Oriented(info.value, c)]))
    else Ok(Drag(info, next, true, d.links))
  }

  /** The connector loops of one tick, connector after connector in rendering order. */
  function ResolveAll(d: Drag, cs: seq<Connector>, ev: PointerEvents): (r: Result<Drag>)
    ensures r.Err? ==> r.panic == DragInfoMissing
    ensures r.Ok? ==> d.links <= r.value.links
    decreases |cs|
  {
    if cs == [] then Ok(d)
    else match ResolveAll(d, cs[..|cs| - 1], ev)
      case Err(e) => Err(e)
      case Ok(d') => ResolveConnector(d', cs[|cs| - 1], ev)
  }

  lemma ResolveAllStep(d: Drag, cs: seq<Connector>, c: Connector, ev: PointerEvents)
    ensures ResolveAll(d, cs + [c], ev) ==
              match ResolveAll(d, cs, ev) { case Err(e) => Err(e) case Ok(d') => ResolveConnector(d', c, ev) }
  {
    assert (cs + [c])[..|cs|] == cs;
  }

  /** A panic ends the tick: no later connector changes the outcome. */
  lemma {:induction false} ResolveErrPersists(d: Drag, cs: seq<Connector>, more: seq<Connector>, ev: PointerEvents)
    requires ResolveAll(d, cs, ev).Err?
    ensures ResolveAll(d, cs + more, ev) == ResolveAll(d, cs, ev)
    decreases |more|
  {
    if more != [] {
      var last := more[|more| - 1];
      ResolveErrPersists(d, cs, more[..|more| - 1], ev);
      assert cs + more == (cs + more[..|more| - 1]) + [last];
      ResolveAllStep(d, cs + more[..|more| - 1], last, ev);
    } else {
      assert cs + more == cs;
    }
  }

  /** Resolving one more connector of `cs`. */
  lemma ResolvePrefixStep(d: Drag, cs: seq<Connector>, i: nat, ev: PointerEvents)
    requires i < |cs|
    ensures ResolveAll(d, cs[..i + 1], ev) ==
              match ResolveAll(d, cs[..i], ev) { case Err(e) => Err(e) case Ok(d') => ResolveConnector(d', cs[i], ev) }
  {
    assert cs[..i + 1][..i] == cs[..i];
  }

  /** A panic on a prefix of the connectors is the panic of the whole run. */
  lemma ResolveErrPrefix(d: Drag, p: seq<Connector>, cs: seq<Connector>, ev: PointerEvents)
    requires |p| <= |cs| && cs[..|p|] == p && ResolveAll(d, p, ev).Err?
    ensures ResolveAll(d, cs, ev) == ResolveAll(d, p, ev)
  {
    assert cs == p + cs[|p|..];
    ResolveErrPersists(d, p, cs[|p|..], ev);
  }

  /** At most one link per tick: either nothing is linked and the pending-drop flag is as it was,
      or a drop was pending, exactly one link is appended, and the pending drop is consumed. */
  lemma {:induction false} AtMostOneLink(d: Drag, cs: seq<Connector>, ev: PointerEvents)
    requires ResolveAll(d, cs, ev).Ok?
    ensures var d' := ResolveAll(d, cs, ev).value;
            || (d'.links == d.links && d'.linkDropped == d.linkDropped)
            || (d.linkDropped && !d'.linkDropped && |d'.links| == |d.links| + 1 && d'.links[..|d.links|] == d.links)
    decreases |cs|
  {
    if cs != [] {
      var p := cs[..|cs| - 1];
      AtMostOneLink(d, p, ev);
    }
  }

  /** Without a pending drop nothing is linked and nothing can panic. */
  lemma {:induction false} NoPendingDrop(d: Drag, cs: seq<Connector>, ev: PointerEvents)
    requires !d.linkDropped
    ensures ResolveAll(d, cs, ev).Ok?
    ensures ResolveAll(d, cs, ev).value.links == d.links && !ResolveAll(d, cs, ev).value.linkDropped
    decreases |cs|
  {
    if cs != [] {
      NoPendingDrop(d, cs[..|cs| - 1], ev);
    }
  }

  /** Without a pending drop, the deferred-drop flag ends raised exactly when it was raised
      before or some connector reports a drag stop. */
  lemma {:induction false} NoPendingDropDefers(d: Drag, cs: seq<Connector>, ev: PointerEvents)
    requires !d.linkDropped
    ensures ResolveAll(d, cs, ev).Ok?
    ensures ResolveAll(d, cs, ev).value.nextFrameDropped <==>
              d.nextFrameDropped || exists j :: 0 <= j < |cs| && cs[j].id in ev.dragStopped
    decreases |cs|
  {
    NoPendingDrop(d, cs, ev);
    if cs != [] {
      var p := cs[..|cs| - 1];
      NoPendingDrop(d, p, ev);
      NoPendingDropDefers(d, p, ev);
      if exists j :: 0 <= j < |cs| && cs[j].id in ev.dragStopped {
        var j :| 0 <= j < |cs| && cs[j].id in ev.dragStopped;
        if j < |p| {
          assert p[j].id in ev.dragStopped;
        }
      }
      if exists j :: 0 <= j < |p| && p[j].id in ev.dragStopped {
        var j :| 0 <= j < |p| && p[j].id in ev.dragStopped;
        assert cs[j].id in ev.dragStopped;
      }
    }
  }

  /** Without a pending drop and without a drag start, the drag record stays as it was. */
  lemma {:induction false} NoStartKeepsInfo(d: Drag, cs: seq<Connector>, ev: PointerEvents)
    requires !d.linkDropped
    requires forall j :: 0 <= j < |cs| ==> cs[j].id !in ev.dragStarted
    ensures ResolveAll(d, cs, ev).Ok? && ResolveAll(d, cs, ev).value.info == d.info
    decreases |cs|
  {
    NoPendingDrop(d, cs, ev);
    if cs != [] {
      var p := cs[..|cs| - 1];
      assert forall j :: 0 <= j < |p| ==> p[j] == cs[j];
      NoPendingDrop(d, p, ev);
      NoStartKeepsInfo(d, p, ev);
    }
  }

  /** Without a pending drop, the drag record ends as the last connector reporting a drag start
      began it. */
  lemma {:induction false} LastStartRecorded(d: Drag, cs: seq<Connector>, ev: PointerEvents, j: nat)
    requires !d.linkDropped
    requires j < |cs| && cs[j].id in ev.dragStarted
    requires forall i :: j < i < |cs| ==> cs[i].id !in ev.dragStarted
    ensures ResolveAll(d, cs, ev).Ok? && ResolveAll(d, cs, ev).value.info == Some(StartInfo(cs[j]))
    decreases |cs|
  {
    var p := cs[..|cs| - 1];
    NoPendingDrop(d, cs, ev);
    NoPendingDrop(d, p, ev);
    if j < |p| {
      assert forall i :: j < i < |p| ==> p[i] == cs[i];
      LastStartRecorded(d, p, ev, j);
    }
  }

  /** Resolution over two runs of connectors is resolution over the first, then the second. */
  lemma {:induction false} ResolveAllConcat(d: Drag, cs: seq<Connector>, more: seq<Connector>, ev: PointerEvents)
    ensures ResolveAll(d, cs + more, ev) ==
              match ResolveAll(d, cs, ev) { case Err(e) => Err(e) case Ok(d') => ResolveAll(d', more, ev) }
    decreases |more|
  {
    if more == [] {
      assert cs + more == cs;
    } else {
      var last := more[|more| - 1];
      var init := more[..|more| - 1];
      ResolveAllConcat(d, cs, init, ev);
      assert cs + more == (cs + init) + [last];
      ResolveAllStep(d, cs + init, last, ev);
      if ResolveAll(d, cs, ev).Ok? {
        ResolveAllStep(ResolveAll(d, cs, ev).value, init, last, ev);
        assert init + [last] == more;
      }
    }
  }

  /** While a drop is pending and no drag starts, a run of connectors none of which qualifies
      leaves the drag recorded, the drop pending and the links as they were. */
  lemma {:induction false} NoQualifyingKeepsDrop(d: Drag, info: DragInfo, cs: seq<Connector>, ev: PointerEvents)
    requires d.linkDropped && d.info == Some(info)
    requires forall j :: 0 <= j < |cs| ==> cs[j].id !in ev.dragStarted
    requires forall j :: 0 <= j < |cs| ==> !Qualifies(info, cs[j], ev)
    ensures var r := ResolveAll(d, cs, ev);
            r.Ok? && r.value.info == Some(info) && r.value.linkDropped && r.value.links == d.links
    decreases |cs|
  {
    if cs != [] {
      var p := cs[..|cs| - 1];
      assert forall j :: 0 <= j < |p| ==> p[j] == cs[j];
      NoQualifyingKeepsDrop(d, info, p, ev);
    }
  }

  /** While a drop is pending and no drag starts, the first qualifying connector in rendering
      order gets the link, and the drag is then over. */
  lemma FirstQualifyingWins(d: Drag, info: DragInfo, cs: seq<Connector>, j: nat, ev: PointerEvents)
    requires d.linkDropped && d.info == Some(info)
    requires forall i :: 0 <= i < |cs| ==> cs[i].id !in ev.dragStarted
    requires j < |cs| && Qualifies(info, cs[j], ev)
    requires forall i :: 0 <= i < j ==> !Qualifies(info, cs[i], ev)
    ensures var r := ResolveAll(d, cs, ev);
            r.Ok? && r.value.info.None? && !r.value.linkDropped && r.value.links == d.links + [Oriented(info, cs[j])]
  {
    var before, rest := cs[..j], cs[j + 1..];
    assert forall i :: 0 <= i < |before| ==> before[i] == cs[i];
    assert forall i :: 0 <= i < |rest| ==> rest[i] == cs[j + 1 + i];
    NoQualifyingKeepsDrop(d, info, before, ev);
    ResolveAllStep(d, before, cs[j], ev);
    var linked := ResolveAll(d, before + [cs[j]], ev).value;
    NoPendingDrop(linked, rest, ev);
    NoStartKeepsInfo(linked, rest, ev);
    assert cs == (before + [cs[j]]) + rest;
    ResolveAllConcat(d, before + [cs[j]], rest, ev);
  }

  /** The drag record and the links mention only nodes of `keys`. */
  predicate RefersTo(d: Drag, keys: set<NodeKey>) {
    && (d.info.Some? ==> d.info.value.node in keys)
    && forall l :: l in d.links ==> l.input.node in keys && l.output.node in keys
  }

  /** Resolution mentions only nodes that were already mentioned or were rendered. */
  lemma {:induction false} ResolveRefersTo(d: Drag, cs: seq<Connector>, ev: PointerEvents, keys: set<NodeKey>)
    requires RefersTo(d, keys)
    requires forall j :: 0 <= j < |cs| ==> cs[j].id.node in keys
    requires ResolveAll(d, cs, ev).Ok?
    ensures RefersTo(ResolveAll(d, cs, ev).value, keys)
    decreases |cs|
  {
    if cs != [] {
      var p := cs[..|cs| - 1];
      assert forall j :: 0 <= j < |p| ==> p[j] == cs[j];
      ResolveRefersTo(d, p, ev, keys);
    }
  }
}
