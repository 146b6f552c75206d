/** The node store: nodes under opaque keys, each with its placement. */
module NodeArena {
  import opened Ui
  import opened AnyNode

  /** A `NodeKey` of the slot map. No node is ever removed, so keys are handed out slot after
      slot and iterating the map visits them in slot order. */
  datatype NodeKey = NodeKey(slot: nat)

  /** `NodeInformation`: the owned node and its graph-space position. */
  datatype NodeInformation = NodeInformation(node: AnyNode, position: Pos2)

  type Nodes = map<NodeKey, NodeInformation>

  /** Whether `k` is among the first `n` keys handed out. */
  predicate Allocated(k: NodeKey, n: nat) {
    k.slot < n
  }

  /** The keys of a store that has handed out `nextSlot` slots. */
  ghost predicate Dense(nodes: Nodes, nextSlot: nat) {
    forall k :: k in nodes <==> Allocated(k, nextSlot)
  }

  /** Every key among the first `n` is stored. */
  ghost predicate HasSlots(nodes: Nodes, n: nat) {
    forall k :: Allocated(k, n) ==> k in nodes
  }

  lemma DenseHasSlots(nodes: Nodes, n: nat)
    requires Dense(nodes, n)
    ensures HasSlots(nodes, n)
  {
  }

  /** Two stores with the same keys whose nodes have the same kinds: what rendering a node and
      running its callbacks preserve. */
  predicate SameKinds(m1: Nodes, m2: Nodes) {
    && m1.Keys == m2.Keys
    && forall k :: k in m1 ==> KindOf(m1[k].node) == KindOf(m2[k].node)
  }

  /** The store with the node under `k` replaced by `n`, keeping its position. */
  function Replace(nodes: Nodes, k: NodeKey, n: AnyNode): (r: Nodes)
    requires k in nodes
    ensures r.Keys == nodes.Keys
    ensures r[k].node == n && r[k].position == nodes[k].position
    ensures forall k' :: k' in nodes && k' != k ==> r[k'] == nodes[k']
    ensures KindOf(n) == KindOf(nodes[k].node) ==> SameKinds(nodes, r)
  {
    nodes[k := nodes[k].(node := n)]
  }
}
