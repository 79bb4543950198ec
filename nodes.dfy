/** Operation-graph nodes (src/Node.h).

    The source keeps one struct with every kind's fields side by side and a
    `type` tag; here each kind carries only its own payload.  `Invalid` is the
    tag a NODE declaration gets when its kind is none of the four known ones
    (the source leaves `type` unset in that case). */
module Nodes {

  datatype NodeKind =
    | Invalid
    | Dispense(fluidName: string, volume: nat)
    | Mix(drops: nat, time: nat)
    | Output(sinkName: string)
    | Detect

  /** `labelText` is the source's `label` field (`label` is a Dafny keyword). */
  datatype Node = Node(id: int, kind: NodeKind, labelText: string)

  /** The nodes that own occupancy variables in the encoder: the droplets
      that exist on the board (DISPENSE and MIX). */
  predicate Producer(n: Node) {
    n.kind.Dispense? || n.kind.Mix?
  }

  /** Number of nodes of `nodes` satisfying the kind test. */
  function CountDispense(nodes: seq<Node>): (r: nat)
    ensures r <= |nodes|
  {
    if nodes == [] then 0
    else CountDispense(nodes[..|nodes| - 1]) + (if nodes[|nodes| - 1].kind.Dispense? then 1 else 0)
  }

  function CountOutput(nodes: seq<Node>): (r: nat)
    ensures r <= |nodes|
  {
    if nodes == [] then 0
    else CountOutput(nodes[..|nodes| - 1]) + (if nodes[|nodes| - 1].kind.Output? then 1 else 0)
  }

  /** Node ids are dense: the node at position k has id k. */
  predicate DenseIds(nodes: seq<Node>) {
    forall k | 0 <= k < |nodes| :: nodes[k].id == k
  }
}
