/** What each group of constraints of the encoder says about a truth
    assignment, stated directly over the board, the nodes and the edges
    (src/Solver.cpp:205-442).  A node takes part as the encoder uses it: its
    occupancy unknowns are indexed by its `id`, its dispenser unknowns in
    consistency and placement by its position in the node list, in movement
    by its `id`, and an edge (from, to) names its target by position and its
    source by occupancy index. */
module Families {
  import opened Nodes
  import opened GraphParser
  import opened Constraints
  import opened Board

  /** `c[x][y][id][t]` is true: droplet `id` is on cell (x, y) at time t. */
  ghost predicate At(a: Assignment, x: int, y: int, id: int, t: int) {
    a(Occupancy(x, y, id, t))
  }

  /** Position `k` of the node list holds a DISPENSE or MIX node. */
  predicate IsProducer(g: GraphData, k: int) {
    0 <= k < |g.nodes| && Producer(g.nodes[k])
  }

  // ------------------------------------------------------------------
  // Allocation (src/Solver.cpp:15-41)

  /** The unknowns the Solver constructor names: a sink per position, a
      dispenser per position and node position, and an occupancy per cell,
      time step and id of a DISPENSE/MIX node.  Every other `c` entry stays
      the `dummy` expression. */
  ghost predicate Allocated(g: GraphData, d: Dims, v: Var) {
    match v
    case Sink(p) => 0 <= p < PerimeterSize(d)
    case Dispenser(p, k) => 0 <= p < PerimeterSize(d) && 0 <= k < |g.nodes|
    case Occupancy(x, y, id, t) =>
      InGrid(d, x, y) && InTime(d, t) && exists k | 0 <= k < |g.nodes| :: Producer(g.nodes[k]) && g.nodes[k].id == id
  }

  // ------------------------------------------------------------------
  // Consistency (src/Solver.cpp:205-275)

  /** None of the DISPENSE/MIX nodes before position `n` is on (x, y) at t. */
  ghost predicate NoProducerAt(g: GraphData, a: Assignment, x: int, y: int, t: int, n: int) {
    forall k | IsProducer(g, k) && k < n :: !At(a, x, y, g.nodes[k].id, t)
  }

  /** At most one of the DISPENSE/MIX nodes before position `n` is on (x, y)
      at t (two positions with the same id count as two droplets). */
  ghost predicate OneProducerAt(g: GraphData, a: Assignment, x: int, y: int, t: int, n: int) {
    forall k, k' | IsProducer(g, k) && IsProducer(g, k') && k < k' < n ::
      !(At(a, x, y, g.nodes[k].id, t) && At(a, x, y, g.nodes[k'].id, t))
  }

  /** A cell holds at most one droplet per time step (src/Solver.cpp:208-222). */
  ghost predicate CellsExclusive(g: GraphData, d: Dims, a: Assignment) {
    forall x, y, t | InGrid(d, x, y) && InTime(d, t) :: OneProducerAt(g, a, x, y, t, |g.nodes|)
  }

  /** The cells visited before (i, j) in row-major order. */
  ghost predicate CellBefore(d: Dims, x: int, y: int, i: int, j: int) {
    InGrid(d, x, y) && (x < i || (x == i && y < j))
  }

  /** Droplet `id` is on no cell before (i, j) at t. */
  ghost predicate NoCellBefore(d: Dims, a: Assignment, id: int, t: int, i: int, j: int) {
    forall x, y | CellBefore(d, x, y, i, j) :: !At(a, x, y, id, t)
  }

  /** Droplet `id` is on at most one cell before (i, j) at t. */
  ghost predicate OneCellBefore(d: Dims, a: Assignment, id: int, t: int, i: int, j: int) {
    forall x, y, x', y' | CellBefore(d, x, y, i, j) && CellBefore(d, x', y', i, j) && (x != x' || y != y') ::
      !(At(a, x, y, id, t) && At(a, x', y', id, t))
  }

  /** Droplet `id` is on at most one cell at t. */
  ghost predicate OneCell(d: Dims, a: Assignment, id: int, t: int) {
    forall x, y, x', y' | InGrid(d, x, y) && InGrid(d, x', y') && (x != x' || y != y') ::
      !(At(a, x, y, id, t) && At(a, x', y', id, t))
  }

  /** Droplet `id` is on some cell at t. */
  ghost predicate Somewhere(d: Dims, a: Assignment, id: int, t: int) {
    exists x, y | InGrid(d, x, y) :: At(a, x, y, id, t)
  }

  /** Each DISPENSE/MIX droplet is on at most one cell per time step
      (src/Solver.cpp:226-240). */
  ghost predicate DropletsSingle(g: GraphData, d: Dims, a: Assignment) {
    forall k, t | IsProducer(g, k) && InTime(d, t) :: OneCell(d, a, g.nodes[k].id, t)
  }

  /** No DISPENSE/MIX dispenser before position `n` is at p. */
  ghost predicate NoDispenserAt(g: GraphData, a: Assignment, p: int, n: int) {
    forall k | IsProducer(g, k) && k < n :: !a(Dispenser(p, k))
  }

  /** At p, at most one of the sink and the DISPENSE/MIX dispensers before
      position `n`. */
  ghost predicate OneDeviceAt(g: GraphData, a: Assignment, p: int, n: int) {
    && (forall k | IsProducer(g, k) && k < n :: !(a(Sink(p)) && a(Dispenser(p, k))))
    && (forall k, k' | IsProducer(g, k) && IsProducer(g, k') && k < k' < n ::
          !(a(Dispenser(p, k)) && a(Dispenser(p, k'))))
  }

  /** Each position around the board holds at most one of the sink and the
      dispensers of DISPENSE/MIX nodes (src/Solver.cpp:244-255). */
  ghost predicate PositionsExclusive(g: GraphData, d: Dims, a: Assignment) {
    forall p | 0 <= p < PerimeterSize(d) :: OneDeviceAt(g, a, p, |g.nodes|)
  }

  /** Droplet `id` is on some cell at some time step. */
  ghost predicate Alive(d: Dims, a: Assignment, id: int) {
    exists t | InTime(d, t) :: Somewhere(d, a, id, t)
  }

  /** Each DISPENSE/MIX droplet exists at some time (src/Solver.cpp:260-274). */
  ghost predicate DropletsAlive(g: GraphData, d: Dims, a: Assignment) {
    forall k | IsProducer(g, k) :: Alive(d, a, g.nodes[k].id)
  }

  ghost predicate Consistency(g: GraphData, d: Dims, a: Assignment) {
    && CellsExclusive(g, d, a)
    && DropletsSingle(g, d, a)
    && PositionsExclusive(g, d, a)
    && DropletsAlive(g, d, a)
  }

  // ------------------------------------------------------------------
  // Placement (src/Solver.cpp:277-304)

  /** The positions holding a dispenser of the node at position k. */
  ghost function DispenserSlots(d: Dims, a: Assignment, k: int): set<int> {
    set p | 0 <= p < PerimeterSize(d) && a(Dispenser(p, k))
  }

  /** The positions holding a sink. */
  ghost function SinkSlots(d: Dims, a: Assignment): set<int> {
    set p | 0 <= p < PerimeterSize(d) && a(Sink(p))
  }

  /** A DISPENSE node has one dispenser and a MIX node none. */
  function DispenserCount(n: Node): nat {
    if n.kind.Dispense? then 1 else 0
  }

  /** Every DISPENSE/MIX node has its number of dispensers, and there are
      `num_output` sinks. */
  ghost predicate Placement(g: GraphData, d: Dims, a: Assignment) {
    && (forall k | IsProducer(g, k) :: |DispenserSlots(d, a, k)| == DispenserCount(g.nodes[k]))
    && |SinkSlots(d, a)| == g.numOutput
  }

  // ------------------------------------------------------------------
  // Movement (src/Solver.cpp:306-386)

  /** Droplet `id` is on (x, y) or an orthogonal neighbour on the board at t
      (the cells the `neigh` table reaches). */
  ghost predicate Near(d: Dims, a: Assignment, id: int, x: int, y: int, t: int) {
    exists k | 0 <= k < |Neigh| ::
      InGrid(d, x + Neigh[k].0, y + Neigh[k].1) && At(a, x + Neigh[k].0, y + Neigh[k].1, id, t)
  }

  /** The droplet was next to (x, y) one step earlier. */
  ghost predicate Carried(d: Dims, a: Assignment, id: int, x: int, y: int, t: int) {
    t > 1 && Near(d, a, id, x, y, t - 1)
  }

  /** A DISPENSE droplet poured from one of its dispensers next to (x, y). */
  ghost predicate Poured(g: GraphData, d: Dims, a: Assignment, i: int, x: int, y: int)
    requires 0 <= i < |g.nodes|
  {
    var ps := Touching(d, x, y);
    g.nodes[i].kind.Dispense? && exists j | 0 <= j < |ps| :: a(Dispenser(ps[j], g.nodes[i].id))
  }

  /** The inputs of a MIX node are consumed around (x, y): every edge into it
      brings a droplet that is near (x, y) `time + 1` steps earlier and gone
      from there `time` steps earlier. */
  ghost predicate InputsMixed(g: GraphData, d: Dims, a: Assignment, i: int, x: int, y: int, t: int, mixTime: int) {
    forall e | 0 <= e < |g.edges| && g.edges[e].1 == i ::
      Near(d, a, g.edges[e].0, x, y, t - mixTime - 1) && !Near(d, a, g.edges[e].0, x, y, t - mixTime)
  }

  /** A MIX droplet, at least `time + 2` steps in, produced from its inputs. */
  ghost predicate Mixed(g: GraphData, d: Dims, a: Assignment, i: int, x: int, y: int, t: int)
    requires 0 <= i < |g.nodes|
  {
    match g.nodes[i].kind
    case Mix(_, mixTime) => t >= mixTime + 2 && InputsMixed(g, d, a, i, x, y, t, mixTime)
    case _ => false
  }

  /** The encoder has some way for the node to get to (x, y) at t: it can be
      carried (t > 1), it is a MIX node, or it is a DISPENSE node on the
      border. */
  ghost predicate HasOrigin(g: GraphData, d: Dims, i: int, x: int, y: int, t: int)
    requires 0 <= i < |g.nodes|
  {
    t > 1 || g.nodes[i].kind.Mix? || (g.nodes[i].kind.Dispense? && OnBoundary(d, x, y))
  }

  /** A droplet on (x, y) at t came from a neighbour, from its dispenser or
      from a mix.  The constraint is added only when the encoder has some
      origin for it (the `vec.size() > 0` test). */
  ghost predicate MoveRule(g: GraphData, d: Dims, a: Assignment, i: int, x: int, y: int, t: int)
    requires 0 <= i < |g.nodes|
  {
    var id := g.nodes[i].id;
    HasOrigin(g, d, i, x, y, t) ==>
      (At(a, x, y, id, t) ==> Carried(d, a, id, x, y, t) || Poured(g, d, a, i, x, y) || Mixed(g, d, a, i, x, y, t))
  }

  ghost predicate Movement(g: GraphData, d: Dims, a: Assignment) {
    forall i, x, y, t | IsProducer(g, i) && InGrid(d, x, y) && InTime(d, t) :: MoveRule(g, d, a, i, x, y, t)
  }

  // ------------------------------------------------------------------
  // Output (src/Solver.cpp:388-442)

  /** The source of the first edge into position `i`, if any. */
  function FirstSource(edges: seq<Edge>, i: int): Option<int> {
    if edges == [] then None
    else if edges[0].1 == i then Some(edges[0].0)
    else FirstSource(edges[1..], i)
  }

  /** Some sink next to (x, y) is in use. */
  ghost predicate SinkNext(d: Dims, a: Assignment, x: int, y: int) {
    var ps := Touching(d, x, y);
    exists j | 0 <= j < |ps| :: a(Sink(ps[j]))
  }

  /** Droplet `src` is on (x, y) at t - 1 and nowhere near it at t. */
  ghost predicate Vanishes(d: Dims, a: Assignment, src: int, x: int, y: int, t: int) {
    At(a, x, y, src, t - 1) && !Near(d, a, src, x, y, t)
  }

  /** Droplet `src` is on no cell at t. */
  ghost predicate Gone(d: Dims, a: Assignment, src: int, t: int) {
    forall x, y | InGrid(d, x, y) :: !At(a, x, y, src, t)
  }

  /** A droplet may only vanish next to a sink in use. */
  ghost predicate VanishesIntoSink(d: Dims, a: Assignment, src: int) {
    forall x, y, t | InGrid(d, x, y) && 2 <= t <= d.time :: Vanishes(d, a, src, x, y, t) ==> SinkNext(d, a, x, y)
  }

  /** What the encoder asks of the droplet an OUTPUT node consumes, as
      written: it vanishes only into a sink, and it is gone at the last time
      step, which is asked only when there are two time steps or more (the
      request sits inside the loop over t from 2). */
  ghost predicate OutputRule(d: Dims, a: Assignment, src: int) {
    && VanishesIntoSink(d, a, src)
    && (d.time >= 2 ==> Gone(d, a, src, d.time))
  }

  /** The rule for every OUTPUT node with an incoming edge, applied to the
      source of its first incoming edge. */
  ghost predicate Output(g: GraphData, d: Dims, a: Assignment) {
    forall i | 0 <= i < |g.nodes| && g.nodes[i].kind.Output? && FirstSource(g.edges, i).Some? ::
      OutputRule(d, a, FirstSource(g.edges, i).value)
  }

  /** Everything the Solver constructor asserts. */
  ghost predicate Encoding(g: GraphData, d: Dims, a: Assignment) {
    && Consistency(g, d, a)
    && Placement(g, d, a)
    && Movement(g, d, a)
    && Output(g, d, a)
  }
}
