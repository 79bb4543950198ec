/** What an assignment satisfying the encoder's constraints says about the
    droplets, the dispensers and the sinks, and where the constraints as
    written say less than the encoder's comments promise. */
module Properties {
  import opened Nodes
  import opened GraphParser
  import opened Constraints
  import opened Board
  import opened Families
  import GraphProperties

  // ------------------------------------------------------------------
  // Allocation

  /** With node ids equal to their positions, the `c` unknowns are those
      of the DISPENSE/MIX nodes on the board within the schedule. */
  lemma AllocatedOccupancy(g: GraphData, d: Dims, x: int, y: int, k: int, t: int)
    requires DenseIds(g.nodes)
    ensures Allocated(g, d, Occupancy(x, y, k, t)) <==> InGrid(d, x, y) && InTime(d, t) && IsProducer(g, k)
  {
    if InGrid(d, x, y) && InTime(d, t) && IsProducer(g, k) {
      assert g.nodes[k].id == k;
    }
  }

  // ------------------------------------------------------------------
  // Consistency (src/Solver.cpp:205-275)

  /** No two DISPENSE/MIX nodes share a cell at a time step. */
  lemma CellHoldsOneDroplet(g: GraphData, d: Dims, a: Assignment, x: int, y: int, t: int, k: int, k': int)
    requires Encoding(g, d, a)
    requires InGrid(d, x, y) && InTime(d, t)
    requires IsProducer(g, k) && IsProducer(g, k') && k != k'
    ensures !(At(a, x, y, g.nodes[k].id, t) && At(a, x, y, g.nodes[k'].id, t))
  {
    assert OneProducerAt(g, a, x, y, t, |g.nodes|);
    if k' < k {
      assert !(At(a, x, y, g.nodes[k'].id, t) && At(a, x, y, g.nodes[k].id, t));
    }
  }

  /** A DISPENSE/MIX droplet is on one cell per time step at most, and on
      some cell at some time step. */
  lemma DropletPlaces(g: GraphData, d: Dims, a: Assignment, k: int)
    requires Encoding(g, d, a) && IsProducer(g, k)
    ensures forall t, x, y, x', y' | InTime(d, t) && InGrid(d, x, y) && InGrid(d, x', y')
              && At(a, x, y, g.nodes[k].id, t) && At(a, x', y', g.nodes[k].id, t) :: x == x' && y == y'
    ensures exists t, x, y | InTime(d, t) && InGrid(d, x, y) :: At(a, x, y, g.nodes[k].id, t)
  {
    forall t, x, y, x', y' | InTime(d, t) && InGrid(d, x, y) && InGrid(d, x', y')
      && At(a, x, y, g.nodes[k].id, t) && At(a, x', y', g.nodes[k].id, t)
      ensures x == x' && y == y'
    {
      assert OneCell(d, a, g.nodes[k].id, t);
    }
    assert Alive(d, a, g.nodes[k].id);
    var t :| InTime(d, t) && Somewhere(d, a, g.nodes[k].id, t);
    var x, y :| InGrid(d, x, y) && At(a, x, y, g.nodes[k].id, t);
  }

  /** A position around the board holds a sink or the dispenser of one
      DISPENSE/MIX node at most. */
  lemma PositionHoldsOneDevice(g: GraphData, d: Dims, a: Assignment, p: int, k: int, k': int)
    requires Encoding(g, d, a) && 0 <= p < PerimeterSize(d)
    requires IsProducer(g, k) && IsProducer(g, k')
    ensures !(a(Sink(p)) && a(Dispenser(p, k)))
    ensures a(Dispenser(p, k)) && a(Dispenser(p, k')) ==> k == k'
  {
    assert OneDeviceAt(g, a, p, |g.nodes|);
    if k' < k {
      assert !(a(Dispenser(p, k')) && a(Dispenser(p, k)));
    }
  }

  // ------------------------------------------------------------------
  // Placement (src/Solver.cpp:277-304)

  /** A set of positions below n has n members at most. */
  lemma {:induction false} BelowBound(s: set<int>, n: nat)
    requires forall p | p in s :: 0 <= p < n
    ensures |s| <= n
    decreases n
  {
    if n > 0 {
      BelowBound(s - {n - 1}, n - 1);
    } else {
      assert s == {} by {
        forall p | p in s ensures false {
        }
      }
    }
  }

  /** A non-empty set of positions below n has a member below n. */
  lemma {:induction false} MemberBelow(s: set<int>, n: nat)
    requires forall p | p in s :: 0 <= p < n
    ensures |s| > 0 ==> exists p | 0 <= p < n :: p in s
    decreases n
  {
    if n == 0 {
      BelowBound(s, 0);
    } else if n - 1 !in s {
      MemberBelow(s, n - 1);
    }
  }

  /** A set of positions below n with one member is that member alone. */
  lemma SingletonOfOne(s: set<int>, n: nat)
    requires forall p | p in s :: 0 <= p < n
    requires |s| == 1
    ensures exists p | 0 <= p < n :: s == {p}
  {
    MemberBelow(s, n);
    var only :| 0 <= only < n && only in s;
    assert s - {only} == {} by {
      assert |s - {only}| == 0;
    }
    assert s == {only};
  }

  /** A DISPENSE node has exactly one dispenser around the board. */
  lemma DispenseHasOneDispenser(g: GraphData, d: Dims, a: Assignment, k: int)
    requires Encoding(g, d, a) && 0 <= k < |g.nodes| && g.nodes[k].kind.Dispense?
    ensures exists p | 0 <= p < PerimeterSize(d) :: a(Dispenser(p, k))
    ensures forall p, p' | 0 <= p < PerimeterSize(d) && 0 <= p' < PerimeterSize(d)
              && a(Dispenser(p, k)) && a(Dispenser(p', k)) :: p == p'
  {
    assert IsProducer(g, k);
    SingletonOfOne(DispenserSlots(d, a, k), PerimeterSize(d));
    var p :| 0 <= p < PerimeterSize(d) && DispenserSlots(d, a, k) == {p};
    assert p in DispenserSlots(d, a, k);
    forall q, q' | 0 <= q < PerimeterSize(d) && 0 <= q' < PerimeterSize(d) && a(Dispenser(q, k)) && a(Dispenser(q', k))
      ensures q == q'
    {
      assert q in DispenserSlots(d, a, k) && q' in DispenserSlots(d, a, k);
    }
  }

  /** A MIX node has no dispenser at all. */
  lemma MixHasNoDispenser(g: GraphData, d: Dims, a: Assignment, k: int)
    requires Encoding(g, d, a) && 0 <= k < |g.nodes| && g.nodes[k].kind.Mix?
    ensures forall p | 0 <= p < PerimeterSize(d) :: !a(Dispenser(p, k))
  {
    assert IsProducer(g, k);
    assert |DispenserSlots(d, a, k)| == 0;
    assert forall p | 0 <= p < PerimeterSize(d) :: a(Dispenser(p, k)) ==> p in DispenserSlots(d, a, k);
  }

  /** Exactly `num_output` sinks are in use; so a board whose border is too
      short for them admits no assignment. */
  lemma SinksInUse(g: GraphData, d: Dims, a: Assignment)
    requires Encoding(g, d, a)
    ensures |SinkSlots(d, a)| == g.numOutput
    ensures g.numOutput <= PerimeterSize(d)
  {
    BelowBound(SinkSlots(d, a), PerimeterSize(d));
  }

  /** For a graph read from a file, the sinks in use are as many as its
      OUTPUT nodes. */
  lemma SinksPerOutputNode(lines: seq<string>, d: Dims, a: Assignment)
    requires ParseLines(EMPTY_GRAPH, lines).Success?
    requires Encoding(ParseLines(EMPTY_GRAPH, lines).value, d, a)
    ensures |SinkSlots(d, a)| == CountOutput(ParseLines(EMPTY_GRAPH, lines).value.nodes)
  {
    GraphProperties.CountersCountNodes(lines);
  }

  // ------------------------------------------------------------------
  // Movement (src/Solver.cpp:306-386)

  /** A MIX droplet is on no cell before time step `time + 2`: at t = 1 its
      only origin is `false`, and later it could only be carried from a cell
      it was not on. */
  lemma {:induction false} MixAbsentEarly(g: GraphData, d: Dims, a: Assignment, i: int, t: int)
    requires Movement(g, d, a) && IsProducer(g, i) && g.nodes[i].kind.Mix?
    requires 1 <= t <= d.time && t < g.nodes[i].kind.time + 2
    ensures forall x, y | InGrid(d, x, y) :: !At(a, x, y, g.nodes[i].id, t)
    decreases t
  {
    if t > 1 {
      MixAbsentEarly(g, d, a, i, t - 1);
    }
    forall x, y | InGrid(d, x, y) ensures !At(a, x, y, g.nodes[i].id, t) {
      assert MoveRule(g, d, a, i, x, y, t);
      assert !Carried(d, a, g.nodes[i].id, x, y, t);
    }
  }

  /** At the first time step only DISPENSE droplets are on the board, and
      one on a border cell was poured from a dispenser next to it. */
  lemma FirstStepKind(g: GraphData, d: Dims, a: Assignment, i: int, x: int, y: int)
    requires Movement(g, d, a) && IsProducer(g, i) && InGrid(d, x, y) && d.time >= 1
    requires At(a, x, y, g.nodes[i].id, 1)
    ensures g.nodes[i].kind.Dispense?
    ensures OnBoundary(d, x, y) ==> Poured(g, d, a, i, x, y)
  {
    if g.nodes[i].kind.Mix? {
      MixAbsentEarly(g, d, a, i, 1);
    }
    assert MoveRule(g, d, a, i, x, y, 1);
  }

  // ------------------------------------------------------------------
  // Output (src/Solver.cpp:388-442)

  /** FirstSource finds the source of the first edge into position i, and
      finds one exactly when some edge enters i. */
  lemma {:induction false} FirstSourceIsFirst(edges: seq<Edge>, i: int)
    ensures FirstSource(edges, i).Some? <==> exists e | 0 <= e < |edges| :: edges[e].1 == i
    ensures FirstSource(edges, i).Some? ==>
              exists e | 0 <= e < |edges| :: edges[e] == (FirstSource(edges, i).value, i)
                && forall e' | 0 <= e' < e :: edges[e'].1 != i
  {
    if edges != [] && edges[0].1 != i {
      FirstSourceIsFirst(edges[1..], i);
      if exists e | 0 <= e < |edges| :: edges[e].1 == i {
        var e :| 0 <= e < |edges| && edges[e].1 == i;
        assert edges[1..][e - 1].1 == i;
      }
      if FirstSource(edges, i).Some? {
        var e :| 0 <= e < |edges[1..]| && edges[1..][e] == (FirstSource(edges, i).value, i)
                 && forall e' | 0 <= e' < e :: edges[1..][e'].1 != i;
        assert edges[e + 1] == (FirstSource(edges, i).value, i);
        assert forall e' | 1 <= e' < e + 1 :: edges[e'] == edges[1..][e' - 1];
      }
    } else if edges != [] {
      assert edges[0] == (FirstSource(edges, i).value, i);
    }
  }

  /** A cell with no position next to it has no sink next to it: the source
      of an OUTPUT node never vanishes from an interior cell. */
  lemma InteriorForbidsVanish(g: GraphData, d: Dims, a: Assignment, i: int, x: int, y: int, t: int)
    requires Families.Output(g, d, a)
    requires 0 <= i < |g.nodes| && g.nodes[i].kind.Output? && FirstSource(g.edges, i).Some?
    requires InGrid(d, x, y) && !OnBoundary(d, x, y) && 2 <= t <= d.time
    ensures !Vanishes(d, a, FirstSource(g.edges, i).value, x, y, t)
  {
    TouchingShape(d, x, y);
    assert OutputRule(d, a, FirstSource(g.edges, i).value);
  }

  /** From a time step where droplet `src` is on the board to one where it
      is gone, there is a last step where it is still on it. */
  lemma {:induction false} LastPresence(d: Dims, a: Assignment, src: int, t0: int)
    requires 1 <= t0 < d.time && Somewhere(d, a, src, t0) && Gone(d, a, src, d.time)
    ensures exists t | t0 <= t < d.time :: Somewhere(d, a, src, t) && Gone(d, a, src, t + 1)
    decreases d.time - t0
  {
    if !Gone(d, a, src, t0 + 1) {
      var x, y :| InGrid(d, x, y) && At(a, x, y, src, t0 + 1);
      assert Somewhere(d, a, src, t0 + 1);
      LastPresence(d, a, src, t0 + 1);
    }
  }

  /** A droplet that is on the board at some step, vanishes only into a sink
      and is gone at the last step leaves the board next to a sink in use. */
  lemma LeavesBySink(d: Dims, a: Assignment, src: int)
    requires Alive(d, a, src) && VanishesIntoSink(d, a, src) && Gone(d, a, src, d.time)
    ensures d.time >= 2
    ensures exists x, y, t | InGrid(d, x, y) && 2 <= t <= d.time :: Vanishes(d, a, src, x, y, t) && SinkNext(d, a, x, y)
  {
    var t0 :| InTime(d, t0) && Somewhere(d, a, src, t0);
    var x0, y0 :| InGrid(d, x0, y0) && At(a, x0, y0, src, t0);
    assert t0 != d.time;
    LastPresence(d, a, src, t0);
    var t :| t0 <= t < d.time && Somewhere(d, a, src, t) && Gone(d, a, src, t + 1);
    var x, y :| InGrid(d, x, y) && At(a, x, y, src, t);
    assert !Near(d, a, src, x, y, t + 1);
    assert Vanishes(d, a, src, x, y, t + 1);
  }

  /** With two time steps or more, the DISPENSE/MIX droplet an OUTPUT node
      consumes leaves the board next to a sink in use. */
  lemma OutputLeavesBySink(g: GraphData, d: Dims, a: Assignment, i: int, k: int)
    requires Encoding(g, d, a) && d.time >= 2
    requires 0 <= i < |g.nodes| && g.nodes[i].kind.Output? && FirstSource(g.edges, i).Some?
    requires IsProducer(g, k) && g.nodes[k].id == FirstSource(g.edges, i).value
    ensures exists x, y, t | InGrid(d, x, y) && 2 <= t <= d.time ::
              Vanishes(d, a, g.nodes[k].id, x, y, t) && SinkNext(d, a, x, y)
  {
    assert OutputRule(d, a, g.nodes[k].id);
    assert Alive(d, a, g.nodes[k].id);
    LeavesBySink(d, a, g.nodes[k].id);
  }

  // ------------------------------------------------------------------
  // Findings

  /** A droplet that appears at the first time step with nothing to pour it,
      as written: one DISPENSE node on a 3 x 3 board with one time step. */
  const ONE_DISPENSE := GraphData("", [], [Node(0, Dispense("a", 1), "")], 0, 1)
  const BOARD_3_BY_3 := Dims(3, 3, 1)

  /** The droplet on the middle cell, its dispenser at position 0. */
  predicate MiddleStart(v: Var) {
    v == Occupancy(1, 1, 0, 1) || v == Dispenser(0, 0)
  }

  /** The movement rule as written lets a DISPENSE droplet start on an
      interior cell, where no dispenser can pour it (the `vec.size() > 0`
      test drops the rule when vec is empty). */
  lemma InteriorDropletAtFirstStep()
    ensures Encoding(ONE_DISPENSE, BOARD_3_BY_3, MiddleStart)
    ensures At(MiddleStart, 1, 1, 0, 1) && !OnBoundary(BOARD_3_BY_3, 1, 1)
    ensures !StrictMovement(ONE_DISPENSE, BOARD_3_BY_3, MiddleStart)
  {
    MiddleStartPlaced();
    assert Touching(BOARD_3_BY_3, 1, 1) == [];
    assert !StrictMoveRule(ONE_DISPENSE, BOARD_3_BY_3, MiddleStart, 0, 1, 1, 1);
  }

  lemma MiddleStartPlaced()
    ensures Consistency(ONE_DISPENSE, BOARD_3_BY_3, MiddleStart)
    ensures Placement(ONE_DISPENSE, BOARD_3_BY_3, MiddleStart)
  {
    var d, a := BOARD_3_BY_3, MiddleStart;
    assert Somewhere(d, a, 0, 1) by {
      assert At(a, 1, 1, 0, 1);
    }
    assert DispenserSlots(d, a, 0) == {0};
    assert SinkSlots(d, a) == {};
  }

  /** The movement rule with the implication kept when vec is empty: a
      droplet is only where it was carried, poured or mixed. */
  ghost predicate StrictMoveRule(g: GraphData, d: Dims, a: Assignment, i: int, x: int, y: int, t: int)
    requires 0 <= i < |g.nodes|
  {
    var id := g.nodes[i].id;
    At(a, x, y, id, t) ==> Carried(d, a, id, x, y, t) || Poured(g, d, a, i, x, y) || Mixed(g, d, a, i, x, y, t)
  }

  ghost predicate StrictMovement(g: GraphData, d: Dims, a: Assignment) {
    forall i, x, y, t | IsProducer(g, i) && InGrid(d, x, y) && InTime(d, t) :: StrictMoveRule(g, d, a, i, x, y, t)
  }

  /** With the corrected rule a droplet at the first time step is a DISPENSE
      droplet on a border cell, poured from a dispenser next to it. */
  lemma StrictFirstStep(g: GraphData, d: Dims, a: Assignment, i: int, x: int, y: int)
    requires StrictMovement(g, d, a) && IsProducer(g, i) && InGrid(d, x, y) && d.time >= 1
    requires At(a, x, y, g.nodes[i].id, 1)
    ensures g.nodes[i].kind.Dispense? && OnBoundary(d, x, y) && Poured(g, d, a, i, x, y)
  {
    assert StrictMoveRule(g, d, a, i, x, y, 1);
    TouchingShape(d, x, y);
  }

  /** A source that stays on the board to the end, as written: a DISPENSE
      node feeding an OUTPUT node on a 1 x 1 board with one time step. */
  const DISPENSE_TO_OUTPUT := GraphData("", [(0, 1)], [Node(0, Dispense("a", 1), ""), Node(1, Output("s"), "")], 1, 1)
  const BOARD_1_BY_1 := Dims(1, 1, 1)

  /** The droplet on the only cell, its dispenser at position 0, a sink at
      position 1. */
  predicate StaysOnBoard(v: Var) {
    v == Occupancy(0, 0, 0, 1) || v == Dispenser(0, 0) || v == Sink(1)
  }

  /** The request that the source is gone at the last step sits inside the
      loop over t from 2, so with one time step it is never made and the
      droplet of an OUTPUT node need not leave the board. */
  lemma OutputSourceRemains()
    ensures Encoding(DISPENSE_TO_OUTPUT, BOARD_1_BY_1, StaysOnBoard)
    ensures FirstSource(DISPENSE_TO_OUTPUT.edges, 1) == Some(0) && At(StaysOnBoard, 0, 0, 0, BOARD_1_BY_1.time)
    ensures !StrictOutput(DISPENSE_TO_OUTPUT, BOARD_1_BY_1, StaysOnBoard)
  {
    StaysOnBoardPlaced();
    StaysOnBoardMoves();
    assert FirstSource(DISPENSE_TO_OUTPUT.edges, 1) == Some(0);
    assert At(StaysOnBoard, 0, 0, 0, 1) && InGrid(BOARD_1_BY_1, 0, 0);
    assert !Gone(BOARD_1_BY_1, StaysOnBoard, 0, 1);
  }

  lemma StaysOnBoardPlaced()
    ensures Consistency(DISPENSE_TO_OUTPUT, BOARD_1_BY_1, StaysOnBoard)
    ensures Placement(DISPENSE_TO_OUTPUT, BOARD_1_BY_1, StaysOnBoard)
  {
    var g, d, a := DISPENSE_TO_OUTPUT, BOARD_1_BY_1, StaysOnBoard;
    assert Somewhere(d, a, 0, 1) by {
      assert At(a, 0, 0, 0, 1);
    }
    StaysOnBoardDevices();
    StaysOnBoardSlots();
  }

  lemma StaysOnBoardDevices()
    ensures PositionsExclusive(DISPENSE_TO_OUTPUT, BOARD_1_BY_1, StaysOnBoard)
  {
    var g := DISPENSE_TO_OUTPUT;
    assert !IsProducer(g, 1);
    forall p | 0 <= p < PerimeterSize(BOARD_1_BY_1) ensures OneDeviceAt(g, StaysOnBoard, p, |g.nodes|) {
      assert forall k | IsProducer(g, k) :: k == 0;
    }
  }

  lemma StaysOnBoardSlots()
    ensures DispenserSlots(BOARD_1_BY_1, StaysOnBoard, 0) == {0}
    ensures SinkSlots(BOARD_1_BY_1, StaysOnBoard) == {1}
  {
  }

  lemma StaysOnBoardMoves()
    ensures Movement(DISPENSE_TO_OUTPUT, BOARD_1_BY_1, StaysOnBoard)
  {
    assert Touching(BOARD_1_BY_1, 0, 0)[0] == 0;
  }

  /** The output rule with the last-step request made for every schedule. */
  ghost predicate StrictOutputRule(d: Dims, a: Assignment, src: int) {
    VanishesIntoSink(d, a, src) && Gone(d, a, src, d.time)
  }

  ghost predicate StrictOutput(g: GraphData, d: Dims, a: Assignment) {
    forall i | 0 <= i < |g.nodes| && g.nodes[i].kind.Output? && FirstSource(g.edges, i).Some? ::
      StrictOutputRule(d, a, FirstSource(g.edges, i).value)
  }

  /** The encoding with both corrections. */
  ghost predicate StrictEncoding(g: GraphData, d: Dims, a: Assignment) {
    && Consistency(g, d, a)
    && Placement(g, d, a)
    && StrictMovement(g, d, a)
    && StrictOutput(g, d, a)
  }

  /** The corrections only add constraints. */
  lemma StrictEncodingRefines(g: GraphData, d: Dims, a: Assignment)
    requires StrictEncoding(g, d, a)
    ensures Encoding(g, d, a)
  {
    assert Movement(g, d, a) by {
      forall i, x, y, t | IsProducer(g, i) && InGrid(d, x, y) && InTime(d, t) ensures MoveRule(g, d, a, i, x, y, t) {
        assert StrictMoveRule(g, d, a, i, x, y, t);
      }
    }
    assert Families.Output(g, d, a) by {
      forall i | 0 <= i < |g.nodes| && g.nodes[i].kind.Output? && FirstSource(g.edges, i).Some?
        ensures OutputRule(d, a, FirstSource(g.edges, i).value)
      {
        assert StrictOutputRule(d, a, FirstSource(g.edges, i).value);
      }
    }
  }

  /** With the corrected output rule the droplet an OUTPUT node consumes
      leaves the board next to a sink in use on every schedule; in
      particular one time step is never enough. */
  lemma StrictOutputLeavesBySink(g: GraphData, d: Dims, a: Assignment, i: int, k: int)
    requires StrictEncoding(g, d, a)
    requires 0 <= i < |g.nodes| && g.nodes[i].kind.Output? && FirstSource(g.edges, i).Some?
    requires IsProducer(g, k) && g.nodes[k].id == FirstSource(g.edges, i).value
    ensures d.time >= 2
    ensures exists x, y, t | InGrid(d, x, y) && 2 <= t <= d.time ::
              Vanishes(d, a, g.nodes[k].id, x, y, t) && SinkNext(d, a, x, y)
  {
    assert StrictOutputRule(d, a, g.nodes[k].id);
    assert Alive(d, a, g.nodes[k].id);
    LeavesBySink(d, a, g.nodes[k].id);
  }
}
