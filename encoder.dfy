/** The encoder of src/Solver.cpp: the loops that build the vectors of z3
    expressions, each proved to mean the constraint family it is written
    for, and the Solver object whose constructor asserts them all. */
module Encoder {
  import opened Nodes
  import opened GraphParser
  import opened Constraints
  import opened Board
  import opened Families

  // ------------------------------------------------------------------
  // One step of a vector that is passed to atmost(vec, 1)

  /** `vs` counts the DISPENSE/MIX droplets before position `n` that are on
      (x, y) at t: none when none is there, one at most when one at most is. */
  ghost predicate CountsProducers(g: GraphData, vs: seq<Var>, x: int, y: int, t: int, n: int) {
    forall a: Assignment ::
      && (CountTrue(a, vs) == 0 <==> NoProducerAt(g, a, x, y, t, n))
      && (CountTrue(a, vs) <= 1 <==> OneProducerAt(g, a, x, y, t, n))
  }

  lemma ProducersStep(g: GraphData, vs: seq<Var>, x: int, y: int, t: int, k: int)
    requires 0 <= k < |g.nodes| && CountsProducers(g, vs, x, y, t, k)
    ensures CountsProducers(g, if Producer(g.nodes[k]) then vs + [Occupancy(x, y, g.nodes[k].id, t)] else vs, x, y, t, k + 1)
  {
    var v := Occupancy(x, y, g.nodes[k].id, t);
    var vs' := if Producer(g.nodes[k]) then vs + [v] else vs;
    forall a: Assignment
      ensures CountTrue(a, vs') == 0 <==> NoProducerAt(g, a, x, y, t, k + 1)
      ensures CountTrue(a, vs') <= 1 <==> OneProducerAt(g, a, x, y, t, k + 1)
    {
      CountTrueSnoc(a, vs, v);
    }
  }

  /** The DISPENSE/MIX droplets that could be on (x, y) at t, in node order
      (src/Solver.cpp:212-217). */
  method ProducersAt(g: GraphData, x: int, y: int, t: int) returns (vs: seq<Var>)
    ensures forall a :: CountTrue(a, vs) <= 1 <==> OneProducerAt(g, a, x, y, t, |g.nodes|)
  {
    vs := [];
    var k := 0;
    while k < |g.nodes|
      invariant 0 <= k <= |g.nodes|
      invariant CountsProducers(g, vs, x, y, t, k)
    {
      ProducersStep(g, vs, x, y, t, k);
      if Producer(g.nodes[k]) {
        vs := vs + [Occupancy(x, y, g.nodes[k].id, t)];
      }
      k := k + 1;
    }
  }

  /** `vs` counts droplet `id` on the cells before (i, j) at t. */
  ghost predicate CountsCells(d: Dims, vs: seq<Var>, id: int, t: int, i: int, j: int) {
    forall a: Assignment ::
      && (CountTrue(a, vs) == 0 <==> NoCellBefore(d, a, id, t, i, j))
      && (CountTrue(a, vs) <= 1 <==> OneCellBefore(d, a, id, t, i, j))
  }

  lemma CellsStep(d: Dims, vs: seq<Var>, id: int, t: int, i: int, j: int)
    requires InGrid(d, i, j) && CountsCells(d, vs, id, t, i, j)
    ensures CountsCells(d, vs + [Occupancy(i, j, id, t)], id, t, i, j + 1)
  {
    var v := Occupancy(i, j, id, t);
    forall a: Assignment
      ensures CountTrue(a, vs + [v]) == 0 <==> NoCellBefore(d, a, id, t, i, j + 1)
      ensures CountTrue(a, vs + [v]) <= 1 <==> OneCellBefore(d, a, id, t, i, j + 1)
    {
      CountTrueSnoc(a, vs, v);
      CellBeforeStep(d, a, id, t, i, j);
    }
  }

  lemma CellBeforeStep(d: Dims, a: Assignment, id: int, t: int, i: int, j: int)
    requires InGrid(d, i, j)
    ensures NoCellBefore(d, a, id, t, i, j + 1) <==> NoCellBefore(d, a, id, t, i, j) && !At(a, i, j, id, t)
    ensures OneCellBefore(d, a, id, t, i, j + 1) <==>
              OneCellBefore(d, a, id, t, i, j) && (At(a, i, j, id, t) ==> NoCellBefore(d, a, id, t, i, j))
  {
    assert CellBefore(d, i, j, i, j + 1);
    assert forall x, y | CellBefore(d, x, y, i, j) :: CellBefore(d, x, y, i, j + 1);
    assert forall x, y | CellBefore(d, x, y, i, j + 1) :: CellBefore(d, x, y, i, j) || (x == i && y == j);
    if OneCellBefore(d, a, id, t, i, j + 1) && At(a, i, j, id, t) {
      forall x, y | CellBefore(d, x, y, i, j) ensures !At(a, x, y, id, t) {
        assert x != i || y != j;
      }
    }
  }

  lemma CellsRowDone(d: Dims, vs: seq<Var>, id: int, t: int, i: int)
    requires CountsCells(d, vs, id, t, i, d.width)
    ensures CountsCells(d, vs, id, t, i + 1, 0)
  {
    assert forall x, y :: CellBefore(d, x, y, i, d.width) <==> CellBefore(d, x, y, i + 1, 0);
  }

  /** The cells of the board for droplet `id` at t, row by row
      (src/Solver.cpp:231-235, 265-269, 429-433): at most one of them is true
      exactly when the droplet is on at most one cell, and one is true exactly
      when the droplet is somewhere. */
  method GridCells(d: Dims, id: int, t: int) returns (vs: seq<Var>)
    ensures forall a :: CountTrue(a, vs) <= 1 <==> OneCell(d, a, id, t)
    ensures forall a :: SomeTrue(a, vs) <==> Somewhere(d, a, id, t)
  {
    vs := [];
    var i := 0;
    while i < d.height
      invariant 0 <= i <= d.height
      invariant CountsCells(d, vs, id, t, i, 0)
    {
      var j := 0;
      while j < d.width
        invariant 0 <= j <= d.width
        invariant CountsCells(d, vs, id, t, i, j)
      {
        CellsStep(d, vs, id, t, i, j);
        vs := vs + [Occupancy(i, j, id, t)];
        j := j + 1;
      }
      CellsRowDone(d, vs, id, t, i);
      i := i + 1;
    }
    forall a: Assignment
      ensures CountTrue(a, vs) <= 1 <==> OneCell(d, a, id, t)
      ensures SomeTrue(a, vs) <==> Somewhere(d, a, id, t)
    {
      CountTrueZero(a, vs);
      assert forall x, y :: CellBefore(d, x, y, d.height, 0) <==> InGrid(d, x, y);
    }
  }

  /** `vs` counts the sink at p and the DISPENSE/MIX dispensers at p before
      position `n`. */
  ghost predicate CountsDevices(g: GraphData, vs: seq<Var>, p: int, n: int) {
    forall a: Assignment ::
      && (CountTrue(a, vs) == 0 <==> !a(Sink(p)) && NoDispenserAt(g, a, p, n))
      && (CountTrue(a, vs) <= 1 <==> OneDeviceAt(g, a, p, n))
  }

  lemma DevicesStep(g: GraphData, vs: seq<Var>, p: int, k: int)
    requires 0 <= k < |g.nodes| && CountsDevices(g, vs, p, k)
    ensures CountsDevices(g, if Producer(g.nodes[k]) then vs + [Dispenser(p, k)] else vs, p, k + 1)
  {
    var v := Dispenser(p, k);
    var vs' := if Producer(g.nodes[k]) then vs + [v] else vs;
    forall a: Assignment
      ensures CountTrue(a, vs') == 0 <==> !a(Sink(p)) && NoDispenserAt(g, a, p, k + 1)
      ensures CountTrue(a, vs') <= 1 <==> OneDeviceAt(g, a, p, k + 1)
    {
      CountTrueSnoc(a, vs, v);
    }
  }

  /** The sink at p followed by the dispensers of the DISPENSE/MIX nodes at p
      (src/Solver.cpp:246-252). */
  method DevicesAt(g: GraphData, p: int) returns (vs: seq<Var>)
    ensures forall a :: CountTrue(a, vs) <= 1 <==> OneDeviceAt(g, a, p, |g.nodes|)
  {
    vs := [Sink(p)];
    assert forall a: Assignment :: CountTrue(a, vs) == CountTrue(a, []) + (if a(Sink(p)) then 1 else 0);
    var k := 0;
    while k < |g.nodes|
      invariant 0 <= k <= |g.nodes|
      invariant CountsDevices(g, vs, p, k)
    {
      DevicesStep(g, vs, p, k);
      if Producer(g.nodes[k]) {
        vs := vs + [Dispenser(p, k)];
      }
      k := k + 1;
    }
  }

  // ------------------------------------------------------------------
  // add_consistency (src/Solver.cpp:205-275)

  /** consistency1_vec: one atmost(vec, 1) per cell and time step
      (src/Solver.cpp:208-221). */
  method CellsExclusiveVec(g: GraphData, d: Dims) returns (es: seq<Expr>)
    ensures forall a :: Eval(a, And(es)) <==> CellsExclusive(g, d, a)
  {
    es := [];
    var i := 0;
    while i < d.height
      invariant 0 <= i <= d.height
      invariant forall a :: Eval(a, And(es)) <==>
                  forall x, y, t | 0 <= x < i && InGrid(d, x, y) && InTime(d, t) :: OneProducerAt(g, a, x, y, t, |g.nodes|)
    {
      var row: seq<Expr> := [];
      var j := 0;
      while j < d.width
        invariant 0 <= j <= d.width
        invariant forall a :: Eval(a, And(row)) <==>
                    forall y, t | 0 <= y < j && InTime(d, t) :: OneProducerAt(g, a, i, y, t, |g.nodes|)
      {
        var cell: seq<Expr> := [];
        var t := 1;
        while t <= d.time
          invariant 1 <= t <= d.time + 1
          invariant forall a :: Eval(a, And(cell)) <==>
                      forall t' | 1 <= t' < t :: OneProducerAt(g, a, i, j, t', |g.nodes|)
        {
          var vs := ProducersAt(g, i, j, t);
          forall a: Assignment
            ensures Eval(a, And(cell + [AtMost(vs, 1)])) <==> Eval(a, And(cell)) && OneProducerAt(g, a, i, j, t, |g.nodes|)
          {
            AndSnoc(a, cell, AtMost(vs, 1));
          }
          cell := cell + [AtMost(vs, 1)];
          t := t + 1;
        }
        forall a: Assignment ensures Eval(a, And(row + cell)) <==> Eval(a, And(row)) && Eval(a, And(cell)) {
          AndConcat(a, row, cell);
        }
        row := row + cell;
        j := j + 1;
      }
      forall a: Assignment ensures Eval(a, And(es + row)) <==> Eval(a, And(es)) && Eval(a, And(row)) {
        AndConcat(a, es, row);
      }
      es := es + row;
      i := i + 1;
    }
  }

  /** consistency2_vec: one atmost(vec, 1) per DISPENSE/MIX node and time
      step over all cells (src/Solver.cpp:226-239). */
  method DropletsSingleVec(g: GraphData, d: Dims) returns (es: seq<Expr>)
    ensures forall a :: Eval(a, And(es)) <==> DropletsSingle(g, d, a)
  {
    es := [];
    var k := 0;
    while k < |g.nodes|
      invariant 0 <= k <= |g.nodes|
      invariant forall a :: Eval(a, And(es)) <==>
                  forall k', t | IsProducer(g, k') && k' < k && InTime(d, t) :: OneCell(d, a, g.nodes[k'].id, t)
    {
      if Producer(g.nodes[k]) {
        var id := g.nodes[k].id;
        var steps: seq<Expr> := [];
        var t := 1;
        while t <= d.time
          invariant 1 <= t <= d.time + 1
          invariant forall a :: Eval(a, And(steps)) <==> forall t' | 1 <= t' < t :: OneCell(d, a, id, t')
        {
          var vs := GridCells(d, id, t);
          forall a: Assignment
            ensures Eval(a, And(steps + [AtMost(vs, 1)])) <==> Eval(a, And(steps)) && OneCell(d, a, id, t)
          {
            AndSnoc(a, steps, AtMost(vs, 1));
          }
          steps := steps + [AtMost(vs, 1)];
          t := t + 1;
        }
        forall a: Assignment
          ensures Eval(a, And(es + steps)) <==>
                    forall k', t | IsProducer(g, k') && k' < k + 1 && InTime(d, t) :: OneCell(d, a, g.nodes[k'].id, t)
        {
          AndConcat(a, es, steps);
          assert Eval(a, And(steps)) <==> forall t | InTime(d, t) :: OneCell(d, a, g.nodes[k].id, t);
        }
        es := es + steps;
      }
      k := k + 1;
    }
  }

  /** consistency3_vec: one atmost(vec, 1) per position around the board
      (src/Solver.cpp:244-254). */
  method PositionsExclusiveVec(g: GraphData, d: Dims) returns (es: seq<Expr>)
    ensures forall a :: Eval(a, And(es)) <==> PositionsExclusive(g, d, a)
  {
    es := [];
    var p := 0;
    while p < PerimeterSize(d)
      invariant 0 <= p <= PerimeterSize(d)
      invariant forall a :: Eval(a, And(es)) <==> forall p' | 0 <= p' < p :: OneDeviceAt(g, a, p', |g.nodes|)
    {
      var vs := DevicesAt(g, p);
      forall a: Assignment
        ensures Eval(a, And(es + [AtMost(vs, 1)])) <==> Eval(a, And(es)) && OneDeviceAt(g, a, p, |g.nodes|)
      {
        AndSnoc(a, es, AtMost(vs, 1));
      }
      es := es + [AtMost(vs, 1)];
      p := p + 1;
    }
  }

  /** consistency4_vec: per DISPENSE/MIX node, the disjunction of all its
      occupancy unknowns, time step by time step (src/Solver.cpp:260-273). */
  method DropletsAliveVec(g: GraphData, d: Dims) returns (es: seq<Expr>)
    ensures forall a :: Eval(a, And(es)) <==> DropletsAlive(g, d, a)
  {
    es := [];
    var k := 0;
    while k < |g.nodes|
      invariant 0 <= k <= |g.nodes|
      invariant forall a :: Eval(a, And(es)) <==>
                  forall k' | IsProducer(g, k') && k' < k :: Alive(d, a, g.nodes[k'].id)
    {
      if Producer(g.nodes[k]) {
        var id := g.nodes[k].id;
        var vs: seq<Var> := [];
        var t := 1;
        while t <= d.time
          invariant 1 <= t <= d.time + 1
          invariant forall a :: SomeTrue(a, vs) <==> exists t' | 1 <= t' < t :: Somewhere(d, a, id, t')
        {
          var cells := GridCells(d, id, t);
          forall a: Assignment ensures SomeTrue(a, vs + cells) <==> SomeTrue(a, vs) || SomeTrue(a, cells) {
            SomeTrueConcat(a, vs, cells);
          }
          vs := vs + cells;
          t := t + 1;
        }
        forall a: Assignment
          ensures Eval(a, And(es + [AnyOf(vs)])) <==> Eval(a, And(es)) && Alive(d, a, id)
        {
          AndSnoc(a, es, AnyOf(vs));
          EvalAnyOf(a, vs);
        }
        es := es + [AnyOf(vs)];
      }
      k := k + 1;
    }
  }

  // ------------------------------------------------------------------
  // add_placement (src/Solver.cpp:277-304)

  /** The positions below n that satisfy `holds`. */
  ghost function PositionsBelow(holds: int -> bool, n: int): set<int> {
    set p | 0 <= p < n && holds(p)
  }

  lemma PositionsBelowStep(holds: int -> bool, n: nat)
    ensures |PositionsBelow(holds, n + 1)| == |PositionsBelow(holds, n)| + (if holds(n) then 1 else 0)
  {
    if holds(n) {
      assert PositionsBelow(holds, n + 1) == PositionsBelow(holds, n) + {n};
    } else {
      assert PositionsBelow(holds, n + 1) == PositionsBelow(holds, n);
    }
  }

  /** atmost(vs, n) together with atleast(vs, n) means exactly n. */
  lemma BothBounds(a: Assignment, vs: seq<Var>, n: int)
    ensures Eval(a, And([AtMost(vs, n), AtLeast(vs, n)])) <==> CountTrue(a, vs) == n
  {
    var pair := [AtMost(vs, n), AtLeast(vs, n)];
    assert Eval(a, And(pair)) <==> Eval(a, pair[0]) && Eval(a, pair[1]);
  }

  /** The dispensers of node position k at every position around the board
      (src/Solver.cpp:289-291): the number of true ones is the number of
      positions holding a dispenser of k. */
  method DispenserColumn(d: Dims, k: int) returns (vs: seq<Var>)
    ensures forall a :: CountTrue(a, vs) == |DispenserSlots(d, a, k)|
  {
    vs := [];
    var p := 0;
    while p < PerimeterSize(d)
      invariant 0 <= p <= PerimeterSize(d)
      invariant forall a: Assignment :: CountTrue(a, vs) == |PositionsBelow(q => a(Dispenser(q, k)), p)|
    {
      forall a: Assignment
        ensures CountTrue(a, vs + [Dispenser(p, k)]) == |PositionsBelow(q => a(Dispenser(q, k)), p + 1)|
      {
        CountTrueSnoc(a, vs, Dispenser(p, k));
        PositionsBelowStep(q => a(Dispenser(q, k)), p);
      }
      vs := vs + [Dispenser(p, k)];
      p := p + 1;
    }
    forall a: Assignment ensures CountTrue(a, vs) == |DispenserSlots(d, a, k)| {
      assert PositionsBelow(q => a(Dispenser(q, k)), PerimeterSize(d)) == DispenserSlots(d, a, k);
    }
  }

  /** sink_vec: the sink at every position (src/Solver.cpp:297-300). */
  method SinkRow(d: Dims) returns (vs: seq<Var>)
    ensures forall a :: CountTrue(a, vs) == |SinkSlots(d, a)|
  {
    vs := [];
    var p := 0;
    while p < PerimeterSize(d)
      invariant 0 <= p <= PerimeterSize(d)
      invariant forall a: Assignment :: CountTrue(a, vs) == |PositionsBelow(q => a(Sink(q)), p)|
    {
      forall a: Assignment
        ensures CountTrue(a, vs + [Sink(p)]) == |PositionsBelow(q => a(Sink(q)), p + 1)|
      {
        CountTrueSnoc(a, vs, Sink(p));
        PositionsBelowStep(q => a(Sink(q)), p);
      }
      vs := vs + [Sink(p)];
      p := p + 1;
    }
    forall a: Assignment ensures CountTrue(a, vs) == |SinkSlots(d, a)| {
      assert PositionsBelow(q => a(Sink(q)), PerimeterSize(d)) == SinkSlots(d, a);
    }
  }

  /** placement2_vec: atmost and atleast n for the dispensers of every
      DISPENSE/MIX node (n = 1 for DISPENSE, 0 for MIX), then atmost and
      atleast num_output for the sinks (src/Solver.cpp:285-302). */
  method PlacementVec(g: GraphData, d: Dims) returns (es: seq<Expr>)
    ensures forall a :: Eval(a, And(es)) <==> Placement(g, d, a)
  {
    es := [];
    var k := 0;
    while k < |g.nodes|
      invariant 0 <= k <= |g.nodes|
      invariant forall a :: Eval(a, And(es)) <==>
                  forall k' | IsProducer(g, k') && k' < k :: |DispenserSlots(d, a, k')| == DispenserCount(g.nodes[k'])
    {
      if Producer(g.nodes[k]) {
        var vs := DispenserColumn(d, k);
        var n := if g.nodes[k].kind.Dispense? then 1 else 0;
        forall a: Assignment
          ensures Eval(a, And(es + [AtMost(vs, n), AtLeast(vs, n)])) <==>
                    Eval(a, And(es)) && |DispenserSlots(d, a, k)| == DispenserCount(g.nodes[k])
        {
          AndConcat(a, es, [AtMost(vs, n), AtLeast(vs, n)]);
          BothBounds(a, vs, n);
        }
        es := es + [AtMost(vs, n), AtLeast(vs, n)];
      }
      k := k + 1;
    }
    var sinks := SinkRow(d);
    forall a: Assignment
      ensures Eval(a, And(es + [AtMost(sinks, g.numOutput), AtLeast(sinks, g.numOutput)])) <==>
                Eval(a, And(es)) && |SinkSlots(d, a)| == g.numOutput
    {
      AndConcat(a, es, [AtMost(sinks, g.numOutput), AtLeast(sinks, g.numOutput)]);
      BothBounds(a, sinks, g.numOutput);
    }
    es := es + [AtMost(sinks, g.numOutput), AtLeast(sinks, g.numOutput)];
  }

  // ------------------------------------------------------------------
  // add_movement (src/Solver.cpp:306-386)

  /** The occupancy unknowns of droplet `id` at t on the cells of the `neigh`
      table around (x, y) that are on the board (src/Solver.cpp:316-322,
      353-364, 400-406).  Around a cell of the board there is at least one:
      the cell itself. */
  method Neighbourhood(d: Dims, id: int, x: int, y: int, t: int) returns (vs: seq<Var>)
    ensures forall a :: SomeTrue(a, vs) <==> Near(d, a, id, x, y, t)
    ensures InGrid(d, x, y) ==> |vs| > 0
  {
    vs := [];
    var k := 0;
    while k < |Neigh|
      invariant 0 <= k <= |Neigh|
      invariant forall a :: SomeTrue(a, vs) <==>
                  exists k' | 0 <= k' < k ::
                    InGrid(d, x + Neigh[k'].0, y + Neigh[k'].1) && At(a, x + Neigh[k'].0, y + Neigh[k'].1, id, t)
      invariant k == |Neigh| && InGrid(d, x, y) ==> |vs| > 0
    {
      var xx := x + Neigh[k].0;
      var yy := y + Neigh[k].1;
      if 0 <= xx && 0 <= yy && xx < d.height && yy < d.width {
        forall a: Assignment ensures SomeTrue(a, vs + [Occupancy(xx, yy, id, t)]) <==> SomeTrue(a, vs) || At(a, xx, yy, id, t) {
          SomeTrueSnoc(a, vs, Occupancy(xx, yy, id, t));
        }
        vs := vs + [Occupancy(xx, yy, id, t)];
      }
      k := k + 1;
    }
  }

  /** mix_vec: for every edge into node position i, its source is near (x, y)
      at t - time - 1 and not near it at t - time (src/Solver.cpp:347-370). */
  method MixInputs(g: GraphData, d: Dims, i: int, x: int, y: int, t: int, mixTime: int) returns (es: seq<Expr>)
    ensures forall a :: Eval(a, And(es)) <==> InputsMixed(g, d, a, i, x, y, t, mixTime)
  {
    es := [];
    var e := 0;
    while e < |g.edges|
      invariant 0 <= e <= |g.edges|
      invariant forall a :: Eval(a, And(es)) <==>
                  forall e' | 0 <= e' < e && g.edges[e'].1 == i ::
                    Near(d, a, g.edges[e'].0, x, y, t - mixTime - 1) && !Near(d, a, g.edges[e'].0, x, y, t - mixTime)
    {
      if g.edges[e].1 == i {
        var src := g.edges[e].0;
        var before := Neighbourhood(d, src, x, y, t - mixTime - 1);
        var after := Neighbourhood(d, src, x, y, t - mixTime);
        var pair := [AnyOf(before), Not(AnyOf(after))];
        forall a: Assignment
          ensures Eval(a, And(es + pair)) <==> Eval(a, And(es)) && SomeTrue(a, before) && !SomeTrue(a, after)
        {
          AppearThenVanish(a, es, before, after);
        }
        es := es + pair;
      }
      e := e + 1;
    }
  }

  lemma AppearThenVanish(a: Assignment, es: seq<Expr>, before: seq<Var>, after: seq<Var>)
    ensures Eval(a, And(es + [AnyOf(before), Not(AnyOf(after))])) <==>
              Eval(a, And(es)) && SomeTrue(a, before) && !SomeTrue(a, after)
  {
    var pair := [AnyOf(before), Not(AnyOf(after))];
    AndConcat(a, es, pair);
    EvalAnyOf(a, before);
    EvalAnyOf(a, after);
    assert Eval(a, And(pair)) <==> Eval(a, pair[0]) && Eval(a, pair[1]);
  }

  /** The dispensers of `id` on the positions next to (x, y), checked in the
      encoder's order (src/Solver.cpp:327-340). */
  method PouringDispensers(d: Dims, id: int, x: int, y: int) returns (vs: seq<Var>)
    ensures |vs| == |Touching(d, x, y)|
    ensures forall j | 0 <= j < |vs| :: vs[j] == Dispenser(Touching(d, x, y)[j], id)
  {
    vs := [];
    if x == 0 {
      vs := vs + [Dispenser(y, id)];
    }
    if y == 0 {
      vs := vs + [Dispenser(2 * (d.width + d.height) - x - 1, id)];
    }
    if x == d.height - 1 {
      vs := vs + [Dispenser(2 * d.width + d.height - y - 1, id)];
    }
    if y == d.width - 1 {
      vs := vs + [Dispenser(d.width + x, id)];
    }
  }

  /** vec of the movement loop for node position i at (x, y) and t
      (src/Solver.cpp:313-377): it is empty exactly when the encoder has no
      origin for the droplet there, and its disjunction says the droplet was
      carried, poured or mixed. */
  method Origins(g: GraphData, d: Dims, i: int, x: int, y: int, t: int) returns (vec: seq<Expr>)
    requires 0 <= i < |g.nodes| && InGrid(d, x, y)
    ensures |vec| > 0 <==> HasOrigin(g, d, i, x, y, t)
    ensures forall a :: Eval(a, Or(vec)) <==>
              Carried(d, a, g.nodes[i].id, x, y, t) || Poured(g, d, a, i, x, y) || Mixed(g, d, a, i, x, y, t)
  {
    var id := g.nodes[i].id;
    var carried: seq<Expr> := [];
    if t > 1 {
      var near := Neighbourhood(d, id, x, y, t - 1);
      carried := Lits(near);
      forall a: Assignment ensures Eval(a, Or(carried)) <==> Near(d, a, id, x, y, t - 1) {
        EvalAnyOf(a, near);
      }
    }
    var poured: seq<Expr> := [];
    if g.nodes[i].kind.Dispense? {
      var pour := PouringDispensers(d, id, x, y);
      poured := Lits(pour);
      forall a: Assignment ensures Eval(a, Or(poured)) <==> Poured(g, d, a, i, x, y) {
        EvalAnyOf(a, pour);
      }
      TouchingShape(d, x, y);
    }
    var mixed: seq<Expr> := [];
    if g.nodes[i].kind.Mix? {
      var mixTime := g.nodes[i].kind.time;
      if t >= mixTime + 2 {
        var mixVec := MixInputs(g, d, i, x, y, t, mixTime);
        mixed := [And(mixVec)];
      } else {
        mixed := [False];
      }
      forall a: Assignment ensures Eval(a, Or(mixed)) <==> Mixed(g, d, a, i, x, y, t) {
        assert Eval(a, Or(mixed)) <==> Eval(a, mixed[0]);
      }
    }
    vec := carried + poured + mixed;
    forall a: Assignment
      ensures Eval(a, Or(vec)) <==> Eval(a, Or(carried)) || Eval(a, Or(poured)) || Eval(a, Or(mixed))
    {
      OrConcat(a, carried + poured, mixed);
      OrConcat(a, carried, poured);
    }
  }

  /** The movement implications of node position i, over x, y and t
      (src/Solver.cpp:310-381): one `implies` for every point where vec is
      not empty. */
  method MovementOf(g: GraphData, d: Dims, i: int) returns (es: seq<Expr>)
    requires 0 <= i < |g.nodes|
    ensures forall a :: Eval(a, And(es)) <==>
              forall x, y, t | InGrid(d, x, y) && InTime(d, t) :: MoveRule(g, d, a, i, x, y, t)
  {
    var id := g.nodes[i].id;
    es := [];
    var x := 0;
    while x < d.height
      invariant 0 <= x <= d.height
      invariant forall a :: Eval(a, And(es)) <==>
                  forall x', y, t | 0 <= x' < x && InGrid(d, x', y) && InTime(d, t) :: MoveRule(g, d, a, i, x', y, t)
    {
      var row: seq<Expr> := [];
      var y := 0;
      while y < d.width
        invariant 0 <= y <= d.width
        invariant forall a :: Eval(a, And(row)) <==>
                    forall y', t | 0 <= y' < y && InTime(d, t) :: MoveRule(g, d, a, i, x, y', t)
      {
        var cell: seq<Expr> := [];
        var t := 1;
        while t <= d.time
          invariant 1 <= t <= d.time + 1
          invariant forall a :: Eval(a, And(cell)) <==>
                      forall t' | 1 <= t' < t :: MoveRule(g, d, a, i, x, y, t')
        {
          var vec := Origins(g, d, i, x, y, t);
          if |vec| > 0 {
            var rule := Implies(Lit(Occupancy(x, y, id, t)), Or(vec));
            forall a: Assignment
              ensures Eval(a, And(cell + [rule])) <==> Eval(a, And(cell)) && MoveRule(g, d, a, i, x, y, t)
            {
              AndSnoc(a, cell, rule);
            }
            cell := cell + [rule];
          }
          t := t + 1;
        }
        forall a: Assignment ensures Eval(a, And(row + cell)) <==> Eval(a, And(row)) && Eval(a, And(cell)) {
          AndConcat(a, row, cell);
        }
        row := row + cell;
        y := y + 1;
      }
      forall a: Assignment ensures Eval(a, And(es + row)) <==> Eval(a, And(es)) && Eval(a, And(row)) {
        AndConcat(a, es, row);
      }
      es := es + row;
      x := x + 1;
    }
  }

  /** The `movement` vector (src/Solver.cpp:307-386): its conjunction is the
      movement rule of every DISPENSE and MIX node. */
  method MovementVec(g: GraphData, d: Dims) returns (es: seq<Expr>)
    ensures forall a :: Eval(a, And(es)) <==> Movement(g, d, a)
  {
    es := [];
    var i := 0;
    while i < |g.nodes|
      invariant 0 <= i <= |g.nodes|
      invariant forall a :: Eval(a, And(es)) <==>
                  forall i', x, y, t | IsProducer(g, i') && i' < i && InGrid(d, x, y) && InTime(d, t) :: MoveRule(g, d, a, i', x, y, t)
    {
      if g.nodes[i].kind.Dispense? || g.nodes[i].kind.Mix? {
        var block := MovementOf(g, d, i);
        forall a: Assignment ensures Eval(a, And(es + block)) <==> Eval(a, And(es)) && Eval(a, And(block)) {
          AndConcat(a, es, block);
        }
        es := es + block;
      }
      i := i + 1;
    }
  }

  // ------------------------------------------------------------------
  // Output consumption (src/Solver.cpp:388-442)

  /** adj_sink: the sinks on the positions next to (x, y), checked in the
      encoder's order (src/Solver.cpp:411-424). */
  method AdjacentSinks(d: Dims, x: int, y: int) returns (vs: seq<Var>)
    ensures |vs| == |Touching(d, x, y)|
    ensures forall j | 0 <= j < |vs| :: vs[j] == Sink(Touching(d, x, y)[j])
  {
    vs := [];
    if x == 0 {
      vs := vs + [Sink(y)];
    }
    if y == 0 {
      vs := vs + [Sink(2 * (d.width + d.height) - x - 1)];
    }
    if x == d.height - 1 {
      vs := vs + [Sink(2 * d.width + d.height - y - 1)];
    }
    if y == d.width - 1 {
      vs := vs + [Sink(d.width + x)];
    }
  }

  /** The two assertions the encoder adds for droplet `src` at (x, y) and t:
      vanishing there needs an adjacent sink, and the droplet is on no cell
      at the last time step (src/Solver.cpp:399-434). */
  method VanishPair(d: Dims, src: int, x: int, y: int, t: int) returns (es: seq<Expr>)
    ensures forall a :: Eval(a, And(es)) <==>
              (Vanishes(d, a, src, x, y, t) ==> SinkNext(d, a, x, y)) && Gone(d, a, src, d.time)
  {
    var near := Neighbourhood(d, src, x, y, t);
    var disappear := And([Lit(Occupancy(x, y, src, t - 1)), Not(AnyOf(near))]);
    var adj := AdjacentSinks(d, x, y);
    var last := GridCells(d, src, d.time);
    es := [Implies(disappear, AnyOf(adj)), Not(AnyOf(last))];
    forall a: Assignment
      ensures Eval(a, And(es)) <==>
                (Vanishes(d, a, src, x, y, t) ==> SinkNext(d, a, x, y)) && Gone(d, a, src, d.time)
    {
      EvalAnyOf(a, near);
      EvalAnyOf(a, adj);
      EvalAnyOf(a, last);
      var ds := [Lit(Occupancy(x, y, src, t - 1)), Not(AnyOf(near))];
      assert Eval(a, disappear) <==> Eval(a, ds[0]) && Eval(a, ds[1]);
      assert Eval(a, And(es)) <==> Eval(a, es[0]) && Eval(a, es[1]);
      assert SomeTrue(a, adj) <==> SinkNext(d, a, x, y) by {
        if SomeTrue(a, adj) {
          var j :| 0 <= j < |adj| && a(adj[j]);
          assert a(Sink(Touching(d, x, y)[j]));
        }
      }
    }
  }

  /** Every assertion the encoder adds for the source `src` of an OUTPUT
      node, over x, y and t from 2 (src/Solver.cpp:398-436). */
  method SourceRule(d: Dims, src: int) returns (es: seq<Expr>)
    ensures forall a :: Eval(a, And(es)) <==> OutputRule(d, a, src)
  {
    es := [];
    var x := 0;
    while x < d.height
      invariant 0 <= x <= d.height
      invariant forall a :: Eval(a, And(es)) <==>
                  (forall x', y, t | 0 <= x' < x && InGrid(d, x', y) && 2 <= t <= d.time ::
                     Vanishes(d, a, src, x', y, t) ==> SinkNext(d, a, x', y))
                  && (x > 0 && d.width > 0 && d.time >= 2 ==> Gone(d, a, src, d.time))
    {
      var row: seq<Expr> := [];
      var y := 0;
      while y < d.width
        invariant 0 <= y <= d.width
        invariant forall a :: Eval(a, And(row)) <==>
                    (forall y', t | 0 <= y' < y && 2 <= t <= d.time ::
                       Vanishes(d, a, src, x, y', t) ==> SinkNext(d, a, x, y'))
                    && (y > 0 && d.time >= 2 ==> Gone(d, a, src, d.time))
      {
        var cell: seq<Expr> := [];
        var t := 2;
        while t <= d.time
          invariant 2 <= t <= d.time + 1 || (t == 2 && d.time < 2)
          invariant forall a :: Eval(a, And(cell)) <==>
                      (forall t' | 2 <= t' < t && t' <= d.time ::
                         Vanishes(d, a, src, x, y, t') ==> SinkNext(d, a, x, y))
                      && (t > 2 ==> Gone(d, a, src, d.time))
        {
          var pair := VanishPair(d, src, x, y, t);
          forall a: Assignment ensures Eval(a, And(cell + pair)) <==> Eval(a, And(cell)) && Eval(a, And(pair)) {
            AndConcat(a, cell, pair);
          }
          cell := cell + pair;
          t := t + 1;
        }
        forall a: Assignment ensures Eval(a, And(row + cell)) <==> Eval(a, And(row)) && Eval(a, And(cell)) {
          AndConcat(a, row, cell);
        }
        row := row + cell;
        y := y + 1;
      }
      forall a: Assignment ensures Eval(a, And(es + row)) <==> Eval(a, And(es)) && Eval(a, And(row)) {
        AndConcat(a, es, row);
      }
      es := es + row;
      x := x + 1;
    }
  }

  /** Skipping edges that do not enter position i keeps the first source. */
  lemma {:induction false} FirstSourceFrom(edges: seq<Edge>, i: int, e: int)
    requires 0 <= e <= |edges|
    requires forall e' | 0 <= e' < e :: edges[e'].1 != i
    ensures FirstSource(edges, i) == FirstSource(edges[e..], i)
  {
    if e > 0 {
      FirstSourceFrom(edges, i, e - 1);
      assert edges[e - 1..][1..] == edges[e..];
    }
  }

  /** The output assertions (src/Solver.cpp:388-442): for every OUTPUT node,
      those for the source of its first incoming edge; the `break` leaves the
      other edges unused. */
  method OutputVec(g: GraphData, d: Dims) returns (es: seq<Expr>)
    ensures forall a :: Eval(a, And(es)) <==> Families.Output(g, d, a)
  {
    es := [];
    var i := 0;
    while i < |g.nodes|
      invariant 0 <= i <= |g.nodes|
      invariant forall a :: Eval(a, And(es)) <==>
                  forall i' | 0 <= i' < i && g.nodes[i'].kind.Output? && FirstSource(g.edges, i').Some? ::
                    OutputRule(d, a, FirstSource(g.edges, i').value)
    {
      if g.nodes[i].kind.Output? {
        var e := 0;
        while e < |g.edges|
          invariant 0 <= e <= |g.edges|
          invariant forall e' | 0 <= e' < e :: g.edges[e'].1 != i
        {
          if g.edges[e].1 == i {
            FirstSourceFrom(g.edges, i, e);
            var rule := SourceRule(d, g.edges[e].0);
            forall a: Assignment ensures Eval(a, And(es + rule)) <==> Eval(a, And(es)) && Eval(a, And(rule)) {
              AndConcat(a, es, rule);
            }
            es := es + rule;
            break;
          }
          e := e + 1;
        }
        if e == |g.edges| {
          FirstSourceFrom(g.edges, i, e);
        }
      }
      i := i + 1;
    }
  }
}
