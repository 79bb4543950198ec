/** The Solver object of src/Solver.cpp: the constructor allocates the
    unknowns and then asserts the consistency, placement, movement and
    output constraints, one `solver.add` after another. */
module SolverState {
  import opened Nodes
  import opened GraphParser
  import opened Constraints
  import opened Board
  import opened Families
  import opened Encoder

  class Solver {
    const graph: GraphData
    const dims: Dims
    /** The unknowns created by `ctx.bool_const`. */
    var unknowns: set<Var>
    /** The expressions passed to `solver.add`, in order. */
    var assertions: seq<Expr>

    /** src/Solver.cpp:10-46: allocation, then the three add_* calls.  The
        solver then holds exactly the encoding. */
    constructor (graph: GraphData, width: nat, height: nat, time: nat)
      ensures this.graph == graph && dims == Dims(width, height, time)
      ensures forall v :: v in unknowns <==> Allocated(graph, dims, v)
      ensures forall a :: Eval(a, And(assertions)) <==> Encoding(graph, dims, a)
    {
      this.graph := graph;
      dims := Dims(width, height, time);
      unknowns := {};
      assertions := [];
      new;
      Allocate();
      forall a: Assignment ensures Eval(a, And(assertions)) {
      }
      AddConsistency();
      AddPlacement();
      AddMovement();
    }

    /** The allocation loops (src/Solver.cpp:18-41): the sinks and
        dispensers position by position, then the occupancy unknowns cell by
        cell for every DISPENSE/MIX node and time step. */
    method Allocate()
      modifies this
      ensures forall v :: v in unknowns <==> Allocated(graph, dims, v)
      ensures assertions == old(assertions)
    {
      var d := dims;
      var size := 2 * (d.height + d.width);
      unknowns := {};
      var p := 0;
      while p < size
        invariant 0 <= p <= size
        invariant assertions == old(assertions)
        invariant forall v :: v in unknowns <==>
                    (v.Sink? && 0 <= v.p < p) || (v.Dispenser? && 0 <= v.p < p && 0 <= v.node < |graph.nodes|)
      {
        unknowns := unknowns + {Sink(p)};
        var k := 0;
        while k < |graph.nodes|
          invariant 0 <= k <= |graph.nodes|
          invariant assertions == old(assertions)
          invariant forall v :: v in unknowns <==>
                      (v.Sink? && 0 <= v.p <= p) || (v.Dispenser? && 0 <= v.p < p && 0 <= v.node < |graph.nodes|)
                      || (v.Dispenser? && v.p == p && 0 <= v.node < k)
        {
          unknowns := unknowns + {Dispenser(p, k)};
          k := k + 1;
        }
        p := p + 1;
      }
      var x := 0;
      while x < d.height
        invariant 0 <= x <= d.height
        invariant assertions == old(assertions)
        invariant forall v :: v in unknowns <==>
                    (!v.Occupancy? && Allocated(graph, d, v)) || (v.Occupancy? && v.x < x && Allocated(graph, d, v))
      {
        var y := 0;
        while y < d.width
          invariant 0 <= y <= d.width
          invariant assertions == old(assertions)
          invariant forall v :: v in unknowns <==>
                      (!v.Occupancy? && Allocated(graph, d, v))
                      || (v.Occupancy? && (v.x < x || (v.x == x && v.y < y)) && Allocated(graph, d, v))
        {
          var cell := CellUnknowns(x, y);
          unknowns := unknowns + cell;
          y := y + 1;
        }
        x := x + 1;
      }
    }

    /** The occupancy unknowns of cell (x, y): for each node, those of time
        steps 1..time when it is DISPENSE or MIX (src/Solver.cpp:30-38). */
    method CellUnknowns(x: int, y: int) returns (cell: set<Var>)
      requires InGrid(dims, x, y)
      ensures forall v :: v in cell <==> v.Occupancy? && v.x == x && v.y == y && Allocated(graph, dims, v)
    {
      cell := {};
      var k := 0;
      while k < |graph.nodes|
        invariant 0 <= k <= |graph.nodes|
        invariant forall v :: v in cell <==>
                    v.Occupancy? && v.x == x && v.y == y && InTime(dims, v.t)
                    && exists k' | 0 <= k' < k :: Producer(graph.nodes[k']) && graph.nodes[k'].id == v.node
      {
        var node := graph.nodes[k];
        var t := 1;
        while t <= dims.time
          invariant 1 <= t <= dims.time + 1
          invariant forall v :: v in cell <==>
                      v.Occupancy? && v.x == x && v.y == y && InTime(dims, v.t)
                      && ((exists k' | 0 <= k' < k :: Producer(graph.nodes[k']) && graph.nodes[k'].id == v.node)
                          || (Producer(node) && v.node == node.id && v.t < t))
        {
          if node.kind.Dispense? || node.kind.Mix? {
            cell := cell + {Occupancy(x, y, node.id, t)};
          }
          t := t + 1;
        }
        k := k + 1;
      }
    }

    /** add_consistency (src/Solver.cpp:205-275): four assertions, one per
        family. */
    method AddConsistency()
      modifies this
      ensures unknowns == old(unknowns)
      ensures |assertions| == |old(assertions)| + 4 && assertions[..|old(assertions)|] == old(assertions)
      ensures forall a :: Eval(a, And(assertions)) <==> Eval(a, And(old(assertions))) && Consistency(graph, dims, a)
    {
      var c1 := CellsExclusiveVec(graph, dims);
      var c2 := DropletsSingleVec(graph, dims);
      var c3 := PositionsExclusiveVec(graph, dims);
      var c4 := DropletsAliveVec(graph, dims);
      var added := [And(c1), And(c2), And(c3), And(c4)];
      forall a: Assignment
        ensures Eval(a, And(assertions + added)) <==> Eval(a, And(assertions)) && Consistency(graph, dims, a)
      {
        AndConcat(a, assertions, added);
        assert Eval(a, And(added)) <==> Eval(a, added[0]) && Eval(a, added[1]) && Eval(a, added[2]) && Eval(a, added[3]);
      }
      assert (assertions + added)[..|assertions|] == assertions;
      assertions := assertions + added;
    }

    /** add_placement (src/Solver.cpp:277-304): one assertion. */
    method AddPlacement()
      modifies this
      ensures unknowns == old(unknowns)
      ensures |assertions| == |old(assertions)| + 1 && assertions[..|old(assertions)|] == old(assertions)
      ensures forall a :: Eval(a, And(assertions)) <==> Eval(a, And(old(assertions))) && Placement(graph, dims, a)
    {
      var p := PlacementVec(graph, dims);
      forall a: Assignment
        ensures Eval(a, And(assertions + [And(p)])) <==> Eval(a, And(assertions)) && Placement(graph, dims, a)
      {
        AndSnoc(a, assertions, And(p));
      }
      assert (assertions + [And(p)])[..|assertions|] == assertions;
      assertions := assertions + [And(p)];
    }

    /** add_movement (src/Solver.cpp:306-442): the movement vector as one
        assertion, then each output assertion on its own. */
    method AddMovement()
      modifies this
      ensures unknowns == old(unknowns)
      ensures |assertions| > |old(assertions)| && assertions[..|old(assertions)|] == old(assertions)
      ensures forall a :: Eval(a, And(assertions)) <==>
                Eval(a, And(old(assertions))) && Movement(graph, dims, a) && Families.Output(graph, dims, a)
    {
      var m := MovementVec(graph, dims);
      var o := OutputVec(graph, dims);
      var added := [And(m)] + o;
      forall a: Assignment
        ensures Eval(a, And(assertions + added)) <==>
                  Eval(a, And(assertions)) && Movement(graph, dims, a) && Families.Output(graph, dims, a)
      {
        AndConcat(a, assertions, added);
        AndConcat(a, [And(m)], o);
        AndSnoc(a, [], And(m));
        assert [] + [And(m)] == [And(m)];
      }
      assert (assertions + added)[..|assertions|] == assertions;
      assertions := assertions + added;
    }
  }
}
