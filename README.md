# One-pass synthesis of digital microfluidic biochips — verified model

OnePassSynthesisDMFB reads a sequencing graph of fluidic operations from a
text file. The graph holds DISPENSE, MIX, OUTPUT and DETECT nodes, plus
edges between them. The program then encodes one-pass synthesis on a
`width` × `height` electrode grid over `time` steps as Boolean constraints
for Z3. This project models two pieces of that program.

- **The graph reader** (`src/Graph.cpp`):
  - `trim`;
  - the per-line logic of `Graph::Graph`: skip lines without `(`, take the
    trimmed directive name, split the parameters at `,`/`)`;
  - the `DAGNAME`, `EDGE` and `NODE` branches, with their 1-based to
    0-based id conversion, appending in file order, and the OUTPUT and
    DISPENSE counters.

  `trim` and the reading loop are modelled as imperative Dafny: the class
  `Graph` and the methods `Trim`, `SplitParams`, `ReadLine`, `ReadLines`.
  Each is proved equal to a specification function (`Trimmed`, `Fields`,
  `ParseLine`, `ParseLines`), and the reading properties are lemmas
  about those functions.

- **The constraint encoder** (`src/Solver.cpp`), modelled by its meaning:
  - the unknowns `c[x][y][id][t]`, `dispenser[p][node]` and `sink[p]` are
    the datatype `Var`;
  - a Z3 model is an `Assignment` (`Var -> bool`);
  - the part of Z3's expression language the encoder uses (`atmost`,
    `atleast`, `mk_and`, `mk_or`, `not`, `implies`, `&&`, `false`) is the
    datatype `Expr` with an evaluator `Eval`.

  The encoder works in three layers:
  1. The `Families` module states each constraint family directly over the
     board, the nodes and the edges, exactly as the loops build them.
  2. The `Encoder` module has one method per vector-building loop nest
     (the `push_back` loops of `add_consistency`, `add_placement` and
     `add_movement`). Each method is proved to produce a vector whose
     conjunction holds under an assignment exactly when its family does.
  3. The class `Solver` allocates the unknowns and collects the
     `solver.add` calls. Its constructor is proved to leave assertions
     whose conjunction is exactly `Encoding`.

  The `Board` module has the perimeter-index arithmetic of the encoder
  and of the printer. The `Properties` module proves what a satisfying
  assignment implies for droplets, dispensers and sinks.

The encoder mixes two ways of naming a node:
- the occupancy unknowns are indexed by the node's `id`;
- the dispenser unknowns use the node's position in consistency and
  placement, but its `id` in movement;
- an edge's target is compared with a position and its source is used as
  an occupancy index.

The model keeps each of these as written. Where a property needs ids and
positions to coincide, it assumes `DenseIds` (node k has id k).

## Model

| member | source | states |
|---|---|---|
| Text.DropLeadingShape | src/Graph.cpp:9 | erasing up to the first non-space removes only spaces: the result is a suffix of the input, what was removed is all spaces, and the result is empty or starts with a non-space |
| Text.DropTrailingShape | src/Graph.cpp:10 | erasing after the last non-space removes only spaces: the result is a prefix of the input, what was removed is all spaces, and the result is empty or ends with a non-space |
| Text.Trim | src/Graph.cpp:7-12 | the in-place erase loop leaves exactly `Trimmed(s)`, the text with leading and trailing spaces removed |
| Text.TrimmedShape | src/Graph.cpp:7-12 | the trimmed text is a contiguous slice of the input with only spaces outside it and no space at either end |
| Text.TrimmedOfPadded | src/Graph.cpp:7-12 | spaces around a text that has no outer space are removed, and nothing else is |
| Text.TrimIdempotent | src/Graph.cpp:7-12 | trimming twice is trimming once; an empty or all-space string trims to the empty string |
| Text.ParseNatToString | src/Graph.cpp:38 | the digit parser that stands for `stoi` reads the decimal rendering of n back as n |
| GraphParser.Find | src/Graph.cpp:20-23 | the index is that of the first `(`, and it is the length exactly when the line has no `(` |
| GraphParser.FirstDelimiter | src/Graph.cpp:28 | the index found is that of a `,` or `)`, and it is the length exactly when the text holds neither (`find_first_of` returning npos) |
| GraphParser.FirstDelimiterIsFirst | src/Graph.cpp:28 | no `,` or `)` comes before the delimiter that is found |
| GraphParser.SplitParams | src/Graph.cpp:26-33 | the delimiter loop collects exactly `Fields` of the text after `(`: the trimmed pieces between consecutive `,`/`)` |
| GraphParser.ParseNode | src/Graph.cpp:41-63 | a NODE directive reads exactly when it has a numeric id and a kind, and the parameters its kind uses are there (numeric where `stoi` reads them); the id is the first parameter minus 1; DISPENSE takes fluid, volume and label from params 2-4, MIX takes drops, time and label from params 2-4, OUTPUT takes sink and label from params 2-3, DETECT only its kind, and any other kind gives Invalid, both with an empty label |
| GraphParser.Graph.constructor | src/Graph.cpp:16 | the graph starts empty with both counters at 0 |
| GraphParser.Graph.Apply | src/Graph.cpp:35-65 | the branches on the directive set the fields to `ApplyDirective` of the old state, or report its error and change nothing |
| GraphParser.Graph.ReadLine | src/Graph.cpp:18-65 | one turn of the reading loop sets the fields to `ParseLine` of the old state; on an error the state is unchanged |
| GraphParser.Graph.ReadLines | src/Graph.cpp:17-66 | the reading loop leaves `ParseLines` of the old state, or reports the first error |
| GraphParser.LoadGraph | src/Graph.cpp:14-67 | a fresh graph read from the lines is `ParseLines` from the empty graph |
| GraphProperties.FieldsCount | src/Graph.cpp:28-33 | the number of parameters equals the number of `,` and `)` after the first `(` |
| GraphProperties.FieldsDropTail | src/Graph.cpp:28-33 | text after the last delimiter adds no parameter |
| GraphProperties.FirstDelimiterAt | src/Graph.cpp:28 | a delimiter with none before it is the one found |
| GraphProperties.FieldsCons | src/Graph.cpp:29-32 | a piece ending at the first delimiter becomes the next trimmed parameter, and splitting resumes after that delimiter |
| GraphProperties.FieldsOfJoined | src/Graph.cpp:26-33 | splitting parameters joined by `,` and closed by `)` gives them back, when none holds a delimiter or an outer space |
| GraphProperties.LineRoundTrip | src/Graph.cpp:20-33 | a written directive `name(p1,...,pn)` reads back as that name and those parameters |
| GraphProperties.DagNameLineRoundTrip | src/Graph.cpp:35-36 | the line `DAGNAME(n,...)` sets the graph's name to n, whatever parameters follow, and changes nothing else |
| GraphProperties.EdgeLineRoundTrip | src/Graph.cpp:37-39 | the line `EDGE(a,b)` appends exactly the edge (a-1, b-1) and changes nothing else |
| GraphProperties.ParseNodeParams | src/Graph.cpp:41-63 | the parameters written for a node of a known kind read back as that node, including the id shift |
| GraphProperties.NodeParamsClean | src/Graph.cpp:29-31 | those parameters pass through trimming and splitting unchanged |
| GraphProperties.UnknownKindLine | src/Graph.cpp:40-64 | a NODE line whose kind is none of the four known ones appends the node with its id, kind Invalid and no label, whatever parameters follow, and leaves both counters alone |
| GraphProperties.NodeLineRoundTrip | src/Graph.cpp:40-64 | the line declaring a node appends exactly one node, that node, and increments the matching counter |
| GraphProperties.ParseLineEffect | src/Graph.cpp:35-65 | a line appends its own nodes and edges after the existing ones, grows the counters by the OUTPUT and DISPENSE nodes it adds, and changes the name only as DAGNAME's first parameter |
| GraphProperties.GrownTrans | src/Graph.cpp:17-66 | growth by consecutive lines composes: the nodes and edges concatenate in order |
| GraphProperties.ParseLinesShape | src/Graph.cpp:17-66 | reading a file appends the nodes and edges of its lines in file order |
| GraphProperties.CountsOfConcat | src/Graph.cpp:49-59 | the OUTPUT and DISPENSE counts of two node lists add up |
| GraphProperties.CountersCountNodes | src/Graph.cpp:16-59 | after reading, `num_output` is the number of OUTPUT nodes and `num_dispenser` the number of DISPENSE nodes |
| GraphProperties.ParseLinesConcat | src/Graph.cpp:17-66 | reading stops at the first bad line; reading two pieces of a file in turn is reading the whole |
| Constraints.EvalAnyOf | src/Solver.cpp:271 | `mk_or` of a vector of unknowns holds exactly when some unknown in it is true |
| Constraints.CountTrueZero | src/Solver.cpp:292 | no unknown is counted true exactly when none is true |
| Constraints.CountTrueAtMostOne | src/Solver.cpp:219 | `atmost(vec, 1)` holds exactly when no two entries of the vector are true |
| Constraints.AndConcat | src/Solver.cpp:222 | `mk_and` of two vectors joined is the conjunction of the two |
| Constraints.OrConcat | src/Solver.cpp:378-380 | `mk_or` of two vectors joined is the disjunction of the two |
| Board.SlotInRange | src/Solver.cpp:327-340 | the encoder's index for a border cell lies in [0, 2(W+H)) |
| Board.SlotInjective | src/Solver.cpp:327-340 | the four sides' index ranges are disjoint: distinct (side, offset) pairs have distinct indices |
| Board.TouchingShape | src/Solver.cpp:413-424 | a cell has an adjacent position exactly when it is on the border, and every such position is in range |
| Board.PrinterCellMapsBack | src/Solver.cpp:159-168 | on the right, bottom and left sides, the printed cell is on the board and the encoder's formula maps it back to j |
| Board.PrinterTopSideOffBoard | src/Solver.cpp:156-158 | on the top side the printer puts position j next to (0, width), which is off the board |
| Board.SlotCellTouches | src/Solver.cpp:156-168 | with the top side drawn at column j, every position is drawn next to a board cell that touches it |
| Board.TouchingSlotCell | src/Solver.cpp:156-168 | with that correction the printer and the encoder are inverse: a cell touches j exactly when j is drawn next to it |
| Encoder.ProducersAt | src/Solver.cpp:212-219 | the vector for (x, y, t) passes `atmost 1` exactly when at most one DISPENSE/MIX node is on the cell |
| Encoder.CellsExclusiveVec | src/Solver.cpp:208-222 | consistency1 holds exactly when no cell holds two DISPENSE/MIX droplets at a time step |
| Encoder.GridCells | src/Solver.cpp:230-235 | the cell vector of a droplet at t counts at most one exactly when the droplet is on one cell at most, and has a true entry exactly when it is somewhere |
| Encoder.DropletsSingleVec | src/Solver.cpp:226-240 | consistency2 holds exactly when every DISPENSE/MIX droplet is on one cell at most per time step |
| Encoder.DevicesAt | src/Solver.cpp:245-252 | the vector at position p passes `atmost 1` exactly when p holds a sink or one DISPENSE/MIX dispenser at most |
| Encoder.PositionsExclusiveVec | src/Solver.cpp:244-255 | consistency3 holds exactly when every position is used by one device at most |
| Encoder.DropletsAliveVec | src/Solver.cpp:260-274 | consistency4 holds exactly when every DISPENSE/MIX droplet is on some cell at some time step |
| Encoder.BothBounds | src/Solver.cpp:291-293 | `atmost k` together with `atleast k` means exactly k true |
| Encoder.DispenserColumn | src/Solver.cpp:288-290 | the count of true entries is the number of positions holding the node's dispenser |
| Encoder.SinkRow | src/Solver.cpp:298-300 | the count of true entries is the number of sinks in use |
| Encoder.PlacementVec | src/Solver.cpp:285-303 | placement holds exactly when every DISPENSE node has one dispenser, every MIX node none, and `num_output` sinks are in use |
| Encoder.Neighbourhood | src/Solver.cpp:316-322 | the `neigh` scan lists some true unknown exactly when the droplet is on the cell or an in-board orthogonal neighbour; around a board cell it is never empty |
| Encoder.MixInputs | src/Solver.cpp:347-370 | mix_vec holds exactly when every edge into the node brings a droplet that is near at t-time-1 and gone from near at t-time |
| Encoder.PouringDispensers | src/Solver.cpp:327-340 | the dispenser unknowns consulted are those of the positions adjacent to the cell, in order |
| Encoder.Origins | src/Solver.cpp:313-376 | vec is empty exactly when the droplet has no origin there; its disjunction says the droplet was carried from t-1, poured from an adjacent dispenser, or mixed |
| Encoder.MovementOf | src/Solver.cpp:310-381 | the implications for one node hold exactly when its movement rule holds at every cell and time step |
| Encoder.MovementVec | src/Solver.cpp:307-386 | the movement vector holds exactly when every DISPENSE/MIX node obeys the movement rule |
| Encoder.AdjacentSinks | src/Solver.cpp:411-424 | adj_sink lists the sinks of the positions adjacent to the cell |
| Encoder.VanishPair | src/Solver.cpp:399-434 | the two assertions at (x, y, t) hold exactly when vanishing from (x, y) at t needs an adjacent sink in use, and the droplet is on no cell at the last step |
| Encoder.SourceRule | src/Solver.cpp:398-436 | the assertions for an OUTPUT node's source hold exactly when it vanishes only into a sink and, with two or more time steps, is gone at the end |
| Encoder.FirstSourceFrom | src/Solver.cpp:393-395 | skipping edges that do not enter the node keeps the first source |
| Encoder.OutputVec | src/Solver.cpp:389-442 | the output assertions hold exactly when the source of each OUTPUT node's first incoming edge obeys the output rule |
| SolverState.Solver.Allocate | src/Solver.cpp:15-41 | the allocated unknowns are: a sink per position, a dispenser per position and node, and an occupancy per cell, time step and DISPENSE/MIX id |
| SolverState.Solver.CellUnknowns | src/Solver.cpp:30-38 | the occupancy unknowns of one cell are those of the DISPENSE/MIX ids over steps 1..time |
| SolverState.Solver.AddConsistency | src/Solver.cpp:205-275 | four assertions are appended, and together they add exactly the consistency families |
| SolverState.Solver.AddPlacement | src/Solver.cpp:277-304 | one assertion is appended, and it adds exactly the placement family |
| SolverState.Solver.AddMovement | src/Solver.cpp:306-442 | the movement assertion and the output assertions are appended, and they add exactly the movement and output families |
| SolverState.Solver.constructor | src/Solver.cpp:10-46 | the unknowns are those allocated, and the solver's assertions hold under an assignment exactly when the whole encoding does |
| Properties.AllocatedOccupancy | src/Solver.cpp:28-40 | with dense ids, `c[x][y][k][t]` is a real unknown exactly when (x, y) is on the board, t is in 1..time and node k is DISPENSE or MIX |
| Properties.CellHoldsOneDroplet | src/Solver.cpp:208-222 | in a satisfying assignment two distinct DISPENSE/MIX nodes never share a cell at a time step |
| Properties.DropletPlaces | src/Solver.cpp:226-274 | in a satisfying assignment each DISPENSE/MIX droplet is on one cell at most per step, and on some cell at some step |
| Properties.PositionHoldsOneDevice | src/Solver.cpp:244-255 | in a satisfying assignment no position holds a sink and a dispenser, nor dispensers of two nodes |
| Properties.DispenseHasOneDispenser | src/Solver.cpp:285-296 | in a satisfying assignment a DISPENSE node has exactly one dispenser position |
| Properties.MixHasNoDispenser | src/Solver.cpp:285-296 | in a satisfying assignment a MIX node has no dispenser at all |
| Properties.SinksInUse | src/Solver.cpp:297-303 | in a satisfying assignment exactly `num_output` sinks are in use, so `num_output` is at most 2(W+H) |
| Properties.SinksPerOutputNode | src/Solver.cpp:297-303 | for a graph read from a file, the sinks in use are as many as its OUTPUT nodes |
| Properties.MixAbsentEarly | src/Solver.cpp:345-376 | under the movement rule a MIX droplet is on no cell before step time+2 |
| Properties.FirstStepKind | src/Solver.cpp:313-380 | at step 1 only DISPENSE droplets are on the board, and one on a border cell was poured from an adjacent dispenser |
| Properties.FirstSourceIsFirst | src/Solver.cpp:393-438 | the source used for an OUTPUT node exists exactly when some edge enters it, and it is the source of the first such edge |
| Properties.InteriorForbidsVanish | src/Solver.cpp:411-425 | on an interior cell the empty sink disjunction forbids the source from vanishing |
| Properties.LastPresence | src/Solver.cpp:427-434 | a droplet that is present at some step and gone at the end has a last step of presence |
| Properties.LeavesBySink | src/Solver.cpp:396-434 | a present droplet that vanishes only into sinks, and is gone at the end, leaves the board next to a sink in use |
| Properties.OutputLeavesBySink | src/Solver.cpp:396-434 | with two or more time steps, the droplet an OUTPUT node consumes leaves the board next to a sink in use |
| Properties.InteriorDropletAtFirstStep | src/Solver.cpp:378-380 | as written, the encoding is satisfied by a DISPENSE droplet that starts on an interior cell (finding 1) |
| Properties.StrictFirstStep | src/Solver.cpp:313-380 | with the implication kept when vec is empty, a droplet at step 1 is a DISPENSE droplet on a border cell, poured from an adjacent dispenser |
| Properties.OutputSourceRemains | src/Solver.cpp:400-434 | as written, with one time step the encoding is satisfied by an OUTPUT node's source that stays on the board to the end (finding 2) |
| Properties.StrictEncodingRefines | src/Solver.cpp:378-434 | the corrected encoding implies the encoding as written |
| Properties.StrictOutputLeavesBySink | src/Solver.cpp:427-434 | with the last-step request made for every schedule, an OUTPUT node's source leaves next to a sink in use; one time step is never enough |

## Left out

- Z3 itself (`solver.check`, `to_smt2`, `get_model`): the model states what the constraints mean, and does not solve them.
- The printed output: `Solver::print`'s text and DOT output, and the `dot`/`convert` calls. These are output and external programs; only the index arithmetic of the printer is modelled.
- `Graph::print_to_graphviz` and the `ifstream` reading: file input and output. A file is a sequence of lines here.
- `main` and `try_steps`: a driver over the number of time steps on a fixed 10 × 10 board, whose result depends only on Z3.
- Detectors: they are declared but never allocated or constrained, and DETECT parsing does not read its parameters.
- `stoi`: only digit strings are read. Signs, leading spaces, trailing text and overflow are not modelled; any other parameter is a parse error.
- A NODE of an unknown kind: the source leaves its `type` indeterminate; here the node is appended with kind `Invalid` and an empty label (`GraphProperties.UnknownKindLine`).
- A missing parameter: the source reads past the end of the vector; here it is a MissingParameter error, and the line changes nothing.
- Dummy entries: `expr dummy(ctx)` is a null z3 expression, not an unknown. For every declared node id, `c[x][y][id]` has `time + 1` entries. Those never named (time 0, and every step of a node that is not DISPENSE or MIX) are that null expression. The encoder reaches them whenever an edge's source is a node of another kind: an OUTPUT node fed by a DETECT node (`c[..][edges.first][t]` at src/Solver.cpp:404 and 429), or a MIX input of that kind (src/Solver.cpp:357-362). The source then fails inside z3. Here every `Var` is an unknown of the assignment, so such inputs get an ordinary Movement or Output family. `Allocated` says which unknowns the source names.
- Vector bounds: `c[x][y]` has `|nodes| + 1` slots, but only the slots of declared node ids are filled. So the extra slot, an in-range id that no node has, and an id outside `0..|nodes|` index past the end of a vector. `dispenser[p]` has `|nodes|` entries but the movement rule indexes it by node id (src/Solver.cpp:327-340), which reads past the end for an id outside `0..|nodes|-1` (-1 from `NODE(0,...)`, or a sparse id beyond the node count). An in-range id that is not the node's position names another node's column, which the model keeps as written. Here each such access is a `Var` like any other, and `Allocated` does not hold for it.
- `Node::to_string`: its definition is not part of this model.
- Dimensions: the board sizes are natural numbers. Negative sizes are not modelled.
- Vector layout: each builder collects a cell's or a row's entries in a local vector and appends that vector. The source pushes one entry at a time. The conjunction, and the order of the entries, are the same.
- Integer width: `int` fields and index arithmetic are unbounded, with no 32-bit overflow.

## Findings

| source | as written | input that shows it | evidently intended | confidence | as-written member | corrected member |
|---|---|---|---|---|---|---|
| src/Solver.cpp:378-380 | the movement implication is added only when `vec.size() > 0`, so a droplet with no possible origin is left unconstrained | 3 × 3 board, one time step, one DISPENSE node; the droplet on cell (1, 1) and its dispenser at position 0 satisfy every constraint | a droplet is on a cell only if it was carried there, poured from an adjacent dispenser or mixed, so `implies(c, mk_or(vec))` is also needed when vec is empty | medium, not executed | Properties.InteriorDropletAtFirstStep | Properties.StrictFirstStep |
| src/Solver.cpp:400-434 | "should not appear at the last time" is asserted inside the loop over t from 2, so with one time step it is never asserted | 1 × 1 board, one time step, DISPENSE node 1 feeding OUTPUT node 2; the droplet stays on the only cell with dispenser 0 and sink 1 in use, satisfying every constraint | the consumed droplet is gone at the last step for every schedule length | high, not executed | Properties.OutputSourceRemains | Properties.StrictOutputLeavesBySink |
| src/Solver.cpp:156-168 | the printer's top-side branch sets y = width | any board with a column: position 0 is drawn next to (0, width), off the board | y = j, the column the encoder uses for the top side | high, not executed | Board.PrinterTopSideOffBoard | Board.TouchingSlotCell |
