/** The operation-graph reader of src/Graph.cpp.

    The file is a sequence of lines; a line that has a '(' holds a directive
    `NAME(param, param, ...)`.  The name is the trimmed text before the first
    '('; the parameters are the trimmed pieces of text that end at a ',' or a
    ')' after it.  DAGNAME sets the graph's name, EDGE(a, b) appends the edge
    (a-1, b-1), NODE(id, KIND, ...) appends a node with id id-1 and counts
    OUTPUT and DISPENSE nodes; every other line changes nothing.

    Reading the file is left to the caller: the reader takes the lines. */
module GraphParser {
  import opened Text
  import opened Nodes

  /** (producer id, consumer id), both 0-based. */
  type Edge = (int, int)

  /** The fields of `Graph` (src/Graph.h:15-19) as one value. */
  datatype GraphData = GraphData(
    name: string,
    edges: seq<Edge>,
    nodes: seq<Node>,
    numOutput: int,
    numDispenser: int)

  /** The state the constructor starts from (src/Graph.cpp:16). */
  const EMPTY_GRAPH := GraphData("", [], [], 0, 0)

  /** Why a directive cannot be read: a parameter the directive uses is not
      there, or a parameter read as a number is not a digit string. */
  datatype ParseError =
    | MissingParameter(directive: string, index: nat)
    | NotANumber(text: string)

  datatype Option<T> = None | Some(value: T)

  datatype Result<T> = Success(value: T) | Failure(error: ParseError) {
    predicate IsFailure() { Failure? }
    function PropagateFailure<U>(): Result<U> requires Failure? { Failure(error) }
    function Extract(): T requires Success? { value }
  }

  // ------------------------------------------------------------------
  // Tokenising (src/Graph.cpp:20-33)

  predicate IsDelimiter(c: char) {
    c == ',' || c == ')'
  }

  predicate NoDelimiter(s: string) {
    forall k | 0 <= k < |s| :: !IsDelimiter(s[k])
  }

  /** No delimiter among the first `n` characters of `s`. */
  predicate NoDelimiterBefore(s: string, n: nat)
    requires n <= |s|
  {
    forall k | 0 <= k < n :: !IsDelimiter(s[k])
  }

  /** Position of the first `c` in `s`, or |s| when `s` has none
      (string::find, with |s| standing for npos). */
  function Find(s: string, c: char): (k: nat)
    ensures k <= |s|
    ensures k < |s| ==> s[k] == c
    ensures forall j | 0 <= j < k :: s[j] != c
    ensures k == |s| <==> c !in s
  {
    if s == [] then 0 else if s[0] == c then 0 else 1 + Find(s[1..], c)
  }

  /** Position of the first ',' or ')' in `s`, or |s| when there is none
      (string::find_first_of(",)")). */
  function FirstDelimiter(s: string): (k: nat)
    ensures k <= |s|
    ensures k < |s| ==> IsDelimiter(s[k])
    ensures k == |s| <==> NoDelimiter(s)
  {
    if s == [] then 0
    else if IsDelimiter(s[0]) then 0
    else 1 + FirstDelimiter(s[1..])
  }

  /** No delimiter comes before the first one. */
  lemma {:induction false} FirstDelimiterIsFirst(s: string)
    ensures NoDelimiterBefore(s, FirstDelimiter(s))
  {
    if s != [] && !IsDelimiter(s[0]) {
      FirstDelimiterIsFirst(s[1..]);
    }
  }

  /** The parameters found in the text that follows the first '(':
      each piece of text that ends at a delimiter, trimmed; text after the
      last delimiter is dropped. */
  function Fields(s: string): seq<string>
    decreases |s|
  {
    var k := FirstDelimiter(s);
    if k == |s| then [] else [Trimmed(s[..k])] + Fields(s[k + 1..])
  }

  /** The delimiter loop of the constructor (src/Graph.cpp:26-33): starting at
      `start`, cut the line at each ',' or ')' and keep the trimmed pieces. */
  method SplitParams(line: string, start: nat) returns (params: seq<string>)
    requires start <= |line|
    ensures params == Fields(line[start..])
  {
    params := [];
    var begin := start;
    var next := begin + FirstDelimiter(line[begin..]);
    while next < |line|
      invariant start <= begin <= next <= |line|
      invariant next == begin + FirstDelimiter(line[begin..])
      invariant params + Fields(line[begin..]) == Fields(line[start..])
      decreases |line| - begin
    {
      var param := Trim(line[begin..next]);
      SplitStep(line, start, begin, next, params);
      params := params + [param];
      begin := next + 1;
      next := begin + FirstDelimiter(line[begin..]);
    }
    SplitDone(line, start, begin, params);
  }

  /** Past the last delimiter the loop has all parameters. */
  lemma SplitDone(line: string, start: nat, begin: nat, params: seq<string>)
    requires start <= begin <= |line|
    requires FirstDelimiter(line[begin..]) == |line| - begin
    requires params + Fields(line[begin..]) == Fields(line[start..])
    ensures params == Fields(line[start..])
  {
    assert Fields(line[begin..]) == [];
    assert params + [] == params;
  }

  /** The delimiter loop's invariant survives one cut at `next`. */
  lemma SplitStep(line: string, start: nat, begin: nat, next: nat, params: seq<string>)
    requires start <= begin <= next < |line|
    requires next == begin + FirstDelimiter(line[begin..])
    requires params + Fields(line[begin..]) == Fields(line[start..])
    ensures (params + [Trimmed(line[begin..next])]) + Fields(line[next + 1..]) == Fields(line[start..])
  {
    FieldsAt(line, begin, next);
    var rest := Fields(line[next + 1..]);
    assert params + ([Trimmed(line[begin..next])] + rest) == (params + [Trimmed(line[begin..next])]) + rest;
  }

  /** One step of the delimiter loop: the parameters from `begin` are the
      piece up to the delimiter at `next`, then the parameters after it. */
  lemma FieldsAt(line: string, begin: nat, next: nat)
    requires begin <= next < |line|
    requires next == begin + FirstDelimiter(line[begin..])
    ensures Fields(line[begin..]) == [Trimmed(line[begin..next])] + Fields(line[next + 1..])
  {
    assert line[begin..][..next - begin] == line[begin..next];
    assert line[begin..][next - begin + 1..] == line[next + 1..];
  }

  /** The directive name of a line that has a '(' (src/Graph.cpp:23-24). */
  function LineName(line: string): string
    requires '(' in line
  {
    Trimmed(line[..Find(line, '(')])
  }

  /** The parameters of a line that has a '(' (src/Graph.cpp:26-33). */
  function LineParams(line: string): seq<string>
    requires '(' in line
  {
    Fields(line[Find(line, '(') + 1..])
  }

  // ------------------------------------------------------------------
  // Directives (src/Graph.cpp:35-65)

  /** `params[k]`; the source reads past the end of the vector when the
      parameter is missing, here that is an error. */
  function Param(params: seq<string>, directive: string, k: nat): (r: Result<string>)
    ensures r.Success? <==> k < |params|
    ensures r.Success? ==> r.value == params[k]
    ensures r.Failure? ==> r.error == MissingParameter(directive, k)
  {
    if k < |params| then Success(params[k]) else Failure(MissingParameter(directive, k))
  }

  /** `stoi(params[k])` on a parameter that is a digit string; any other
      parameter is an error. */
  function Number(params: seq<string>, directive: string, k: nat): (r: Result<nat>)
    ensures r.Success? <==> k < |params| && IsDigits(params[k])
    ensures r.Success? ==> r.value == ParseNat(params[k])
  {
    if k >= |params| then Failure(MissingParameter(directive, k))
    else if IsDigits(params[k]) then Success(ParseNat(params[k]))
    else Failure(NotANumber(params[k]))
  }

  /** The node a NODE directive declares: the 1-based id becomes 0-based and
      the kind (params[1]) decides which parameters are read. */
  function ParseNode(params: seq<string>): (r: Result<Node>)
    ensures r.Success? <==>
              && 2 <= |params| && IsDigits(params[0])
              && (params[1] == "DISPENSE" ==> 5 <= |params| && IsDigits(params[3]))
              && (params[1] == "MIX" ==> 5 <= |params| && IsDigits(params[2]) && IsDigits(params[3]))
              && (params[1] == "OUTPUT" ==> 4 <= |params|)
    ensures r.Success? ==> 2 <= |params| && IsDigits(params[0])
                           && r.value.id == ParseNat(params[0]) - 1
    ensures r.Success? && params[1] == "DISPENSE" ==>
              5 <= |params| && IsDigits(params[3])
              && r.value.kind == Dispense(params[2], ParseNat(params[3]))
              && r.value.labelText == params[4]
    ensures r.Success? && params[1] == "MIX" ==>
              5 <= |params| && IsDigits(params[2]) && IsDigits(params[3])
              && r.value.kind == Mix(ParseNat(params[2]), ParseNat(params[3]))
              && r.value.labelText == params[4]
    ensures r.Success? && params[1] == "OUTPUT" ==>
              4 <= |params| && r.value.kind == Output(params[2]) && r.value.labelText == params[3]
    ensures r.Success? && params[1] == "DETECT" ==> r.value.kind == Detect && r.value.labelText == ""
    ensures r.Success? && params[1] !in ["DISPENSE", "MIX", "OUTPUT", "DETECT"] ==>
              r.value.kind == Invalid && r.value.labelText == ""
  {
    var n :- Number(params, "NODE", 0);
    var kind :- Param(params, "NODE", 1);
    var id := n - 1;
    if kind == "DISPENSE" then
      var fluid :- Param(params, "NODE", 2);
      var volume :- Number(params, "NODE", 3);
      var nodeLabel :- Param(params, "NODE", 4);
      Success(Node(id, Dispense(fluid, volume), nodeLabel))
    else if kind == "MIX" then
      var drops :- Number(params, "NODE", 2);
      var time :- Number(params, "NODE", 3);
      var nodeLabel :- Param(params, "NODE", 4);
      Success(Node(id, Mix(drops, time), nodeLabel))
    else if kind == "OUTPUT" then
      var sink :- Param(params, "NODE", 2);
      var nodeLabel :- Param(params, "NODE", 3);
      Success(Node(id, Output(sink), nodeLabel))
    else if kind == "DETECT" then
      Success(Node(id, Detect, ""))
    else
      Success(Node(id, Invalid, ""))
  }

  /** The nodes a line contributes: one for a NODE line that reads, none
      otherwise.  It does not depend on the lines before it. */
  function LineNodes(line: string): seq<Node> {
    if '(' in line && LineName(line) == "NODE" && ParseNode(LineParams(line)).Success?
    then [ParseNode(LineParams(line)).value]
    else []
  }

  /** The edges a line contributes: one for an EDGE line that reads. */
  function LineEdges(line: string): seq<Edge> {
    if '(' in line && LineName(line) == "EDGE"
       && Number(LineParams(line), "EDGE", 0).Success? && Number(LineParams(line), "EDGE", 1).Success?
    then [(ParseNat(LineParams(line)[0]) - 1, ParseNat(LineParams(line)[1]) - 1)]
    else []
  }

  /** The effect of a directive `name(params)` on the graph (the branches
      of src/Graph.cpp:35-65); a directive of another name changes nothing. */
  function ApplyDirective(g: GraphData, name: string, params: seq<string>): (r: Result<GraphData>)
    ensures name !in ["DAGNAME", "EDGE", "NODE"] ==> r == Success(g)
  {
    if name == "DAGNAME" then
      var dagName :- Param(params, "DAGNAME", 0);
      Success(g.(name := dagName))
    else if name == "EDGE" then
      var from :- Number(params, "EDGE", 0);
      var to :- Number(params, "EDGE", 1);
      Success(g.(edges := g.edges + [(from - 1, to - 1)]))
    else if name == "NODE" then
      var node :- ParseNode(params);
      Success(g.(nodes := g.nodes + [node],
                 numDispenser := g.numDispenser + (if node.kind.Dispense? then 1 else 0),
                 numOutput := g.numOutput + (if node.kind.Output? then 1 else 0)))
    else
      Success(g)
  }

  /** The effect of one line on the graph (one turn of the loop at
      src/Graph.cpp:17-66): a line without '(' is skipped. */
  function ParseLine(g: GraphData, line: string): (r: Result<GraphData>)
    ensures '(' !in line ==> r == Success(g)
  {
    if '(' !in line then Success(g)
    else ApplyDirective(g, LineName(line), LineParams(line))
  }

  /** The lines read in order; the first line that cannot be read ends the
      reading with its error. */
  function ParseLines(g: GraphData, lines: seq<string>): Result<GraphData>
    decreases |lines|
  {
    if lines == [] then Success(g)
    else
      var g' :- ParseLine(g, lines[0]);
      ParseLines(g', lines[1..])
  }

  /** All nodes (edges) the lines contribute, in file order. */
  function AllNodes(lines: seq<string>): seq<Node> {
    if lines == [] then [] else LineNodes(lines[0]) + AllNodes(lines[1..])
  }

  function AllEdges(lines: seq<string>): seq<Edge> {
    if lines == [] then [] else LineEdges(lines[0]) + AllEdges(lines[1..])
  }

  // ------------------------------------------------------------------
  // The graph object

  class Graph {
    var name: string
    var edges: seq<Edge>
    var nodes: seq<Node>
    var numOutput: int
    var numDispenser: int

    function Data(): GraphData
      reads this
    {
      GraphData(name, edges, nodes, numOutput, numDispenser)
    }

    /** Both counters start at 0 (src/Graph.cpp:16). */
    constructor ()
      ensures Data() == EMPTY_GRAPH
    {
      name, edges, nodes := "", [], [];
      numOutput, numDispenser := 0, 0;
    }

    /** One turn of the reading loop (src/Graph.cpp:18-65).  On an error
        nothing has changed: every parameter is read before the first field
        is written. */
    method ReadLine(line: string) returns (err: Option<ParseError>)
      modifies this
      ensures ParseLine(old(Data()), line).Success? ==>
                err == None && Data() == ParseLine(old(Data()), line).value
      ensures ParseLine(old(Data()), line).Failure? ==>
                err == Some(ParseLine(old(Data()), line).error) && Data() == old(Data())
    {
      err := None;
      var open := Find(line, '(');
      if open == |line| {
        return;
      }
      var directive := Trim(line[..open]);
      var params := SplitParams(line, open + 1);
      assert '(' in line && directive == LineName(line) && params == LineParams(line);
      err := Apply(directive, params);
    }

    /** The branches on the directive name (src/Graph.cpp:35-65). */
    method Apply(directive: string, params: seq<string>) returns (err: Option<ParseError>)
      modifies this
      ensures ApplyDirective(old(Data()), directive, params).Success? ==>
                err == None && Data() == ApplyDirective(old(Data()), directive, params).value
      ensures ApplyDirective(old(Data()), directive, params).Failure? ==>
                err == Some(ApplyDirective(old(Data()), directive, params).error) && Data() == old(Data())
    {
      err := None;
      if directive == "DAGNAME" {
        var dagName := Param(params, "DAGNAME", 0);
        if dagName.Failure? {
          return Some(dagName.error);
        }
        name := dagName.value;
      } else if directive == "EDGE" {
        var from := Number(params, "EDGE", 0);
        if from.Failure? {
          return Some(from.error);
        }
        var to := Number(params, "EDGE", 1);
        if to.Failure? {
          return Some(to.error);
        }
        edges := edges + [(from.value - 1, to.value - 1)];
      } else if directive == "NODE" {
        var node := ParseNode(params);
        if node.Failure? {
          return Some(node.error);
        }
        if node.value.kind.Dispense? {
          numDispenser := numDispenser + 1;
        } else if node.value.kind.Output? {
          numOutput := numOutput + 1;
        }
        nodes := nodes + [node.value];
      }
    }

    /** The reading loop of the constructor (src/Graph.cpp:17-66), stopping
        at the first line that cannot be read. */
    method ReadLines(lines: seq<string>) returns (err: Option<ParseError>)
      modifies this
      ensures ParseLines(old(Data()), lines).Success? ==>
                err == None && Data() == ParseLines(old(Data()), lines).value
      ensures ParseLines(old(Data()), lines).Failure? ==>
                err == Some(ParseLines(old(Data()), lines).error)
    {
      var k := 0;
      while k < |lines|
        invariant 0 <= k <= |lines|
        invariant ParseLines(old(Data()), lines) == ParseLines(Data(), lines[k..])
      {
        assert lines[k..][1..] == lines[k + 1..];
        err := ReadLine(lines[k]);
        if err.Some? {
          return;
        }
        k := k + 1;
      }
      err := None;
    }
  }

  /** Graph::Graph on the lines of a file. */
  method LoadGraph(lines: seq<string>) returns (g: Graph, err: Option<ParseError>)
    ensures fresh(g)
    ensures ParseLines(EMPTY_GRAPH, lines).Success? ==>
              err == None && g.Data() == ParseLines(EMPTY_GRAPH, lines).value
    ensures ParseLines(EMPTY_GRAPH, lines).Failure? ==>
              err == Some(ParseLines(EMPTY_GRAPH, lines).error)
  {
    g := new Graph();
    err := g.ReadLines(lines);
  }
}
