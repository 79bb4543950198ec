/** What the operation-graph reader of src/Graph.cpp guarantees: how lines
    are cut into parameters, that written directives read back, and what the
    graph holds after a file has been read. */
module GraphProperties {
  import opened Text
  import opened Nodes
  import opened GraphParser

  // ------------------------------------------------------------------
  // Parameter splitting (src/Graph.cpp:26-33)

  function CountDelimiters(s: string): nat {
    if s == [] then 0 else (if IsDelimiter(s[0]) then 1 else 0) + CountDelimiters(s[1..])
  }

  lemma {:induction false} CountDelimitersSplit(s: string, k: nat)
    requires k < |s| && NoDelimiterBefore(s, k) && IsDelimiter(s[k])
    ensures CountDelimiters(s) == 1 + CountDelimiters(s[k + 1..])
  {
    if k > 0 {
      assert s[1..][k..] == s[k + 1..];
      CountDelimitersSplit(s[1..], k - 1);
    }
  }

  lemma {:induction false} NoDelimiterCountsZero(s: string)
    requires NoDelimiter(s)
    ensures CountDelimiters(s) == 0
  {
    if s != [] {
      assert NoDelimiter(s[1..]);
      NoDelimiterCountsZero(s[1..]);
    }
  }

  /** A line has as many parameters as it has ',' and ')' after its first
      '('. */
  lemma {:induction false} FieldsCount(s: string)
    ensures |Fields(s)| == CountDelimiters(s)
    decreases |s|
  {
    var k := FirstDelimiter(s);
    FirstDelimiterIsFirst(s);
    if k == |s| {
      NoDelimiterCountsZero(s);
    } else {
      CountDelimitersSplit(s, k);
      FieldsCount(s[k + 1..]);
    }
  }

  /** Text after the last delimiter is dropped: appending text without a
      delimiter to a string that is empty or ends with a delimiter adds no
      parameter. */
  lemma {:induction false} FieldsDropTail(s: string, tail: string)
    requires s == [] || IsDelimiter(s[|s| - 1])
    requires NoDelimiter(tail)
    ensures Fields(s + tail) == Fields(s)
    decreases |s|
  {
    var k := FirstDelimiter(s);
    if s == [] {
      assert s + tail == tail;
      assert tail[..|tail|] == tail;
      assert FirstDelimiter(tail) == |tail|;
    } else {
      FirstDelimiterIsFirst(s);
      assert k < |s|;
      assert forall j | 0 <= j < k :: (s + tail)[j] == s[j];
      assert (s + tail)[..k] == s[..k];
      FirstDelimiterAt(s + tail, k);
      assert (s + tail)[k + 1..] == s[k + 1..] + tail;
      FieldsDropTail(s[k + 1..], tail);
    }
  }

  /** The first delimiter of `s` is at `k` when `s[k]` is one and nothing
      before it is. */
  lemma {:induction false} FirstDelimiterAt(s: string, k: nat)
    requires k < |s| && IsDelimiter(s[k]) && NoDelimiterBefore(s, k)
    ensures FirstDelimiter(s) == k
  {
    if k > 0 {
      assert !IsDelimiter(s[0]);
      assert forall j | 0 <= j < k - 1 :: s[1..][j] == s[j + 1];
      FirstDelimiterAt(s[1..], k - 1);
    }
  }

  /** A piece without delimiter, a delimiter, and the rest: the piece is the
      first parameter. */
  lemma FieldsCons(p: string, d: char, rest: string)
    requires NoDelimiter(p) && IsDelimiter(d)
    ensures Fields(p + [d] + rest) == [Trimmed(p)] + Fields(rest)
  {
    var s := p + [d] + rest;
    FirstDelimiterAt(s, |p|);
    assert s[..|p|] == p;
    assert s[|p| + 1..] == rest;
  }

  /** A parameter text the reader keeps as it is: no delimiter in it and no
      space at either end. */
  predicate CleanParam(p: string) {
    NoDelimiter(p) && NoOuterSpaces(p)
  }

  /** The parameter list written back: the parameters separated by ',' and
      closed by ')'. */
  function Joined(ps: seq<string>): string
    requires |ps| >= 1
  {
    if |ps| == 1 then ps[0] + ")" else ps[0] + "," + Joined(ps[1..])
  }

  /** Splitting undoes joining. */
  lemma {:induction false} FieldsOfJoined(ps: seq<string>)
    requires |ps| >= 1
    requires forall k | 0 <= k < |ps| :: CleanParam(ps[k])
    ensures Fields(Joined(ps)) == ps
  {
    var p := ps[0];
    TrimmedOfPadded([], p, []);
    assert [] + p + [] == p;
    if |ps| == 1 {
      assert Joined(ps) == p + [')'] + "";
      FieldsCons(p, ')', "");
      assert Fields("") == [];
    } else {
      var rest := Joined(ps[1..]);
      assert Joined(ps) == p + [','] + rest;
      FieldsCons(p, ',', rest);
      FieldsOfJoined(ps[1..]);
      assert ps == [p] + ps[1..];
    }
  }

  /** A directive written the way the reader expects it. */
  function FormatLine(name: string, params: seq<string>): string
    requires |params| >= 1
  {
    name + "(" + Joined(params)
  }

  /** Reading a written directive gives back its name and its parameters. */
  lemma LineRoundTrip(name: string, params: seq<string>)
    requires '(' !in name && NoOuterSpaces(name)
    requires |params| >= 1 && forall k | 0 <= k < |params| :: CleanParam(params[k])
    ensures '(' in FormatLine(name, params)
    ensures LineName(FormatLine(name, params)) == name
    ensures LineParams(FormatLine(name, params)) == params
  {
    var line := FormatLine(name, params);
    assert line[|name|] == '(';
    assert forall j | 0 <= j < |name| :: line[j] == name[j];
    assert Find(line, '(') == |name|;
    assert line[..|name|] == name;
    TrimmedOfPadded([], name, []);
    assert [] + name + [] == name;
    assert line[|name| + 1..] == Joined(params);
    FieldsOfJoined(params);
  }

  // ------------------------------------------------------------------
  // Directives read back (src/Graph.cpp:35-65)

  /** A line is read as the directive its name and parameters make. */
  lemma ParseLineOf(g: GraphData, line: string, name: string, params: seq<string>)
    requires '(' in line && LineName(line) == name && LineParams(line) == params
    ensures ParseLine(g, line) == ApplyDirective(g, name, params)
  {
  }

  lemma ApplyEdge(g: GraphData, params: seq<string>, from: nat, to: nat)
    requires Number(params, "EDGE", 0) == Success(from)
    requires Number(params, "EDGE", 1) == Success(to)
    ensures ApplyDirective(g, "EDGE", params) == Success(g.(edges := g.edges + [(from - 1, to - 1)]))
  {
  }

  /** An EDGE directive with 1-based ids appends the 0-based pair. */
  lemma EdgeLineRoundTrip(g: GraphData, from: nat, to: nat)
    ensures ParseLine(g, FormatLine("EDGE", [NatToString(from), NatToString(to)]))
            == Success(g.(edges := g.edges + [(from - 1, to - 1)]))
  {
    var params := [NatToString(from), NatToString(to)];
    var line := FormatLine("EDGE", params);
    NoDelimiterDigits(NatToString(from));
    NoDelimiterDigits(NatToString(to));
    LineRoundTrip("EDGE", params);
    ParseLineOf(g, line, "EDGE", params);
    ParseNatToString(from);
    ParseNatToString(to);
    ApplyEdge(g, params, from, to);
  }

  /** A DAGNAME directive sets the graph's name to its first parameter,
      whatever follows it, and changes nothing else. */
  lemma DagNameLineRoundTrip(g: GraphData, n: string, rest: seq<string>)
    requires CleanParam(n)
    requires forall k | 0 <= k < |rest| :: CleanParam(rest[k])
    ensures ParseLine(g, FormatLine("DAGNAME", [n] + rest)) == Success(g.(name := n))
  {
    var ps := [n] + rest;
    assert forall k | 1 <= k < |ps| :: ps[k] == rest[k - 1];
    LineRoundTrip("DAGNAME", ps);
    ParseLineOf(g, FormatLine("DAGNAME", ps), "DAGNAME", ps);
  }

  lemma NoDelimiterDigits(s: string)
    requires IsDigits(s)
    ensures NoDelimiter(s)
  {
    forall k | 0 <= k < |s| ensures !IsDelimiter(s[k]) {
      assert IsDigit(s[k]);
    }
  }

  /** A node that a NODE directive can declare: its 1-based id is a natural
      number, its kind is one the reader knows and its texts survive
      tokenising unchanged.  A DETECT directive carries no label. */
  predicate Writable(n: Node) {
    && n.id + 1 >= 0
    && CleanParam(n.labelText)
    && match n.kind
       case Invalid => false
       case Dispense(fluid, _) => CleanParam(fluid)
       case Mix(_, _) => true
       case Output(sink) => CleanParam(sink)
       case Detect => n.labelText == ""
  }

  /** The parameters of the NODE directive that declares `n`, in the order
      the reader takes them. */
  function NodeParams(n: Node): (ps: seq<string>)
    requires Writable(n)
    ensures |ps| >= 2
  {
    var id := NatToString(n.id + 1);
    match n.kind
    case Dispense(fluid, volume) => [id, "DISPENSE", fluid, NatToString(volume), n.labelText]
    case Mix(drops, time) => [id, "MIX", NatToString(drops), NatToString(time), n.labelText]
    case Output(sink) => [id, "OUTPUT", sink, n.labelText]
    case Detect => [id, "DETECT"]
  }

  /** The parameters written for a node read back as that node. */
  lemma ParseNodeParams(n: Node)
    requires Writable(n)
    ensures ParseNode(NodeParams(n)) == Success(n)
  {
    ParseNatToString(n.id + 1);
    match n.kind {
      case Dispense(fluid, volume) =>
        ParseNatToString(volume);
      case Mix(drops, time) =>
        ParseNatToString(drops);
        ParseNatToString(time);
      case Output(sink) =>
      case Detect =>
    }
  }

  /** The parameters written for a node survive tokenising. */
  lemma NodeParamsClean(n: Node)
    requires Writable(n)
    ensures forall k | 0 <= k < |NodeParams(n)| :: CleanParam(NodeParams(n)[k])
  {
    NoDelimiterDigits(NatToString(n.id + 1));
    match n.kind {
      case Dispense(fluid, volume) =>
        NoDelimiterDigits(NatToString(volume));
      case Mix(drops, time) =>
        NoDelimiterDigits(NatToString(drops));
        NoDelimiterDigits(NatToString(time));
      case Output(sink) =>
      case Detect =>
    }
  }

  lemma ApplyNode(g: GraphData, params: seq<string>, n: Node)
    requires ParseNode(params) == Success(n)
    ensures ApplyDirective(g, "NODE", params)
            == Success(g.(nodes := g.nodes + [n],
                          numDispenser := g.numDispenser + (if n.kind.Dispense? then 1 else 0),
                          numOutput := g.numOutput + (if n.kind.Output? then 1 else 0)))
  {
  }

  /** Reading the NODE directive of a node appends exactly that node and
      counts it when it is an OUTPUT or a DISPENSE node. */
  lemma NodeLineRoundTrip(g: GraphData, n: Node)
    requires Writable(n)
    ensures ParseLine(g, FormatLine("NODE", NodeParams(n)))
            == Success(g.(nodes := g.nodes + [n],
                          numDispenser := g.numDispenser + (if n.kind.Dispense? then 1 else 0),
                          numOutput := g.numOutput + (if n.kind.Output? then 1 else 0)))
  {
    var ps := NodeParams(n);
    ParseNodeParams(n);
    NodeParamsClean(n);
    LineRoundTrip("NODE", ps);
    ParseLineOf(g, FormatLine("NODE", ps), "NODE", ps);
    ApplyNode(g, ps, n);
  }

  /** A NODE directive whose kind the reader does not know still appends a
      node: its id, kind Invalid and no label, whatever parameters follow
      the kind; neither counter moves. */
  lemma UnknownKindLine(g: GraphData, id: nat, kind: string, rest: seq<string>)
    requires CleanParam(kind) && kind !in ["DISPENSE", "MIX", "OUTPUT", "DETECT"]
    requires forall k | 0 <= k < |rest| :: CleanParam(rest[k])
    ensures ParseLine(g, FormatLine("NODE", [NatToString(id + 1), kind] + rest))
            == Success(g.(nodes := g.nodes + [Node(id, Invalid, "")]))
  {
    var ps := [NatToString(id + 1), kind] + rest;
    NoDelimiterDigits(NatToString(id + 1));
    assert forall k | 2 <= k < |ps| :: ps[k] == rest[k - 2];
    LineRoundTrip("NODE", ps);
    ParseNatToString(id + 1);
    ParseLineOf(g, FormatLine("NODE", ps), "NODE", ps);
    ApplyNode(g, ps, Node(id, Invalid, ""));
  }

  // ------------------------------------------------------------------
  // Reading a whole file (src/Graph.cpp:14-67)

  /** `r` is `g` with the nodes `ns` and the edges `es` appended and each
      counter grown by the OUTPUT (DISPENSE) nodes among `ns`. */
  predicate Grown(g: GraphData, r: GraphData, ns: seq<Node>, es: seq<Edge>) {
    && r.nodes == g.nodes + ns
    && r.edges == g.edges + es
    && r.numOutput == g.numOutput + CountOutput(ns)
    && r.numDispenser == g.numDispenser + CountDispense(ns)
  }

  lemma GrownTrans(g: GraphData, g': GraphData, r: GraphData,
                   ns: seq<Node>, es: seq<Edge>, ns': seq<Node>, es': seq<Edge>)
    requires Grown(g, g', ns, es) && Grown(g', r, ns', es')
    ensures Grown(g, r, ns + ns', es + es')
  {
    CountsOfConcat(ns, ns');
    assert g.nodes + ns + ns' == g.nodes + (ns + ns');
    assert g.edges + es + es' == g.edges + (es + es');
  }

  /** What one line does: it appends the nodes and edges it declares (which
      do not depend on the lines before it), counts its OUTPUT and DISPENSE
      nodes, and changes the name only when it is a DAGNAME directive. */
  lemma ParseLineEffect(g: GraphData, line: string)
    ensures ParseLine(g, line).Success? ==>
              var r := ParseLine(g, line).value;
              && Grown(g, r, LineNodes(line), LineEdges(line))
              && (r.name != g.name ==>
                    '(' in line && LineName(line) == "DAGNAME" && |LineParams(line)| >= 1
                    && r.name == LineParams(line)[0])
  {
    if '(' in line && LineName(line) == "NODE" && ParseNode(LineParams(line)).Success? {
      var node := ParseNode(LineParams(line)).value;
      assert [node][..0] == [];
    }
  }

  /** After reading, the graph holds the nodes and edges of the lines, in
      file order, after the ones it held before; each counter grew by the
      number of OUTPUT (DISPENSE) nodes read. */
  lemma {:induction false} ParseLinesShape(g: GraphData, lines: seq<string>)
    ensures ParseLines(g, lines).Success? ==>
              Grown(g, ParseLines(g, lines).value, AllNodes(lines), AllEdges(lines))
    decreases |lines|
  {
    if lines == [] {
      assert g.nodes + [] == g.nodes && g.edges + [] == g.edges;
    } else if ParseLine(g, lines[0]).Success? {
      var g' := ParseLine(g, lines[0]).value;
      ParseLineEffect(g, lines[0]);
      ParseLinesShape(g', lines[1..]);
      if ParseLines(g', lines[1..]).Success? {
        GrownTrans(g, g', ParseLines(g', lines[1..]).value,
                   LineNodes(lines[0]), LineEdges(lines[0]), AllNodes(lines[1..]), AllEdges(lines[1..]));
      }
    }
  }

  lemma {:induction false} CountsOfConcat(a: seq<Node>, b: seq<Node>)
    ensures CountOutput(a + b) == CountOutput(a) + CountOutput(b)
    ensures CountDispense(a + b) == CountDispense(a) + CountDispense(b)
    decreases |b|
  {
    if b != [] {
      var b' := b[..|b| - 1];
      assert (a + b)[..|a + b| - 1] == a + b';
      CountsOfConcat(a, b');
    } else {
      assert a + b == a;
    }
  }

  /** Reading a file from the start: `num_output` is the number of OUTPUT
      nodes and `num_dispenser` the number of DISPENSE nodes. */
  lemma CountersCountNodes(lines: seq<string>)
    ensures ParseLines(EMPTY_GRAPH, lines).Success? ==>
              var r := ParseLines(EMPTY_GRAPH, lines).value;
              && r.numOutput == CountOutput(r.nodes)
              && r.numDispenser == CountDispense(r.nodes)
  {
    ParseLinesShape(EMPTY_GRAPH, lines);
    assert [] + AllNodes(lines) == AllNodes(lines);
  }

  /** Reading two pieces of a file one after the other is reading the whole. */
  lemma {:induction false} ParseLinesConcat(g: GraphData, first: seq<string>, second: seq<string>)
    ensures ParseLines(g, first + second)
            == match ParseLines(g, first)
               case Success(g') => ParseLines(g', second)
               case Failure(e) => Failure(e)
    decreases |first|
  {
    if first == [] {
      assert first + second == second;
    } else {
      assert (first + second)[0] == first[0];
      assert (first + second)[1..] == first[1..] + second;
      if ParseLine(g, first[0]).Success? {
        ParseLinesConcat(ParseLine(g, first[0]).value, first[1..], second);
      }
    }
  }
}
