/**
  The graph that the simulation adapter builds from a host graph: a list of
  nodes, a list of edges and a map from the host's node identifiers
  (already turned into strings) to dense node indices.

  A Rust `unwrap` of a missing map entry panics; here it is a `Failure`
  carrying the identifier or index that was missing, and a method that
  fails leaves the graph as it was.
*/
module NetworkX {
  import opened Wrappers
  import opened Labels

  /** A node: its dense index and its attributes. */
  datatype Node<V> = Node(id: nat, attributes: Attributes<V>)

  /** A directed edge between two node indices, with its attributes. */
  datatype Edge<V> = Edge(source: nat, target: nat, attributes: Attributes<V>)

  /** Why a call panicked. */
  datatype Panic =
    | UnknownNode(name: string)   // an external identifier missing from the index map
    | MissingNodeId(index: nat)   // an edge endpoint that no node carries as its id

  /** A caller-supplied label comparator. */
  type LabelFn<!V> = (Attributes<V>, Attributes<V>) -> bool

  // ---------------------------------------------------------------------
  // Decimal formatting of indices, for the keys the Graph trait inserts.

  function DigitChar(d: nat): (c: char)
    requires d < 10
    ensures '0' <= c <= '9'
  {
    ('0' as int + d) as char
  }

  function DigitValue(c: char): (d: nat)
    requires '0' <= c <= '9'
    ensures d < 10
  {
    c as int - '0' as int
  }

  predicate AllDigits(s: string) {
    forall i :: 0 <= i < |s| ==> '0' <= s[i] <= '9'
  }

  /** Rust's `{}` formatting of an unsigned integer: decimal, no leading zeros. */
  function Decimal(n: nat): (s: string)
    ensures |s| >= 1 && AllDigits(s)
    ensures s[0] == '0' ==> s == "0" && n == 0
  {
    if n < 10 then [DigitChar(n)] else Decimal(n / 10) + [DigitChar(n % 10)]
  }

  /** The number a string of decimal digits denotes. */
  function DecimalValue(s: string): nat
    requires AllDigits(s)
  {
    if s == [] then 0 else DecimalValue(s[..|s| - 1]) * 10 + DigitValue(s[|s| - 1])
  }

  /** Reading a formatted index back gives the index. */
  lemma {:induction false} DecimalRoundTrip(n: nat)
    ensures DecimalValue(Decimal(n)) == n
  {
    if n >= 10 {
      var s := Decimal(n);
      assert s[..|s| - 1] == Decimal(n / 10);
      DecimalRoundTrip(n / 10);
    }
  }

  /**
    The key the Graph trait's `add_node` records for index `i`: "Node{i}.",
    the prefix "Node", the decimal digits of `i` and a full stop.
  */
  function NodeKey(i: nat): (k: string)
    ensures |k| >= 6 && k[..4] == "Node" && k[|k| - 1] == '.'
    ensures AllDigits(k[4..|k| - 1]) && DecimalValue(k[4..|k| - 1]) == i
    ensures k[4] == '0' ==> k == "Node0."
  {
    var k := "Node" + Decimal(i) + ".";
    assert k[4..|k| - 1] == Decimal(i);
    DecimalRoundTrip(i);
    k
  }

  /** Distinct indices get distinct keys. */
  lemma NodeKeyInjective(i: nat, j: nat)
    ensures NodeKey(i) == NodeKey(j) <==> i == j
  {
  }

  // ---------------------------------------------------------------------
  // Queries on the node and edge lists, as values.

  /** Edge `e` joins `s` to `t`. */
  predicate Joins<V>(e: Edge<V>, s: nat, t: nat) {
    e.source == s && e.target == t
  }

  /** Index `i` holds the first edge of `edges` that joins `s` to `t`. */
  ghost predicate FirstJoin<V>(edges: seq<Edge<V>>, i: int, s: nat, t: nat) {
    0 <= i < |edges| && Joins(edges[i], s, t) && forall j :: 0 <= j < i ==> !Joins(edges[j], s, t)
  }

  /**
    The search of `get_edge_attributes`: the edges are visited in order and,
    for each, the source identifier is resolved (panicking if unknown) and
    compared; only when the source matches is the target identifier
    resolved (panicking if unknown) and compared.
  */
  function FindEdge<V>(edges: seq<Edge<V>>, indices: map<string, nat>, source: string, target: string)
    : (r: Result<Option<Attributes<V>>, Panic>)
    // an unknown source panics on the first edge visited
    ensures source !in indices ==> r == if edges == [] then Success(None) else Failure(UnknownNode(source))
    // a known source with an unknown target panics exactly when some edge leaves the source
    ensures source in indices && target !in indices ==>
              r == if exists i :: 0 <= i < |edges| && edges[i].source == indices[source]
                   then Failure(UnknownNode(target)) else Success(None)
    // both known: the attributes of the first joining edge, if any
    ensures source in indices && target in indices ==>
              r.Success? &&
              (r.value.Some? <==> exists i :: 0 <= i < |edges| && Joins(edges[i], indices[source], indices[target])) &&
              (r.value.Some? ==> exists i :: FirstJoin(edges, i, indices[source], indices[target])
                                              && r.value.value == edges[i].attributes)
  {
    if edges == [] then
      Success(None)
    else if source !in indices then
      Failure(UnknownNode(source))
    else if edges[0].source != indices[source] then
      var r := FindEdge(edges[1..], indices, source, target);
      assert forall i :: 1 <= i < |edges| ==> edges[i] == edges[1..][i - 1];
      assert target in indices && r.Success? && r.value.Some? ==>
        exists i :: FirstJoin(edges, i, indices[source], indices[target]) && r.value.value == edges[i].attributes
      by {
        if target in indices && r.Success? && r.value.Some? {
          var k :| FirstJoin(edges[1..], k, indices[source], indices[target]) && r.value.value == edges[1..][k].attributes;
          assert FirstJoin(edges, k + 1, indices[source], indices[target]);
        }
      }
      r
    else if target !in indices then
      Failure(UnknownNode(target))
    else if edges[0].target == indices[target] then
      assert FirstJoin(edges, 0, indices[source], indices[target]);
      Success(Some(edges[0].attributes))
    else
      var r := FindEdge(edges[1..], indices, source, target);
      assert forall i :: 1 <= i < |edges| ==> edges[i] == edges[1..][i - 1];
      assert r.Success? && r.value.Some? ==>
        exists i :: FirstJoin(edges, i, indices[source], indices[target]) && r.value.value == edges[i].attributes
      by {
        if r.Success? && r.value.Some? {
          var k :| FirstJoin(edges[1..], k, indices[source], indices[target]) && r.value.value == edges[1..][k].attributes;
          assert FirstJoin(edges, k + 1, indices[source], indices[target]);
        }
      }
      r
  }

  /** Some node of `nodes` carries `id`. */
  ghost predicate HasId<V>(nodes: seq<Node<V>>, id: nat) {
    exists i :: 0 <= i < |nodes| && nodes[i].id == id
  }

  /** Index `i` holds the last node of `nodes` whose id is `id`. */
  ghost predicate LastWithId<V>(nodes: seq<Node<V>>, i: int, id: nat) {
    0 <= i < |nodes| && nodes[i].id == id && forall j :: i < j < |nodes| ==> nodes[j].id != id
  }

  /**
    The `id_map` of `get_edges_pair`, collected from the nodes in order, so
    that a later node with the same id replaces an earlier one.
  */
  function IdMap<V>(nodes: seq<Node<V>>): (m: map<nat, Node<V>>)
    ensures forall id :: id in m <==> HasId(nodes, id)
  {
    if nodes == [] then map[]
    else
      var last := nodes[|nodes| - 1];
      var init := nodes[..|nodes| - 1];
      var m := IdMap(init);
      assert forall i :: 0 <= i < |nodes| - 1 ==> nodes[i] == init[i];
      assert forall id :: HasId(nodes, id) <==> HasId(init, id) || id == last.id by {
        forall id ensures HasId(nodes, id) <==> HasId(init, id) || id == last.id {
          if HasId(nodes, id) && id != last.id {
            var i :| 0 <= i < |nodes| && nodes[i].id == id;
            assert init[i].id == id;
          }
          if id == last.id {
            assert nodes[|nodes| - 1].id == id;
          }
        }
      }
      m[last.id := last]
  }

  /** When several nodes share an id, `IdMap` keeps the last of them. */
  lemma {:induction false} IdMapLastWins<V>(nodes: seq<Node<V>>, id: nat)
    requires id in IdMap(nodes)
    ensures exists i :: LastWithId(nodes, i, id) && IdMap(nodes)[id] == nodes[i]
  {
    assert nodes != [];
    var n := |nodes| - 1;
    var init := nodes[..n];
    var last := nodes[n];
    if last.id == id {
      assert IdMap(nodes)[id] == last;
      assert LastWithId(nodes, n, id);
    } else {
      assert id in IdMap(init) && IdMap(nodes)[id] == IdMap(init)[id];
      IdMapLastWins(init, id);
      var i :| LastWithId(init, i, id) && IdMap(init)[id] == init[i];
      assert nodes[i] == init[i];
      forall j | i < j < |nodes|
        ensures nodes[j].id != id
      {
        if j < n {
          assert nodes[j] == init[j];
        }
      }
      assert LastWithId(nodes, i, id);
    }
  }

  /** On nodes whose ids are their positions, `IdMap` finds each node by position. */
  lemma IdMapOfDenseNodes<V>(nodes: seq<Node<V>>)
    requires forall j :: 0 <= j < |nodes| ==> nodes[j].id == j
    ensures forall i :: 0 <= i < |nodes| ==> i in IdMap(nodes) && IdMap(nodes)[i] == nodes[i]
  {
    forall i | 0 <= i < |nodes|
      ensures i in IdMap(nodes) && IdMap(nodes)[i] == nodes[i]
    {
      assert nodes[i].id == i && HasId(nodes, i);
      IdMapLastWins(nodes, i);
    }
  }

  /**
    The pairs of `get_edges_pair`: each edge's endpoints looked up in the id
    map, in edge order; the first endpoint missing from the map panics.
  */
  function EdgePairs<V>(edges: seq<Edge<V>>, idMap: map<nat, Node<V>>)
    : (r: Result<seq<(Node<V>, Node<V>)>, Panic>)
    ensures r.Success? <==> forall i :: 0 <= i < |edges| ==> edges[i].source in idMap && edges[i].target in idMap
    ensures r.Failure? ==> r.error.MissingNodeId? && r.error.index !in idMap
    ensures r.Success? ==> (|r.value| == |edges| &&
              forall i :: 0 <= i < |edges| ==>
                r.value[i] == (idMap[edges[i].source], idMap[edges[i].target]))
  {
    if edges == [] then
      Success([])
    else if edges[0].source !in idMap then
      Failure(MissingNodeId(edges[0].source))
    else if edges[0].target !in idMap then
      Failure(MissingNodeId(edges[0].target))
    else
      assert forall i :: 1 <= i < |edges| ==> edges[i] == edges[1..][i - 1];
      var rest :- EdgePairs(edges[1..], idMap);
      Success([(idMap[edges[0].source], idMap[edges[0].target])] + rest)
  }

  /** Each pair holds the last nodes that carry the edge's endpoint ids. */
  lemma EdgePairsLastWins<V>(nodes: seq<Node<V>>, edges: seq<Edge<V>>)
    ensures var r := EdgePairs(edges, IdMap(nodes));
            r.Success? ==> forall i :: 0 <= i < |edges| ==>
              (exists j :: LastWithId(nodes, j, edges[i].source) && r.value[i].0 == nodes[j]) &&
              (exists j :: LastWithId(nodes, j, edges[i].target) && r.value[i].1 == nodes[j])
  {
    var r := EdgePairs(edges, IdMap(nodes));
    if r.Success? {
      forall i | 0 <= i < |edges|
        ensures exists j :: LastWithId(nodes, j, edges[i].source) && r.value[i].0 == nodes[j]
        ensures exists j :: LastWithId(nodes, j, edges[i].target) && r.value[i].1 == nodes[j]
      {
        IdMapLastWins(nodes, edges[i].source);
        IdMapLastWins(nodes, edges[i].target);
      }
    }
  }

  // ---------------------------------------------------------------------
  // The graph object.

  class NetworkXGraph<V> {
    var nodes: seq<Node<V>>
    var edges: seq<Edge<V>>
    var nodeIndices: map<string, nat>
    var sameLabelFn: Option<LabelFn<V>>

    /** Every recorded identifier resolves to an existing node. */
    predicate IndicesInRange()
      reads this
    {
      forall name :: name in nodeIndices ==> nodeIndices[name] < |nodes|
    }

    /** Every node's id is its position in `nodes`. */
    predicate IdsArePositions()
      reads this
    {
      forall i :: 0 <= i < |nodes| ==> nodes[i].id == i
    }

    /** Every edge joins two existing nodes. */
    predicate EdgesInRange()
      reads this
    {
      forall i :: 0 <= i < |edges| ==> edges[i].source < |nodes| && edges[i].target < |nodes|
    }

    /** The invariant that `new`, `add_node` and `add_edge` keep. */
    predicate Valid()
      reads this
    {
      IndicesInRange() && IdsArePositions() && EdgesInRange()
    }

    /** An empty graph using the native label matcher. */
    constructor ()
      ensures Valid()
      ensures nodes == [] && edges == [] && nodeIndices == map[] && sameLabelFn == None
    {
      nodes := [];
      edges := [];
      nodeIndices := map[];
      sameLabelFn := None;
    }

    /**
      Appends a node with the next index and records (or replaces) the
      mapping from `name` to that index.
    */
    method AddNode(name: string, attributes: Attributes<V>)
      modifies this
      ensures nodes == old(nodes) + [Node(|old(nodes)|, attributes)]
      ensures nodeIndices == old(nodeIndices)[name := |old(nodes)|]
      ensures edges == old(edges) && sameLabelFn == old(sameLabelFn)
      ensures old(IndicesInRange()) ==> IndicesInRange()
      ensures old(IdsArePositions()) ==> IdsArePositions()
      ensures old(EdgesInRange()) ==> EdgesInRange()
      ensures NodeCount() == old(NodeCount()) + 1
      ensures old(IndicesInRange()) ==> GetNodeAttributes(name) == Some(attributes)
    {
      var index := |nodes|;
      nodeIndices := nodeIndices[name := index];
      nodes := nodes + [Node(index, attributes)];
    }

    /**
      Resolves both endpoints through the index map and appends the edge;
      an unknown source (checked first) or target panics and nothing changes.
    */
    method AddEdge(source: string, target: string, attributes: Attributes<V>)
      returns (r: Result<(), Panic>)
      modifies this
      ensures source !in old(nodeIndices) ==> r == Failure(UnknownNode(source))
      ensures source in old(nodeIndices) && target !in old(nodeIndices) ==> r == Failure(UnknownNode(target))
      ensures r.Success? <==> source in old(nodeIndices) && target in old(nodeIndices)
      ensures r.Success? ==>
                edges == old(edges) + [Edge(old(nodeIndices)[source], old(nodeIndices)[target], attributes)]
      ensures r.Failure? ==> edges == old(edges)
      ensures EdgeCount() == old(EdgeCount()) + if r.Success? then 1 else 0
      ensures nodes == old(nodes) && nodeIndices == old(nodeIndices) && sameLabelFn == old(sameLabelFn)
      ensures old(Valid()) ==> Valid()
      ensures old(IndicesInRange()) ==> IndicesInRange()
      ensures old(IdsArePositions()) ==> IdsArePositions()
    {
      if source !in nodeIndices {
        return Failure(UnknownNode(source));
      }
      if target !in nodeIndices {
        return Failure(UnknownNode(target));
      }
      var s := nodeIndices[source];
      var t := nodeIndices[target];
      edges := edges + [Edge(s, t, attributes)];
      r := Success(());
    }

    /** The Graph trait's `add_node`: appends the given node under the key "Node{index}.". */
    method GraphAddNode(node: Node<V>)
      modifies this
      ensures nodes == old(nodes) + [node]
      ensures nodeIndices == old(nodeIndices)[NodeKey(|old(nodes)|) := |old(nodes)|]
      ensures edges == old(edges) && sameLabelFn == old(sameLabelFn)
      ensures old(IndicesInRange()) ==> IndicesInRange()
      ensures old(IdsArePositions()) ==> (IdsArePositions() <==> node.id == |old(nodes)|)
      ensures old(EdgesInRange()) ==> EdgesInRange()
      ensures old(IndicesInRange()) ==> GetNodeAttributes(NodeKey(|old(nodes)|)) == Some(node.attributes)
    {
      var index := |nodes|;
      nodeIndices := nodeIndices[NodeKey(index) := index];
      nodes := nodes + [node];
      assert nodes[index] == node;
    }

    /** The Graph trait's `add_edge`: appends the edge as given, unchecked. */
    method GraphAddEdge(edge: Edge<V>)
      modifies this
      ensures edges == old(edges) + [edge]
      ensures nodes == old(nodes) && nodeIndices == old(nodeIndices) && sameLabelFn == old(sameLabelFn)
      ensures old(IndicesInRange()) ==> IndicesInRange()
      ensures old(IdsArePositions()) ==> IdsArePositions()
      ensures old(EdgesInRange()) ==>
                (EdgesInRange() <==> edge.source < |nodes| && edge.target < |nodes|)
    {
      edges := edges + [edge];
      assert edges[|edges| - 1] == edge;
    }

    /** The number of nodes; every recorded identifier resolves below it. */
    function NodeCount(): (n: nat)
      reads this
      ensures n == |nodes|
      ensures IndicesInRange() ==> forall name :: name in nodeIndices ==> nodeIndices[name] < n
    {
      |nodes|
    }

    /** The number of edges; on a valid graph, one per successful `AddEdge`. */
    function EdgeCount(): (n: nat)
      reads this
      ensures n == |edges|
    {
      |edges|
    }

    /** The attributes of the node recorded under `name`, if any. */
    function GetNodeAttributes(name: string): (r: Option<Attributes<V>>)
      reads this
      requires IndicesInRange()
      ensures r.Some? <==> name in nodeIndices
      ensures r.Some? ==> exists i :: 0 <= i < |nodes| && nodeIndices[name] == i && r.value == nodes[i].attributes
    {
      if name in nodeIndices then Some(nodes[nodeIndices[name]].attributes) else None
    }

    /**
      The attributes of the first edge, in insertion order, from the node
      recorded under `source` to the node recorded under `target`.
    */
    function GetEdgeAttributes(source: string, target: string): (r: Result<Option<Attributes<V>>, Panic>)
      reads this
      ensures edges == [] ==> r == Success(None)
      ensures source in nodeIndices && target !in nodeIndices ==>
                r == if exists i :: 0 <= i < |edges| && edges[i].source == nodeIndices[source]
                     then Failure(UnknownNode(target)) else Success(None)
      ensures source in nodeIndices && target in nodeIndices ==>
                r.Success? &&
                (r.value.Some? <==> exists i :: 0 <= i < |edges| && Joins(edges[i], nodeIndices[source], nodeIndices[target])) &&
                (r.value.Some? ==> exists i :: FirstJoin(edges, i, nodeIndices[source], nodeIndices[target])
                                                && r.value.value == edges[i].attributes)
      ensures r.Failure? ==> r.error.UnknownNode? && r.error.name !in nodeIndices
      ensures edges != [] && source !in nodeIndices ==> r == Failure(UnknownNode(source))
    {
      FindEdge(edges, nodeIndices, source, target)
    }

    /**
      One pair of endpoint nodes per edge, in edge order. On a valid graph it
      never panics and the pair of edge `i` is the nodes at its endpoints'
      positions.
    */
    function GetEdgesPair(): (r: Result<seq<(Node<V>, Node<V>)>, Panic>)
      reads this
      ensures r.Success? <==> forall i :: 0 <= i < |edges| ==>
                HasId(nodes, edges[i].source) && HasId(nodes, edges[i].target)
      ensures r.Failure? ==> r.error.MissingNodeId?
      ensures r.Success? ==> |r.value| == |edges|
      ensures r.Success? ==> forall i :: 0 <= i < |edges| ==>
                r.value[i].0.id == edges[i].source && r.value[i].1.id == edges[i].target &&
                r.value[i].0 in nodes && r.value[i].1 in nodes
      ensures r.Success? ==> forall i :: 0 <= i < |edges| ==>
                (exists j :: LastWithId(nodes, j, edges[i].source) && r.value[i].0 == nodes[j]) &&
                (exists j :: LastWithId(nodes, j, edges[i].target) && r.value[i].1 == nodes[j])
      ensures Valid() ==> (r.Success? &&
                forall i :: 0 <= i < |edges| ==>
                  r.value[i] == (nodes[edges[i].source], nodes[edges[i].target]))
    {
      var idMap := IdMap(nodes);
      EdgePairsLastWins(nodes, edges);
      if IdsArePositions() then
        IdMapOfDenseNodes(nodes);
        EdgePairs(edges, idMap)
      else
        EdgePairs(edges, idMap)
    }

    /**
      Whether `node` and `labelNode` have the same label: by the caller's
      comparator when one is installed, by key coverage otherwise.
    */
    function LabelSame(node: Node<V>, labelNode: Node<V>): (r: bool)
      reads this
      ensures sameLabelFn.Some? ==> r == sameLabelFn.value(node.attributes, labelNode.attributes)
      ensures sameLabelFn.None? ==> (r <==> node.attributes.Keys <= labelNode.attributes.Keys)
    {
      match sameLabelFn
      case Some(f) => f(node.attributes, labelNode.attributes)
      case None => CoversKeys(node.attributes, labelNode.attributes)
    }
  }

  /**
    A client of the builder: the pattern graph user -> order, built through
    the host-facing methods.
  */
  method BuildPattern() returns (g: NetworkXGraph<string>)
    ensures fresh(g) && g.Valid()
    ensures g.nodes == [Node(0, map["type" := "user"]), Node(1, map["type" := "order"])]
    ensures g.edges == [Edge(0, 1, map[])]
    ensures g.nodeIndices == map["n1" := 0, "n2" := 1]
  {
    g := new NetworkXGraph<string>();
    g.AddNode("n1", map["type" := "user"]);
    g.AddNode("n2", map["type" := "order"]);
    var ok := g.AddEdge("n1", "n2", map[]);
    var bad := g.AddEdge("n1", "n3", map[]);
    assert bad == Failure(UnknownNode("n3"));
  }

  /** Queries on the pattern graph. */
  method QueryPattern() {
    var g := BuildPattern();
    assert g.NodeCount() == 2 && g.EdgeCount() == 1;
    var found := g.GetEdgeAttributes("n1", "n2");
    assert found == Success(Some(map[]));
    var reverse := g.GetEdgeAttributes("n2", "n1");
    assert reverse == Success(None);
    var pairs := g.GetEdgesPair();
    assert pairs.value[0] == (g.nodes[0], g.nodes[1]);
    assert pairs.value == [pairs.value[0]];
  }
}
