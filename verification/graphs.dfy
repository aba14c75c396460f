/** The graph store (graph.h): nodes, ports and connections sharing one
    increasing identifier counter, cascading removal, connection legality and
    the "which nodes feed this node" query used by the evaluator. */
module Graphs {
  import opened Wrappers
  import opened PortValues

  datatype Connection = Connection(id: int, node0: int, node1: int, port0: int, port1: int)

  datatype Dir = Input | Output | Static

  datatype Port = Port(id: int, dir: Dir, order: int, text: string, data: PortData)

  /** nodetypes.h, extended with the Int and UInt kinds the constructors use. */
  datatype NodeType =
    | InvalidType | FloatType | IntType | UIntType
    | Vec2Type | Vec3Type | Vec4Type | Mat3Type | Mat4Type
    | PlusType | MinusType | MulType | DivType | NegateType

  /** The closed set of evaluation functions that replaces the C++
      `std::function` callback; a node without one has `evalFunc == None`. */
  datatype NodeKind = Constant | Plus | Minus | Mul | Div | Negate

  datatype Node = Node(
    id: int,
    nodeType: NodeType,
    inputPortCount: nat,
    evalFunc: Option<NodeKind>,
    ports: seq<Port>,
    text: string)

  datatype Graph = Graph(
    nodes: map<int, Node>,
    portNodeMap: map<int, int>,
    connections: seq<Connection>,
    nextId: int)

  /** A freshly constructed `Graph`: nothing stored, the counter at 1. */
  function EmptyGraph(): (g: Graph)
    ensures g.nodes == map[] && g.portNodeMap == map[] && g.connections == [] && g.nextId == 1
  {
    Graph(map[], map[], [], 1)
  }

  // ---------------------------------------------------------------------------
  // Port lookup (Node::port)

  /** The index of the first port with identifier `id`, searching from `from`. */
  function PortIndexFrom(ports: seq<Port>, id: int, from: nat): (r: Option<nat>)
    requires from <= |ports|
    ensures r.Some? ==> from <= r.value < |ports| && ports[r.value].id == id
    ensures r.Some? ==> forall j :: from <= j < r.value ==> ports[j].id != id
    ensures r.None? <==> forall j :: from <= j < |ports| ==> ports[j].id != id
    decreases |ports| - from
  {
    if from == |ports| then None
    else if ports[from].id == id then Some(from)
    else PortIndexFrom(ports, id, from + 1)
  }

  function PortIndex(ports: seq<Port>, id: int): (r: Option<nat>)
    ensures r.Some? ==> r.value < |ports| && ports[r.value].id == id
    ensures r.Some? ==> forall j :: 0 <= j < r.value ==> ports[j].id != id
    ensures r.None? <==> forall j :: 0 <= j < |ports| ==> ports[j].id != id
  {
    PortIndexFrom(ports, id, 0)
  }

  predicate HasPort(n: Node, id: int)
  {
    PortIndex(n.ports, id).Some?
  }

  /** `Node::port`: the first port with that identifier. The C++ dereferences
      the search result unchecked, so the port must exist. */
  function PortOf(n: Node, id: int): (p: Port)
    requires HasPort(n, id)
    ensures p.id == id && p in n.ports
  {
    n.ports[PortIndex(n.ports, id).value]
  }

  // ---------------------------------------------------------------------------
  // Filtering connections

  /** `erase(remove_if(...))`: keep the connections satisfying `keep`, in order. */
  function Filter(cs: seq<Connection>, keep: Connection -> bool): (r: seq<Connection>)
    ensures |r| <= |cs|
    ensures forall c :: c in r <==> c in cs && keep(c)
    ensures (forall i :: 0 <= i < |cs| ==> keep(cs[i])) ==> r == cs
  {
    if cs == [] then []
    else (if keep(cs[0]) then [cs[0]] else []) + Filter(cs[1..], keep)
  }

  /** Filtering distributes over concatenation, so survivors keep their
      relative order. */
  lemma {:induction false} FilterAppend(a: seq<Connection>, b: seq<Connection>, keep: Connection -> bool)
    ensures Filter(a + b, keep) == Filter(a, keep) + Filter(b, keep)
  {
    if a == [] {
      assert a + b == b;
    } else {
      assert (a + b)[1..] == a[1..] + b;
      FilterAppend(a[1..], b, keep);
    }
  }

  // ---------------------------------------------------------------------------
  // Node and port creation and removal

  /** `newNode`: a node with the old counter value as identifier, type
      Invalid, no inputs, no evaluation function and no ports. */
  function NewNode(g: Graph): (r: (Graph, int))
    ensures r.1 == g.nextId && r.0.nextId == g.nextId + 1
    ensures r.0.nodes.Keys == g.nodes.Keys + {r.1}
    ensures r.0.nodes[r.1] == Node(r.1, InvalidType, 0, None, [], "")
    ensures forall k :: k in g.nodes && k != r.1 ==> r.0.nodes[k] == g.nodes[k]
    ensures r.0.connections == g.connections && r.0.portNodeMap == g.portNodeMap
  {
    var id := g.nextId;
    (g.(nodes := g.nodes[id := Node(id, InvalidType, 0, None, [], "")], nextId := id + 1), id)
  }

  /** `removeNode` as written: the node and every connection touching it go;
      the port index is left alone, so entries for the node's ports dangle. */
  function RemoveNode(g: Graph, id: int): (r: Graph)
    ensures r.nodes.Keys == g.nodes.Keys - {id}
    ensures forall k :: k in r.nodes ==> r.nodes[k] == g.nodes[k]
    ensures forall c :: c in r.connections <==> c in g.connections && c.node0 != id && c.node1 != id
    ensures r.connections == Filter(g.connections, (c: Connection) => c.node0 != id && c.node1 != id)
    ensures r.portNodeMap == g.portNodeMap && r.nextId == g.nextId
  {
    g.(nodes := g.nodes - {id},
       connections := Filter(g.connections, (c: Connection) => c.node0 != id && c.node1 != id))
  }

  /** `addPort`: appends a port with the old counter value as identifier, the
      requested direction, order 0, no label and the default value, and
      records its owner in the port index. */
  function AddPort(g: Graph, nodeId: int, dir: Dir): (r: (Graph, int))
    requires nodeId in g.nodes
    ensures r.1 == g.nextId && r.0.nextId == g.nextId + 1
    ensures r.0.nodes.Keys == g.nodes.Keys
    ensures var n, n' := g.nodes[nodeId], r.0.nodes[nodeId];
      n' == n.(ports := n.ports + [Port(r.1, dir, 0, "", Default())])
    ensures forall k :: k in g.nodes && k != nodeId ==> r.0.nodes[k] == g.nodes[k]
    ensures r.0.portNodeMap == g.portNodeMap[r.1 := g.nodes[nodeId].id]
    ensures r.0.connections == g.connections
  {
    var id := g.nextId;
    var n := g.nodes[nodeId];
    var n' := n.(ports := n.ports + [Port(id, dir, 0, "", Default())]);
    (g.(nodes := g.nodes[nodeId := n'], portNodeMap := g.portNodeMap[id := n.id], nextId := id + 1), id)
  }

  /** Erases the first port with identifier `id`. */
  function ErasePort(ports: seq<Port>, id: int): (r: seq<Port>)
    requires PortIndex(ports, id).Some?
    ensures |r| == |ports| - 1
    ensures var i := PortIndex(ports, id).value;
      r[..i] == ports[..i] && forall j :: i <= j < |r| ==> r[j] == ports[j + 1]
  {
    var i := PortIndex(ports, id).value;
    var r := ports[..i] + ports[i + 1..];
    assert forall j :: i <= j < |r| ==> r[j] == ports[i + 1..][j - i];
    r
  }

  /** `removePort`: the port leaves its node (the others keep their order),
      its index entry is erased and every connection naming it is dropped. */
  function RemovePort(g: Graph, nodeId: int, id: int): (r: Graph)
    requires nodeId in g.nodes && HasPort(g.nodes[nodeId], id)
    ensures r.nodes.Keys == g.nodes.Keys
    ensures var n := g.nodes[nodeId]; var i := PortIndex(n.ports, id).value;
      r.nodes[nodeId] == n.(ports := n.ports[..i] + n.ports[i + 1..])
    ensures forall k :: k in g.nodes && k != nodeId ==> r.nodes[k] == g.nodes[k]
    ensures r.portNodeMap.Keys == g.portNodeMap.Keys - {id}
    ensures forall p :: p in r.portNodeMap ==> r.portNodeMap[p] == g.portNodeMap[p]
    ensures forall c :: c in r.connections <==> c in g.connections && c.port0 != id && c.port1 != id
    ensures r.connections == Filter(g.connections, (c: Connection) => c.port0 != id && c.port1 != id)
    ensures r.nextId == g.nextId
  {
    var n := g.nodes[nodeId];
    g.(nodes := g.nodes[nodeId := n.(ports := ErasePort(n.ports, id))],
       portNodeMap := g.portNodeMap - {id},
       connections := Filter(g.connections, (c: Connection) => c.port0 != id && c.port1 != id))
  }

  // ---------------------------------------------------------------------------
  // Connections

  /** The port lookup the fan-in scan performs on one existing connection:
      port0's node is consulted when port0 is one of the requested ports,
      otherwise port1's node when port1 is. */
  predicate ScanLookupOk(g: Graph, c: Connection, fromPort: int, toPort: int)
  {
    if c.port0 == fromPort || c.port0 == toPort then
      c.node0 in g.nodes && HasPort(g.nodes[c.node0], c.port0)
    else if c.port1 == fromPort || c.port1 == toPort then
      c.node1 in g.nodes && HasPort(g.nodes[c.node1], c.port1)
    else true
  }

  /** The scan's predicate on one connection, with the `else if` of the
      source: port1 is only inspected when port0 matches neither request. */
  predicate ScanHit(g: Graph, c: Connection, fromPort: int, toPort: int)
    requires ScanLookupOk(g, c, fromPort, toPort)
  {
    if c.port0 == fromPort || c.port0 == toPort then
      PortOf(g.nodes[c.node0], c.port0).dir == Input
    else if c.port1 == fromPort || c.port1 == toPort then
      PortOf(g.nodes[c.node1], c.port1).dir == Input
    else false
  }

  /** Every lookup the scan performs before it stops is defined. */
  predicate ScanDefined(g: Graph, cs: seq<Connection>, fromPort: int, toPort: int)
  {
    cs == [] ||
    (ScanLookupOk(g, cs[0], fromPort, toPort) &&
     (ScanHit(g, cs[0], fromPort, toPort) || ScanDefined(g, cs[1..], fromPort, toPort)))
  }

  /** The `find_if` of `addConnection`: does some connection occupy one of
      the requested ports on its Input side (as the scan sees it)? */
  function FindOccupied(g: Graph, cs: seq<Connection>, fromPort: int, toPort: int): (r: bool)
    requires ScanDefined(g, cs, fromPort, toPort)
    ensures r <==> exists i :: 0 <= i < |cs| && ScanLookupOk(g, cs[i], fromPort, toPort) && ScanHit(g, cs[i], fromPort, toPort)
  {
    if cs == [] then false
    else if ScanHit(g, cs[0], fromPort, toPort) then true
    else
      var r := FindOccupied(g, cs[1..], fromPort, toPort);
      assert forall i :: 1 <= i < |cs| ==> cs[i] == cs[1..][i - 1];
      r
  }

  /** What `addConnection` needs of its arguments: both endpoints exist, and,
      when their directions differ, the scan's lookups are defined. */
  predicate AddConnectionDefined(g: Graph, fromNode: int, fromPort: int, toNode: int, toPort: int)
  {
    && fromNode in g.nodes && HasPort(g.nodes[fromNode], fromPort)
    && toNode in g.nodes && HasPort(g.nodes[toNode], toPort)
    && (PortOf(g.nodes[fromNode], fromPort).dir != PortOf(g.nodes[toNode], toPort).dir ==>
          ScanDefined(g, g.connections, fromPort, toPort))
  }

  /** `addConnection` as written. Returns 0 and leaves the graph unchanged
      when both ports have the same direction or the scan finds an occupied
      Input; otherwise appends the connection under a fresh identifier. */
  function AddConnection(g: Graph, fromNode: int, fromPort: int, toNode: int, toPort: int): (r: (Graph, int))
    requires AddConnectionDefined(g, fromNode, fromPort, toNode, toPort)
    ensures var sameDir := PortOf(g.nodes[fromNode], fromPort).dir == PortOf(g.nodes[toNode], toPort).dir;
      sameDir ==> r == (g, 0)
    ensures var sameDir := PortOf(g.nodes[fromNode], fromPort).dir == PortOf(g.nodes[toNode], toPort).dir;
      (!sameDir && exists i :: 0 <= i < |g.connections| && ScanLookupOk(g, g.connections[i], fromPort, toPort)
                                  && ScanHit(g, g.connections[i], fromPort, toPort))
      ==> r == (g, 0)
    ensures var sameDir := PortOf(g.nodes[fromNode], fromPort).dir == PortOf(g.nodes[toNode], toPort).dir;
      (!sameDir && forall i :: 0 <= i < |g.connections| ==>
                                 ScanLookupOk(g, g.connections[i], fromPort, toPort) ==>
                                 !ScanHit(g, g.connections[i], fromPort, toPort))
      ==> && r.1 == g.nextId
          && r.0 == g.(connections := g.connections + [Connection(g.nextId, fromNode, toNode, fromPort, toPort)],
                       nextId := g.nextId + 1)
  {
    if PortOf(g.nodes[fromNode], fromPort).dir == PortOf(g.nodes[toNode], toPort).dir then (g, 0)
    else if FindOccupied(g, g.connections, fromPort, toPort) then (g, 0)
    else
      var id := g.nextId;
      (g.(connections := g.connections + [Connection(id, fromNode, toNode, fromPort, toPort)], nextId := id + 1), id)
  }

  /** The index of the first connection with identifier `id`. */
  function ConnectionIndex(cs: seq<Connection>, id: int): (r: Option<nat>)
    ensures r.Some? ==> r.value < |cs| && cs[r.value].id == id
    ensures r.Some? ==> forall j :: 0 <= j < r.value ==> cs[j].id != id
    ensures r.None? <==> forall j :: 0 <= j < |cs| ==> cs[j].id != id
  {
    if cs == [] then None
    else if cs[0].id == id then Some(0)
    else match ConnectionIndex(cs[1..], id)
      case None => None
      case Some(i) => Some(i + 1)
  }

  /** `removeConnection`: deletes the first connection with that identifier,
      if any; nodes and ports are untouched. */
  function RemoveConnection(g: Graph, id: int): (r: Graph)
    ensures r.nodes == g.nodes && r.portNodeMap == g.portNodeMap && r.nextId == g.nextId
    ensures (forall j :: 0 <= j < |g.connections| ==> g.connections[j].id != id) ==> r == g
    ensures forall i :: (0 <= i < |g.connections| && g.connections[i].id == id
                         && forall j :: 0 <= j < i ==> g.connections[j].id != id)
                        ==> r.connections == g.connections[..i] + g.connections[i + 1..]
  {
    match ConnectionIndex(g.connections, id)
    case None => g
    case Some(i) => g.(connections := g.connections[..i] + g.connections[i + 1..])
  }

  // ---------------------------------------------------------------------------
  // orderedSourceNodesForNode

  /** The local endpoint of `c` on node `n` can be looked up: port0 when n is
      node0, else port1 when n is node1. */
  predicate LocalLookupOk(n: Node, c: Connection)
  {
    if n.id == c.node0 then HasPort(n, c.port0)
    else if n.id == c.node1 then HasPort(n, c.port1)
    else true
  }

  /** The (remote node, local port order) pair `c` contributes to `n`'s
      sources: present exactly when the local endpoint is an Input port. */
  function SourceOf(n: Node, c: Connection): Option<(int, int)>
    requires LocalLookupOk(n, c)
  {
    if n.id == c.node0 then
      var p := PortOf(n, c.port0);
      if p.dir == Input then Some((c.node1, p.order)) else None
    else if n.id == c.node1 then
      var p := PortOf(n, c.port1);
      if p.dir == Input then Some((c.node0, p.order)) else None
    else None
  }

  /** What each connection of `cs` contributes to `n`'s sources, one entry
      per connection. */
  function Contributions(n: Node, cs: seq<Connection>): (r: seq<Option<(int, int)>>)
    requires forall c :: c in cs ==> LocalLookupOk(n, c)
    ensures |r| == |cs| && forall i :: 0 <= i < |cs| ==> r[i] == SourceOf(n, cs[i])
  {
    seq(|cs|, i requires 0 <= i < |cs| => SourceOf(n, cs[i]))
  }

  lemma ContributionsCons(n: Node, cs: seq<Connection>)
    requires cs != [] && forall c :: c in cs ==> LocalLookupOk(n, c)
    ensures multiset(Contributions(n, cs)) == multiset{SourceOf(n, cs[0])} + multiset(Contributions(n, cs[1..]))
  {
    assert Contributions(n, cs) == [SourceOf(n, cs[0])] + Contributions(n, cs[1..]);
  }

  /** The unsorted result of the loop in orderedSourceNodesForNode: each
      pair occurs exactly as often as there are connections contributing it. */
  function Collect(n: Node, cs: seq<Connection>): (r: seq<(int, int)>)
    requires forall c :: c in cs ==> LocalLookupOk(n, c)
    ensures |r| <= |cs|
    ensures forall i :: 0 <= i < |cs| && SourceOf(n, cs[i]).Some? ==> SourceOf(n, cs[i]).value in r
    ensures forall p :: p in r ==> exists i :: 0 <= i < |cs| && SourceOf(n, cs[i]) == Some(p)
    ensures forall p :: multiset(r)[p] == multiset(Contributions(n, cs))[Some(p)]
  {
    if cs == [] then []
    else
      var rest := Collect(n, cs[1..]);
      CountsCons(n, cs, rest);
      var r := Prepend(SourceOf(n, cs[0]), rest);
      CountsGiveMembership(n, cs, r);
      r
  }

  /** `s` with the present value of `o`, if any, in front. */
  function Prepend(o: Option<(int, int)>, s: seq<(int, int)>): (r: seq<(int, int)>)
    ensures multiset(r) == (if o.Some? then multiset{o.value} else multiset{}) + multiset(s)
    ensures |r| <= |s| + 1
  {
    match o
    case Some(p) => [p] + s
    case None => s
  }

  /** One step of the loop keeps the pair counts in line with the
      connections seen so far. */
  lemma CountsCons(n: Node, cs: seq<Connection>, rest: seq<(int, int)>)
    requires cs != [] && forall c :: c in cs ==> LocalLookupOk(n, c)
    requires forall p :: multiset(rest)[p] == multiset(Contributions(n, cs[1..]))[Some(p)]
    ensures forall p :: multiset(Prepend(SourceOf(n, cs[0]), rest))[p] == multiset(Contributions(n, cs))[Some(p)]
  {
    ContributionsCons(n, cs);
  }

  /** Matching counts give matching membership: a pair is collected exactly
      when some connection contributes it. */
  lemma CountsGiveMembership(n: Node, cs: seq<Connection>, r: seq<(int, int)>)
    requires forall c :: c in cs ==> LocalLookupOk(n, c)
    requires forall p :: multiset(r)[p] == multiset(Contributions(n, cs))[Some(p)]
    ensures forall i :: 0 <= i < |cs| && SourceOf(n, cs[i]).Some? ==> SourceOf(n, cs[i]).value in r
    ensures forall p :: p in r ==> exists i :: 0 <= i < |cs| && SourceOf(n, cs[i]) == Some(p)
  {
    var con := Contributions(n, cs);
    forall i | 0 <= i < |cs| && SourceOf(n, cs[i]).Some? ensures SourceOf(n, cs[i]).value in r {
      assert con[i] in multiset(con);
    }
    forall p | p in r ensures exists i :: 0 <= i < |cs| && SourceOf(n, cs[i]) == Some(p) {
      assert multiset(r)[p] > 0;
      assert Some(p) in con;
      var i :| 0 <= i < |con| && con[i] == Some(p);
    }
  }

  predicate SortedByOrder(s: seq<(int, int)>)
  {
    forall i, j :: 0 <= i < j < |s| ==> s[i].1 <= s[j].1
  }

  function InsertByOrder(p: (int, int), s: seq<(int, int)>): (r: seq<(int, int)>)
    requires SortedByOrder(s)
    ensures SortedByOrder(r)
    ensures multiset(r) == multiset(s) + multiset{p}
    ensures r[0] == p || (s != [] && r[0] == s[0])
  {
    if s == [] || p.1 <= s[0].1 then
      SortedCons(p, s);
      [p] + s
    else
      var rest := InsertByOrder(p, s[1..]);
      assert s == [s[0]] + s[1..];
      SortedCons(s[0], rest);
      [s[0]] + rest
  }

  lemma SortedCons(x: (int, int), s: seq<(int, int)>)
    requires SortedByOrder(s) && (s == [] || x.1 <= s[0].1)
    ensures SortedByOrder([x] + s)
  {
  }

  /** A stable insertion sort by port order. `std::sort` leaves the relative
      order of equal orders unspecified; this is one admissible outcome. */
  function SortByOrder(s: seq<(int, int)>): (r: seq<(int, int)>)
    ensures SortedByOrder(r)
    ensures multiset(r) == multiset(s)
  {
    if s == [] then []
    else
      assert s == [s[0]] + s[1..];
      InsertByOrder(s[0], SortByOrder(s[1..]))
  }

  /** What orderedSourceNodesForNode needs: the node exists and the local
      endpoint of every connection touching it is one of its ports. */
  predicate SourcesDefined(g: Graph, id: int)
  {
    id in g.nodes && forall c :: c in g.connections ==> LocalLookupOk(g.nodes[id], c)
  }

  /** `orderedSourceNodesForNode`: one (remote node, local order) pair per
      connection whose local endpoint is an Input, sorted by order. */
  function OrderedSourceNodesForNode(g: Graph, id: int): (r: seq<(int, int)>)
    requires SourcesDefined(g, id)
    ensures SortedByOrder(r)
    ensures multiset(r) == multiset(Collect(g.nodes[id], g.connections))
    ensures forall p :: multiset(r)[p] == multiset(Contributions(g.nodes[id], g.connections))[Some(p)]
  {
    SortByOrder(Collect(g.nodes[id], g.connections))
  }
}
