/** What the graph store (graph.h) keeps true between edits: nodes stored
    under their own identifiers, every identifier issued by the counter, a
    sound port index, connections whose endpoints exist, and at most one
    connection per Input port. Each operation is shown to keep these, except
    where the source does not, which the counterexamples below exhibit. */
module GraphInvariants {
  import opened Wrappers
  import opened PortValues
  import opened Graphs

  // ---------------------------------------------------------------------------
  // The invariants

  /** Every node is stored under its own identifier. */
  predicate Keyed(g: Graph)
  {
    forall k :: k in g.nodes ==> g.nodes[k].id == k
  }

  predicate ConnectionBelow(c: Connection, bound: int)
  {
    c.id < bound && c.node0 < bound && c.node1 < bound && c.port0 < bound && c.port1 < bound
  }

  /** Every identifier in use was issued by the counter, which starts at 1
      (so the 0 that addConnection returns on refusal is never an identifier). */
  predicate BelowCounter(g: Graph)
  {
    && g.nextId >= 1
    && (forall k :: k in g.nodes ==> 1 <= k < g.nextId)
    && (forall k, q :: k in g.nodes && q in g.nodes[k].ports ==> 1 <= q.id < g.nextId)
    && (forall p :: p in g.portNodeMap ==> p < g.nextId)
    && (forall c :: c in g.connections ==> ConnectionBelow(c, g.nextId))
  }

  /** Every port-index entry names an existing node that owns the port. */
  predicate PortMapSound(g: Graph)
  {
    forall p :: p in g.portNodeMap ==> g.portNodeMap[p] in g.nodes && HasPort(g.nodes[g.portNodeMap[p]], p)
  }

  /** Both endpoints of every connection exist. */
  predicate Resolves(nodes: map<int, Node>, c: Connection)
  {
    && c.node0 in nodes && HasPort(nodes[c.node0], c.port0)
    && c.node1 in nodes && HasPort(nodes[c.node1], c.port1)
  }

  predicate ConnectionsResolve(g: Graph)
  {
    forall c :: c in g.connections ==> Resolves(g.nodes, c)
  }

  /** Connection `c` ends at port `p`, which is an Input port of the node at
      that end. */
  predicate InputEnd(nodes: map<int, Node>, c: Connection, p: int)
  {
    || (c.port0 == p && c.node0 in nodes && HasPort(nodes[c.node0], p) && PortOf(nodes[c.node0], p).dir == Input)
    || (c.port1 == p && c.node1 in nodes && HasPort(nodes[c.node1], p) && PortOf(nodes[c.node1], p).dir == Input)
  }

  /** How many connections of `cs` end at the Input port `p`. */
  function InputEnds(nodes: map<int, Node>, cs: seq<Connection>, p: int): nat
  {
    if cs == [] then 0
    else (if InputEnd(nodes, cs[0], p) then 1 else 0) + InputEnds(nodes, cs[1..], p)
  }

  /** The rule addConnection's comment states: no Input port carries more
      than one connection. */
  ghost predicate FanInOne(g: Graph)
  {
    forall p :: InputEnds(g.nodes, g.connections, p) <= 1
  }

  ghost predicate Valid(g: Graph)
  {
    Keyed(g) && BelowCounter(g) && PortMapSound(g) && ConnectionsResolve(g) && FanInOne(g)
  }

  lemma EmptyValid()
    ensures Valid(EmptyGraph())
  {
    forall p ensures InputEnds(EmptyGraph().nodes, EmptyGraph().connections, p) == 0 {
    }
  }

  // ---------------------------------------------------------------------------
  // Counting Input ends

  lemma {:induction false} InputEndsAppend(nodes: map<int, Node>, a: seq<Connection>, b: seq<Connection>, p: int)
    ensures InputEnds(nodes, a + b, p) == InputEnds(nodes, a, p) + InputEnds(nodes, b, p)
    decreases |a|
  {
    if a == [] {
      assert a + b == b;
    } else {
      assert (a + b)[1..] == a[1..] + b;
      InputEndsAppend(nodes, a[1..], b, p);
    }
  }

  lemma {:induction false} InputEndsZero(nodes: map<int, Node>, cs: seq<Connection>, p: int)
    ensures InputEnds(nodes, cs, p) == 0 <==> forall c :: c in cs ==> !InputEnd(nodes, c, p)
    decreases |cs|
  {
    if cs != [] {
      InputEndsZero(nodes, cs[1..], p);
      assert forall c :: c in cs <==> c == cs[0] || c in cs[1..];
    }
  }

  /** Fewer Input ends after filtering the connections and changing the nodes,
      provided no kept connection gains one. */
  lemma {:induction false} InputEndsFilter(nodes: map<int, Node>, nodes': map<int, Node>, cs: seq<Connection>,
                                           keep: Connection -> bool, p: int)
    requires forall c :: c in cs && keep(c) && InputEnd(nodes', c, p) ==> InputEnd(nodes, c, p)
    ensures InputEnds(nodes', Filter(cs, keep), p) <= InputEnds(nodes, cs, p)
    decreases |cs|
  {
    if cs != [] {
      assert forall c :: c in cs[1..] ==> c in cs;
      InputEndsFilter(nodes, nodes', cs[1..], keep, p);
      var head := if keep(cs[0]) then [cs[0]] else [];
      InputEndsAppend(nodes', head, Filter(cs[1..], keep), p);
      if keep(cs[0]) {
        assert head[1..] == [];
      }
    }
  }

  lemma InputEndsSameNodes(nodes: map<int, Node>, nodes': map<int, Node>, cs: seq<Connection>, p: int)
    requires forall c :: c in cs && InputEnd(nodes', c, p) ==> InputEnd(nodes, c, p)
    ensures InputEnds(nodes', cs, p) <= InputEnds(nodes, cs, p)
  {
    var all := (c: Connection) => true;
    InputEndsFilter(nodes, nodes', cs, all, p);
    assert Filter(cs, all) == cs;
  }

  // ---------------------------------------------------------------------------
  // Port lookup under appending and erasing

  lemma {:induction false} PortIndexFromAppend(ports: seq<Port>, q: Port, p: int, from: nat)
    requires from <= |ports|
    requires p != q.id || PortIndexFrom(ports, p, from).Some?
    ensures PortIndexFrom(ports + [q], p, from) == PortIndexFrom(ports, p, from)
    decreases |ports| - from
  {
    if from == |ports| {
      assert (ports + [q])[from] == q;
    } else {
      assert (ports + [q])[from] == ports[from];
      if ports[from].id != p {
        PortIndexFromAppend(ports, q, p, from + 1);
      }
    }
  }

  /** Appending a port changes no existing lookup, and adds its own. */
  lemma PortLookupAppend(n: Node, q: Port, p: int)
    ensures HasPort(n.(ports := n.ports + [q]), q.id)
    ensures p != q.id || HasPort(n, p) ==>
      && HasPort(n.(ports := n.ports + [q]), p) == HasPort(n, p)
      && (HasPort(n, p) ==> PortOf(n.(ports := n.ports + [q]), p) == PortOf(n, p))
  {
    assert (n.ports + [q])[|n.ports|] == q;
    if p != q.id || HasPort(n, p) {
      PortIndexFromAppend(n.ports, q, p, 0);
      if HasPort(n, p) {
        assert (n.ports + [q])[PortIndex(n.ports, p).value] == n.ports[PortIndex(n.ports, p).value];
      }
    }
  }

  /** Erasing a port with another identifier changes no lookup of `p`. */
  lemma PortLookupErase(ports: seq<Port>, i: nat, p: int)
    requires i < |ports| && ports[i].id != p
    ensures var e := ports[..i] + ports[i + 1..];
      && PortIndex(e, p).Some? == PortIndex(ports, p).Some?
      && (PortIndex(ports, p).Some? ==> e[PortIndex(e, p).value] == ports[PortIndex(ports, p).value])
  {
    var e := ports[..i] + ports[i + 1..];
    assert forall j :: 0 <= j < i ==> e[j] == ports[j];
    assert forall j :: i <= j < |e| ==> e[j] == ports[j + 1];
    match PortIndex(ports, p) {
      case None =>
        assert forall j :: 0 <= j < |e| ==> e[j].id != p by {
          forall j | 0 <= j < |e| ensures e[j].id != p {
            if j < i { assert e[j] == ports[j]; } else { assert e[j] == ports[j + 1]; }
          }
        }
      case Some(a) =>
        var k := if a < i then a else a - 1;
        assert e[k] == ports[a];
        var b := PortIndex(e, p).value;
        if b < i {
          assert e[b] == ports[b];
        } else {
          assert e[b] == ports[b + 1];
        }
        assert b == k;
    }
  }

  lemma NodeLookupErase(n: Node, id: int, p: int)
    requires HasPort(n, id) && p != id
    ensures var n' := n.(ports := ErasePort(n.ports, id));
      && HasPort(n', p) == HasPort(n, p)
      && (HasPort(n, p) ==> PortOf(n', p) == PortOf(n, p))
  {
    PortLookupErase(n.ports, PortIndex(n.ports, id).value, p);
  }

  lemma ErasedPortsFrom(ports: seq<Port>, i: nat)
    requires i < |ports|
    ensures forall q :: q in ports[..i] + ports[i + 1..] ==> q in ports
  {
    forall q | q in ports[..i] + ports[i + 1..] ensures q in ports {
      var j :| 0 <= j < |ports[..i] + ports[i + 1..]| && (ports[..i] + ports[i + 1..])[j] == q;
      if j < i { assert ports[j] == q; } else { assert ports[j + 1] == q; }
    }
  }

  // ---------------------------------------------------------------------------
  // Node and port operations

  /** newNode issues an identifier no node or connection uses, and keeps
      every invariant. */
  lemma NewNodeValid(g: Graph)
    requires Valid(g)
    ensures var r := NewNode(g);
      && r.1 !in g.nodes && r.1 >= 1
      && (forall c :: c in g.connections ==> c.node0 != r.1 && c.node1 != r.1)
      && Valid(r.0)
  {
    NewNodeCounter(g);
    NewNodeIndex(g);
    NewNodeFanIn(g);
  }

  lemma NewNodeCounter(g: Graph)
    requires Keyed(g) && BelowCounter(g)
    ensures var r := NewNode(g);
      && r.1 !in g.nodes && r.1 >= 1
      && (forall c :: c in g.connections ==> c.node0 != r.1 && c.node1 != r.1)
      && Keyed(r.0) && BelowCounter(r.0)
  {
  }

  lemma NewNodeIndex(g: Graph)
    requires BelowCounter(g) && PortMapSound(g) && ConnectionsResolve(g)
    ensures PortMapSound(NewNode(g).0) && ConnectionsResolve(NewNode(g).0)
  {
    var r := NewNode(g);
    forall c | c in r.0.connections ensures Resolves(r.0.nodes, c) {
      assert c.node0 != r.1 && c.node1 != r.1;
    }
  }

  lemma NewNodeFanIn(g: Graph)
    requires FanInOne(g)
    ensures FanInOne(NewNode(g).0)
  {
    var r := NewNode(g);
    forall p ensures InputEnds(r.0.nodes, r.0.connections, p) <= 1 {
      InputEndsSameNodes(g.nodes, r.0.nodes, g.connections, p);
    }
  }

  /** addPort issues an identifier no port uses, and keeps every invariant. */
  lemma AddPortValid(g: Graph, nodeId: int, dir: Dir)
    requires Valid(g) && nodeId in g.nodes
    ensures var r := AddPort(g, nodeId, dir);
      && r.1 !in g.portNodeMap && r.1 >= 1
      && (forall k, q :: k in g.nodes && q in g.nodes[k].ports ==> q.id != r.1)
      && Valid(r.0)
  {
    AddPortCounter(g, nodeId, dir);
    AddPortIndex(g, nodeId, dir);
    AddPortResolve(g, nodeId, dir);
    AddPortFanIn(g, nodeId, dir);
  }

  lemma AddPortCounter(g: Graph, nodeId: int, dir: Dir)
    requires Keyed(g) && BelowCounter(g) && nodeId in g.nodes
    ensures var r := AddPort(g, nodeId, dir);
      && r.1 !in g.portNodeMap && r.1 >= 1
      && (forall k, q :: k in g.nodes && q in g.nodes[k].ports ==> q.id != r.1)
      && Keyed(r.0) && BelowCounter(r.0)
  {
    var r := AddPort(g, nodeId, dir);
    var n := g.nodes[nodeId];
    forall k, q' | k in r.0.nodes && q' in r.0.nodes[k].ports ensures 1 <= q'.id < r.0.nextId {
      if k == nodeId && q' !in n.ports {
        assert q' in n.ports + [Port(r.1, dir, 0, "", Default())];
      }
    }
  }

  lemma AddPortIndex(g: Graph, nodeId: int, dir: Dir)
    requires Keyed(g) && BelowCounter(g) && PortMapSound(g) && nodeId in g.nodes
    ensures PortMapSound(AddPort(g, nodeId, dir).0)
  {
    var r := AddPort(g, nodeId, dir);
    var n := g.nodes[nodeId];
    var q := Port(r.1, dir, 0, "", Default());
    PortLookupAppend(n, q, r.1);
    forall p | p in r.0.portNodeMap ensures r.0.portNodeMap[p] in r.0.nodes && HasPort(r.0.nodes[r.0.portNodeMap[p]], p) {
      if p != r.1 && r.0.portNodeMap[p] == nodeId {
        PortLookupAppend(n, q, p);
      }
    }
  }

  lemma AddPortResolve(g: Graph, nodeId: int, dir: Dir)
    requires BelowCounter(g) && ConnectionsResolve(g) && nodeId in g.nodes
    ensures ConnectionsResolve(AddPort(g, nodeId, dir).0)
  {
    var r := AddPort(g, nodeId, dir);
    var q := Port(r.1, dir, 0, "", Default());
    forall c | c in r.0.connections ensures Resolves(r.0.nodes, c) {
      PortLookupAppend(g.nodes[nodeId], q, c.port0);
      PortLookupAppend(g.nodes[nodeId], q, c.port1);
    }
  }

  lemma AddPortFanIn(g: Graph, nodeId: int, dir: Dir)
    requires BelowCounter(g) && FanInOne(g) && nodeId in g.nodes
    ensures FanInOne(AddPort(g, nodeId, dir).0)
  {
    var r := AddPort(g, nodeId, dir);
    var q := Port(r.1, dir, 0, "", Default());
    forall p ensures InputEnds(r.0.nodes, r.0.connections, p) <= 1 {
      forall c | c in g.connections && InputEnd(r.0.nodes, c, p) ensures InputEnd(g.nodes, c, p) {
        PortLookupAppend(g.nodes[nodeId], q, p);
      }
      InputEndsSameNodes(g.nodes, r.0.nodes, g.connections, p);
    }
  }

  /** removePort keeps every invariant. */
  lemma RemovePortValid(g: Graph, nodeId: int, id: int)
    requires Valid(g) && nodeId in g.nodes && HasPort(g.nodes[nodeId], id)
    ensures Valid(RemovePort(g, nodeId, id))
  {
    var r := RemovePort(g, nodeId, id);
    var n := g.nodes[nodeId];
    ErasedPortsFrom(n.ports, PortIndex(n.ports, id).value);
    forall p | p in r.portNodeMap ensures r.portNodeMap[p] in r.nodes && HasPort(r.nodes[r.portNodeMap[p]], p) {
      NodeLookupErase(n, id, p);
    }
    forall c | c in r.connections ensures Resolves(r.nodes, c) {
      NodeLookupErase(n, id, c.port0);
      NodeLookupErase(n, id, c.port1);
    }
    var keep := (c: Connection) => c.port0 != id && c.port1 != id;
    forall p ensures InputEnds(r.nodes, r.connections, p) <= 1 {
      forall c | c in g.connections && keep(c) && InputEnd(r.nodes, c, p) ensures InputEnd(g.nodes, c, p) {
        NodeLookupErase(n, id, p);
      }
      InputEndsFilter(g.nodes, r.nodes, g.connections, keep, p);
    }
  }

  // ---------------------------------------------------------------------------
  // Connection operations

  /** On a valid graph every lookup addConnection's scan performs is defined. */
  lemma {:induction false} ScanDefinedWhenResolved(g: Graph, cs: seq<Connection>, fromPort: int, toPort: int)
    requires forall c :: c in cs ==> Resolves(g.nodes, c)
    ensures ScanDefined(g, cs, fromPort, toPort)
    decreases |cs|
  {
    if cs != [] {
      assert cs[0] in cs;
      assert forall c :: c in cs[1..] ==> c in cs;
      ScanDefinedWhenResolved(g, cs[1..], fromPort, toPort);
    }
  }

  /** A connection the scan flags ends at one of the requested ports, on an
      Input: a connection with no Input end there is never flagged. */
  lemma ScanHitIsInputEnd(g: Graph, c: Connection, fromPort: int, toPort: int)
    requires ScanLookupOk(g, c, fromPort, toPort)
    requires !InputEnd(g.nodes, c, fromPort) && !InputEnd(g.nodes, c, toPort)
    ensures !ScanHit(g, c, fromPort, toPort)
  {
  }

  /** The return value of addConnection is 0 exactly when it refuses: the
      counter never issues 0. */
  lemma AddConnectionResult(g: Graph, fromNode: int, fromPort: int, toNode: int, toPort: int)
    requires Valid(g) && AddConnectionDefined(g, fromNode, fromPort, toNode, toPort)
    ensures var r := AddConnection(g, fromNode, fromPort, toNode, toPort);
      (r.1 == 0 <==> r.0 == g) && (r.1 != 0 <==> |r.0.connections| == |g.connections| + 1)
  {
  }

  /** addConnection as written keeps every invariant but the fan-in rule. */
  lemma AddConnectionKeepsOthers(g: Graph, fromNode: int, fromPort: int, toNode: int, toPort: int)
    requires Valid(g) && AddConnectionDefined(g, fromNode, fromPort, toNode, toPort)
    ensures var r := AddConnection(g, fromNode, fromPort, toNode, toPort).0;
      Keyed(r) && BelowCounter(r) && PortMapSound(r) && ConnectionsResolve(r)
  {
    var c := Connection(g.nextId, fromNode, toNode, fromPort, toPort);
    AddConnectionShape(g, fromNode, fromPort, toNode, toPort);
    if AddConnection(g, fromNode, fromPort, toNode, toPort).0 != g {
      AppendConnectionKeeps(g, c);
    }
  }

  /** addConnection either leaves the graph alone or appends exactly one
      connection. */
  lemma AddConnectionShape(g: Graph, fromNode: int, fromPort: int, toNode: int, toPort: int)
    requires AddConnectionDefined(g, fromNode, fromPort, toNode, toPort)
    ensures var r := AddConnection(g, fromNode, fromPort, toNode, toPort).0;
      r == g || r == Append(g, Connection(g.nextId, fromNode, toNode, fromPort, toPort))
  {
  }

  /** The graph after appending `c` and advancing the counter. */
  function Append(g: Graph, c: Connection): (r: Graph)
    ensures r.connections == g.connections + [c] && r.nextId == g.nextId + 1
    ensures r.nodes == g.nodes && r.portNodeMap == g.portNodeMap
  {
    g.(connections := g.connections + [c], nextId := g.nextId + 1)
  }

  /** addConnection with the fan-in scan it evidently intends: a connection
      is refused when either requested port already carries a connection on
      an Input end. */
  function AddConnectionChecked(g: Graph, fromNode: int, fromPort: int, toNode: int, toPort: int): (r: (Graph, int))
    requires fromNode in g.nodes && HasPort(g.nodes[fromNode], fromPort)
    requires toNode in g.nodes && HasPort(g.nodes[toNode], toPort)
    ensures var accept := PortOf(g.nodes[fromNode], fromPort).dir != PortOf(g.nodes[toNode], toPort).dir
                          && (forall c :: c in g.connections ==> !InputEnd(g.nodes, c, fromPort) && !InputEnd(g.nodes, c, toPort));
      && (!accept ==> r == (g, 0))
      && (accept ==> r == (g.(connections := g.connections + [Connection(g.nextId, fromNode, toNode, fromPort, toPort)],
                              nextId := g.nextId + 1), g.nextId))
  {
    InputEndsZero(g.nodes, g.connections, fromPort);
    InputEndsZero(g.nodes, g.connections, toPort);
    if PortOf(g.nodes[fromNode], fromPort).dir == PortOf(g.nodes[toNode], toPort).dir then (g, 0)
    else if InputEnds(g.nodes, g.connections, fromPort) > 0 || InputEnds(g.nodes, g.connections, toPort) > 0 then (g, 0)
    else
      var id := g.nextId;
      (g.(connections := g.connections + [Connection(id, fromNode, toNode, fromPort, toPort)], nextId := id + 1), id)
  }

  /** The corrected addConnection keeps every invariant, the fan-in rule
      included. */
  lemma AddConnectionCheckedValid(g: Graph, fromNode: int, fromPort: int, toNode: int, toPort: int)
    requires Valid(g)
    requires fromNode in g.nodes && HasPort(g.nodes[fromNode], fromPort)
    requires toNode in g.nodes && HasPort(g.nodes[toNode], toPort)
    ensures Valid(AddConnectionChecked(g, fromNode, fromPort, toNode, toPort).0)
  {
    var c := Connection(g.nextId, fromNode, toNode, fromPort, toPort);
    CheckedFanIn(g, fromNode, fromPort, toNode, toPort);
    if AddConnectionChecked(g, fromNode, fromPort, toNode, toPort).0 != g {
      assert AddConnectionChecked(g, fromNode, fromPort, toNode, toPort).0 == Append(g, c);
      AppendConnectionKeeps(g, c);
    }
  }

  /** Appending a connection between existing ports under the next
      identifier keeps every invariant but the fan-in rule. */
  lemma AppendConnectionKeeps(g: Graph, c: Connection)
    requires Keyed(g) && BelowCounter(g) && PortMapSound(g) && ConnectionsResolve(g)
    requires Resolves(g.nodes, c) && c.id == g.nextId
    ensures var r := Append(g, c);
      Keyed(r) && BelowCounter(r) && PortMapSound(r) && ConnectionsResolve(r)
  {
    var r := Append(g, c);
    ResolvedBelow(g, c);
    forall x | x in r.connections ensures ConnectionBelow(x, r.nextId) && Resolves(r.nodes, x) {
      if x != c {
        assert x in g.connections;
      }
    }
  }

  /** The endpoints of a connection between existing ports were issued by
      the counter. */
  lemma ResolvedBelow(g: Graph, c: Connection)
    requires BelowCounter(g) && Resolves(g.nodes, c)
    ensures c.node0 < g.nextId && c.node1 < g.nextId && c.port0 < g.nextId && c.port1 < g.nextId
  {
    assert PortOf(g.nodes[c.node0], c.port0) in g.nodes[c.node0].ports;
    assert PortOf(g.nodes[c.node1], c.port1) in g.nodes[c.node1].ports;
  }

  lemma CheckedFanIn(g: Graph, fromNode: int, fromPort: int, toNode: int, toPort: int)
    requires FanInOne(g)
    requires fromNode in g.nodes && HasPort(g.nodes[fromNode], fromPort)
    requires toNode in g.nodes && HasPort(g.nodes[toNode], toPort)
    ensures FanInOne(AddConnectionChecked(g, fromNode, fromPort, toNode, toPort).0)
  {
    var r := AddConnectionChecked(g, fromNode, fromPort, toNode, toPort);
    if r.0 != g {
      var c := Connection(g.nextId, fromNode, toNode, fromPort, toPort);
      forall p ensures InputEnds(r.0.nodes, r.0.connections, p) <= 1 {
        InputEndsAppend(g.nodes, g.connections, [c], p);
        assert [c][1..] == [];
        if InputEnd(g.nodes, c, p) {
          InputEndsZero(g.nodes, g.connections, p);
        }
      }
    }
  }

  /** Wherever the corrected addConnection accepts, the one as written is
      defined and accepts with the same result: the correction only refuses
      more. */
  lemma CheckedRefinesAsWritten(g: Graph, fromNode: int, fromPort: int, toNode: int, toPort: int)
    requires Valid(g)
    requires fromNode in g.nodes && HasPort(g.nodes[fromNode], fromPort)
    requires toNode in g.nodes && HasPort(g.nodes[toNode], toPort)
    ensures AddConnectionDefined(g, fromNode, fromPort, toNode, toPort)
    ensures AddConnectionChecked(g, fromNode, fromPort, toNode, toPort).1 != 0 ==>
      AddConnection(g, fromNode, fromPort, toNode, toPort) == AddConnectionChecked(g, fromNode, fromPort, toNode, toPort)
  {
    ScanDefinedWhenResolved(g, g.connections, fromPort, toPort);
    if AddConnectionChecked(g, fromNode, fromPort, toNode, toPort).1 != 0 {
      forall i | 0 <= i < |g.connections| && ScanLookupOk(g, g.connections[i], fromPort, toPort)
        ensures !ScanHit(g, g.connections[i], fromPort, toPort)
      {
        assert g.connections[i] in g.connections;
        ScanHitIsInputEnd(g, g.connections[i], fromPort, toPort);
      }
    }
  }

  /** removeConnection keeps every invariant. */
  lemma RemoveConnectionValid(g: Graph, id: int)
    requires Valid(g)
    ensures Valid(RemoveConnection(g, id))
  {
    var cs := g.connections;
    match ConnectionIndex(cs, id) {
      case None =>
      case Some(i) =>
        var r := RemoveConnection(g, id);
        assert r.connections == cs[..i] + cs[i + 1..];
        DropConnectionKeeps(g, i);
        DropConnectionFanIn(g, i);
    }
  }

  lemma DropConnectionKeeps(g: Graph, i: nat)
    requires Keyed(g) && BelowCounter(g) && PortMapSound(g) && ConnectionsResolve(g) && i < |g.connections|
    ensures var r := g.(connections := g.connections[..i] + g.connections[i + 1..]);
      Keyed(r) && BelowCounter(r) && PortMapSound(r) && ConnectionsResolve(r)
  {
    var cs := g.connections;
    forall c | c in cs[..i] + cs[i + 1..] ensures c in cs {
      assert c in cs[..i] || c in cs[i + 1..];
    }
  }

  lemma DropConnectionFanIn(g: Graph, i: nat)
    requires FanInOne(g) && i < |g.connections|
    ensures FanInOne(g.(connections := g.connections[..i] + g.connections[i + 1..]))
  {
    var cs := g.connections;
    var rest := cs[..i] + cs[i + 1..];
    assert cs == cs[..i] + [cs[i]] + cs[i + 1..];
    forall p ensures InputEnds(g.nodes, rest, p) <= 1 {
      InputEndsAppend(g.nodes, cs[..i], cs[i + 1..], p);
      InputEndsAppend(g.nodes, cs[..i] + [cs[i]], cs[i + 1..], p);
      InputEndsAppend(g.nodes, cs[..i], [cs[i]], p);
    }
  }

  // ---------------------------------------------------------------------------
  // Node removal

  /** removeNode keeps every invariant but the soundness of the port index. */
  lemma RemoveNodeKeepsOthers(g: Graph, id: int)
    requires Valid(g)
    ensures var r := RemoveNode(g, id);
      Keyed(r) && BelowCounter(r) && ConnectionsResolve(r) && FanInOne(r)
  {
    RemoveNodeCounter(g, id);
    RemoveNodeFanIn(g, id);
  }

  lemma RemoveNodeCounter(g: Graph, id: int)
    requires Keyed(g) && BelowCounter(g) && ConnectionsResolve(g)
    ensures var r := RemoveNode(g, id);
      Keyed(r) && BelowCounter(r) && ConnectionsResolve(r)
  {
    var r := RemoveNode(g, id);
    forall k, q | k in r.nodes && q in r.nodes[k].ports ensures 1 <= q.id < r.nextId {
      assert r.nodes[k] == g.nodes[k];
    }
    forall x | x in r.connections ensures ConnectionBelow(x, r.nextId) && Resolves(r.nodes, x) {
      assert x in g.connections;
    }
  }

  lemma RemoveNodeFanIn(g: Graph, id: int)
    requires FanInOne(g)
    ensures FanInOne(RemoveNode(g, id))
  {
    var r := RemoveNode(g, id);
    var keep := (c: Connection) => c.node0 != id && c.node1 != id;
    forall p ensures InputEnds(r.nodes, r.connections, p) <= 1 {
      InputEndsFilter(g.nodes, r.nodes, g.connections, keep, p);
    }
  }

  /** removeNode with the cleanup it evidently intends: the port-index
      entries of the removed node's ports go too, as removePort does for a
      single port. */
  function RemoveNodeClean(g: Graph, id: int): (r: Graph)
    ensures r.nodes.Keys == g.nodes.Keys - {id}
    ensures forall k :: k in r.nodes ==> r.nodes[k] == g.nodes[k]
    ensures forall c :: c in r.connections <==> c in g.connections && c.node0 != id && c.node1 != id
    ensures forall p :: p in r.portNodeMap <==> p in g.portNodeMap && g.portNodeMap[p] != id
    ensures forall p :: p in r.portNodeMap ==> r.portNodeMap[p] == g.portNodeMap[p]
    ensures r.nextId == g.nextId
  {
    var r := RemoveNode(g, id);
    r.(portNodeMap := map p | p in g.portNodeMap && g.portNodeMap[p] != id :: g.portNodeMap[p])
  }

  /** The corrected removeNode keeps every invariant. */
  lemma RemoveNodeCleanValid(g: Graph, id: int)
    requires Valid(g)
    ensures Valid(RemoveNodeClean(g, id))
  {
    RemoveNodeKeepsOthers(g, id);
    var r, rc := RemoveNode(g, id), RemoveNodeClean(g, id);
    assert rc == r.(portNodeMap := rc.portNodeMap);
    forall p | p in rc.portNodeMap ensures rc.portNodeMap[p] in rc.nodes && HasPort(rc.nodes[rc.portNodeMap[p]], p) {
      assert p in g.portNodeMap;
    }
  }

  // ---------------------------------------------------------------------------
  // The two discrepancies, on concrete graphs

  /** One node with one Input port, built by the public operations. */
  function OnePortGraph(): Graph
  {
    AddPort(NewNode(EmptyGraph()).0, 1, Input).0
  }

  /** removeNode (graph.h:74-79) leaves the entry of the removed node's port
      in the port index, pointing at a node that no longer exists, so a later
      nodeForPort on it throws. */
  lemma RemoveNodeLeavesDanglingEntry()
    ensures Valid(OnePortGraph())
    ensures var r := RemoveNode(OnePortGraph(), 1);
      2 in r.portNodeMap && r.portNodeMap[2] == 1 && 1 !in r.nodes && !PortMapSound(r)
    ensures PortMapSound(RemoveNodeClean(OnePortGraph(), 1))
  {
    EmptyValid();
    NewNodeValid(EmptyGraph());
    AddPortValid(NewNode(EmptyGraph()).0, 1, Input);
    RemoveNodeCleanValid(OnePortGraph(), 1);
  }

  /** Node 1 with Output port 2 connected to node 3 with Input port 4. */
  function ConnectedPair(): Graph
  {
    Graph(map[1 := Node(1, InvalidType, 0, None, [Port(2, Output, 0, "", Default())], ""),
              3 := Node(3, InvalidType, 1, None, [Port(4, Input, 0, "", Default())], "")],
          map[2 := 1, 4 := 3],
          [Connection(5, 1, 3, 2, 4)],
          6)
  }

  /** The two-node graph is a valid graph in which Input 4 already carries
      its one connection. */
  lemma ConnectedPairValid()
    ensures Valid(ConnectedPair())
    ensures InputEnd(ConnectedPair().nodes, Connection(5, 1, 3, 2, 4), 4)
    ensures !ScanHit(ConnectedPair(), Connection(5, 1, 3, 2, 4), 2, 4)
  {
    var g := ConnectedPair();
    var c := Connection(5, 1, 3, 2, 4);
    var n1, n3 := g.nodes[1], g.nodes[3];
    assert PortIndex(n1.ports, 2) == Some(0);
    assert PortIndex(n3.ports, 4) == Some(0);
    assert PortIndex(n1.ports, 4) == None;
    assert PortIndex(n3.ports, 2) == None;
    assert InputEnd(g.nodes, c, 4);
    assert !InputEnd(g.nodes, c, 2);
    forall p ensures InputEnds(g.nodes, g.connections, p) <= 1 {
      assert g.connections[1..] == [];
    }
  }

  /** addConnection (graph.h:108-117) inspects port1 only when port0 matches
      neither requested port, so a second connection from Output 2 to the
      already connected Input 4 passes the scan: port0 of the existing
      connection matches, is not an Input, and its Input end is never looked
      at. The corrected scan refuses it. */
  lemma AddConnectionAcceptsSecondInput()
    ensures Valid(ConnectedPair())
    ensures AddConnectionDefined(ConnectedPair(), 1, 2, 3, 4)
    ensures var r := AddConnection(ConnectedPair(), 1, 2, 3, 4);
      r.1 == 6 && InputEnds(r.0.nodes, r.0.connections, 4) == 2 && !FanInOne(r.0)
    ensures AddConnectionChecked(ConnectedPair(), 1, 2, 3, 4) == (ConnectedPair(), 0)
  {
    var g := ConnectedPair();
    var c := Connection(5, 1, 3, 2, 4);
    ConnectedPairValid();
    ScanDefinedWhenResolved(g, g.connections, 2, 4);
    var r := AddConnection(g, 1, 2, 3, 4);
    var c' := Connection(6, 1, 3, 2, 4);
    assert r.0.connections == [c, c'] && r.0.nodes == g.nodes;
    assert InputEnd(g.nodes, c', 4);
    assert [c, c'][1..] == [c'] && [c'][1..] == [];
    assert InputEnds(g.nodes, [c'], 4) == 1;
    assert InputEnds(g.nodes, [c, c'], 4) == 2;
  }
}
