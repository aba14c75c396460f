/** The node constructors keep every invariant of the graph store: the new
    node is stored under a fresh identifier, its ports carry the identifiers
    issued right after it, and the port index records each of them against
    the new node. No connection touches the new node, so the fan-in counts of
    the existing connections do not change. */
module ConstructorInvariants {
  import opened PortValues
  import opened Graphs
  import opened GraphInvariants
  import opened Constructors
  import opened EvalOrder

  /** A port of the realized schema carries an identifier of the issued
      range, and every identifier of the range names one of its ports. */
  lemma RealizeIds(specs: seq<PortSpec>, first: int)
    ensures forall q :: q in Realize(specs, first) ==> first <= q.id < first + |specs|
    ensures forall p :: first <= p < first + |specs| ==> PortIndex(Realize(specs, first), p).Some?
  {
    var ps := Realize(specs, first);
    forall q | q in ps ensures first <= q.id < first + |specs| {
      var i :| 0 <= i < |ps| && ps[i] == q;
    }
    forall p | first <= p < first + |specs| ensures PortIndex(ps, p).Some? {
      assert ps[p - first].id == p;
    }
  }

  lemma BuildCounter(g: Graph, ty: NodeType, inputs: nat, kind: NodeKind, name: string, specs: seq<PortSpec>)
    requires Keyed(g) && BelowCounter(g)
    ensures var r := Build(g, ty, inputs, kind, name, specs);
      r.1 !in g.nodes && Keyed(r.0) && BelowCounter(r.0)
  {
    var (r, id) := Build(g, ty, inputs, kind, name, specs);
    RealizeIds(specs, id + 1);
    forall k, q | k in r.nodes && q in r.nodes[k].ports ensures 1 <= q.id < r.nextId {
      if k != id {
        assert r.nodes[k] == g.nodes[k];
      }
    }
    forall c | c in r.connections ensures ConnectionBelow(c, r.nextId) {
      assert c in g.connections;
    }
  }

  lemma BuildIndex(g: Graph, ty: NodeType, inputs: nat, kind: NodeKind, name: string, specs: seq<PortSpec>)
    requires BelowCounter(g) && PortMapSound(g)
    ensures PortMapSound(Build(g, ty, inputs, kind, name, specs).0)
  {
    var (r, id) := Build(g, ty, inputs, kind, name, specs);
    RealizeIds(specs, id + 1);
    forall p | p in r.portNodeMap ensures r.portNodeMap[p] in r.nodes && HasPort(r.nodes[r.portNodeMap[p]], p) {
      if !(id + 1 <= p < id + 1 + |specs|) {
        var v := g.portNodeMap[p];
        assert v in g.nodes && v != id;
        assert r.nodes[v] == g.nodes[v];
      }
    }
  }

  lemma BuildResolve(g: Graph, ty: NodeType, inputs: nat, kind: NodeKind, name: string, specs: seq<PortSpec>)
    requires BelowCounter(g) && ConnectionsResolve(g)
    ensures ConnectionsResolve(Build(g, ty, inputs, kind, name, specs).0)
  {
    var (r, id) := Build(g, ty, inputs, kind, name, specs);
    forall c | c in r.connections ensures Resolves(r.nodes, c) {
      assert c in g.connections && c.node0 != id && c.node1 != id;
      assert r.nodes[c.node0] == g.nodes[c.node0] && r.nodes[c.node1] == g.nodes[c.node1];
    }
  }

  lemma BuildFanIn(g: Graph, ty: NodeType, inputs: nat, kind: NodeKind, name: string, specs: seq<PortSpec>)
    requires BelowCounter(g) && FanInOne(g)
    ensures FanInOne(Build(g, ty, inputs, kind, name, specs).0)
  {
    var (r, id) := Build(g, ty, inputs, kind, name, specs);
    forall p ensures InputEnds(r.nodes, r.connections, p) <= 1 {
      forall c | c in g.connections && InputEnd(r.nodes, c, p) ensures InputEnd(g.nodes, c, p) {
        assert ConnectionBelow(c, g.nextId);
      }
      InputEndsSameNodes(g.nodes, r.nodes, g.connections, p);
    }
  }

  /** Creating a node with its schema's ports keeps every invariant. */
  lemma BuildValid(g: Graph, ty: NodeType, inputs: nat, kind: NodeKind, name: string, specs: seq<PortSpec>)
    requires Valid(g)
    ensures Build(g, ty, inputs, kind, name, specs).1 !in g.nodes
    ensures Valid(Build(g, ty, inputs, kind, name, specs).0)
  {
    BuildCounter(g, ty, inputs, kind, name, specs);
    BuildIndex(g, ty, inputs, kind, name, specs);
    BuildResolve(g, ty, inputs, kind, name, specs);
    BuildFanIn(g, ty, inputs, kind, name, specs);
  }

  /** Each constant constructor keeps every invariant of the graph and
      returns the identifier of a node that was not there before. */
  lemma ConstantConstructorsKeepValid(g: Graph)
    requires Valid(g)
    ensures ConstructFloat(g).1 !in g.nodes && Valid(ConstructFloat(g).0)
    ensures ConstructInt(g).1 !in g.nodes && Valid(ConstructInt(g).0)
    ensures ConstructUInt(g).1 !in g.nodes && Valid(ConstructUInt(g).0)
  {
    BuildValid(g, FloatType, 0, Constant, "Float", ConstantSchema(Float(0.0)));
    BuildValid(g, IntType, 0, Constant, "Int", ConstantSchema(Int(0)));
    BuildValid(g, UIntType, 0, Constant, "UInt", ConstantSchema(UInt(0)));
  }

  /** Each binary constructor keeps every invariant of the graph and returns
      the identifier of a node that was not there before. */
  lemma BinaryConstructorsKeepValid(g: Graph)
    requires Valid(g)
    ensures ConstructPlus(g).1 !in g.nodes && Valid(ConstructPlus(g).0)
    ensures ConstructMinus(g).1 !in g.nodes && Valid(ConstructMinus(g).0)
  {
    BuildValid(g, PlusType, 2, Plus, "Plus", BinarySchema());
    BuildValid(g, MinusType, 2, Minus, "Minus", BinarySchema());
  }

  /** Every node of `g` has the shape one of the constructors gives it. */
  predicate AllSchemaOk(g: Graph)
  {
    forall k :: k in g.nodes ==> SchemaOk(g.nodes[k])
  }

  /** The constant constructors add only a node of a constructor's shape, so
      a graph whose nodes all came from constructors stays that way. */
  lemma ConstantConstructorsKeepSchemas(g: Graph)
    requires AllSchemaOk(g)
    ensures AllSchemaOk(ConstructFloat(g).0) && AllSchemaOk(ConstructInt(g).0) && AllSchemaOk(ConstructUInt(g).0)
  {
    var f, i, u := ConstructFloat(g), ConstructInt(g), ConstructUInt(g);
    AddedSchemaOk(g, f.0, f.1);
    AddedSchemaOk(g, i.0, i.1);
    AddedSchemaOk(g, u.0, u.1);
  }

  /** The same for the binary constructors. */
  lemma BinaryConstructorsKeepSchemas(g: Graph)
    requires AllSchemaOk(g)
    ensures AllSchemaOk(ConstructPlus(g).0) && AllSchemaOk(ConstructMinus(g).0)
  {
    var p, m := ConstructPlus(g), ConstructMinus(g);
    AddedSchemaOk(g, p.0, p.1);
    AddedSchemaOk(g, m.0, m.1);
  }

  lemma AddedSchemaOk(g: Graph, r: Graph, id: int)
    requires AllSchemaOk(g) && r.nodes.Keys == g.nodes.Keys + {id} && SchemaOk(r.nodes[id])
    requires forall k :: k in g.nodes && k != id ==> r.nodes[k] == g.nodes[k]
    ensures AllSchemaOk(r)
  {
    forall k | k in r.nodes ensures SchemaOk(r.nodes[k]) {
      if k != id {
        assert r.nodes[k] == g.nodes[k];
      }
    }
  }

  /** Connecting and disconnecting ports leaves the nodes alone, and
      removing a node keeps the others as they were. */
  lemma EditsKeepSchemas(g: Graph, fromNode: int, fromPort: int, toNode: int, toPort: int, id: int)
    requires AllSchemaOk(g)
    requires AddConnectionDefined(g, fromNode, fromPort, toNode, toPort)
    ensures AllSchemaOk(AddConnection(g, fromNode, fromPort, toNode, toPort).0)
    ensures AllSchemaOk(RemoveConnection(g, id)) && AllSchemaOk(RemoveNode(g, id))
  {
  }

  /** A valid graph whose nodes all have a constructor's shape meets every
      lookup `update` performs: each node is evaluable, and the local end
      of every connection is a port of its node. */
  lemma ConstructedWf(g: Graph)
    requires Valid(g) && AllSchemaOk(g)
    ensures Wf(g)
  {
    forall k, c | k in g.nodes && c in g.connections ensures LocalLookupOk(g.nodes[k], c) {
      assert Resolves(g.nodes, c);
      assert g.nodes[k].id == k;
    }
  }
}
