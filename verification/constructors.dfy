/** The node constructors of nodeconstructors.cpp: each creates one node
    with `newNode`, fixes its type, operand count and evaluation function,
    labels it, and adds its ports with `addPort` in schema order. */
module Constructors {
  import opened Wrappers
  import opened PortValues
  import opened Graphs
  import opened EvalFuncs
  import opened EvalOrder

  // ---------------------------------------------------------------------------
  // Labels ("Float [12]")

  function DigitChar(d: nat): char
    requires d < 10
  {
    "0123456789"[d]
  }

  function DigitValue(c: char): nat
  {
    if '0' <= c <= '9' then (c as int - '0' as int) as nat else 0
  }

  /** The decimal digits of `n`, most significant first, without leading zeros. */
  function NatDigits(n: nat): (s: string)
    ensures |s| > 0 && forall i :: 0 <= i < |s| ==> '0' <= s[i] <= '9'
    decreases n
  {
    if n < 10 then [DigitChar(n)] else NatDigits(n / 10) + [DigitChar(n % 10)]
  }

  /** `sprintf("%d", id)`. */
  function Decimal(i: int): string
  {
    if i < 0 then "-" + NatDigits(-i) else NatDigits(i)
  }

  /** The node label `"<name> [<id>]"`. */
  function Label(name: string, id: int): string
  {
    name + " [" + Decimal(id) + "]"
  }

  // ---------------------------------------------------------------------------
  // Port schemas

  /** What a constructor sets on a port after `addPort`: its order, text and
      initial value. */
  datatype PortSpec = PortSpec(dir: Dir, order: int, text: string, data: PortData)

  /** A Static "Value" port holding `zero`, then the Output "Result" port. */
  function ConstantSchema(zero: Data): seq<PortSpec>
  {
    [PortSpec(Static, 0, "Value", PortData(zero, "")), PortSpec(Output, 1, "Result", Default())]
  }

  /** Input ports "LHS" and "RHS", then the Output "Result" port. */
  function BinarySchema(): seq<PortSpec>
  {
    [PortSpec(Input, 0, "LHS", Default()), PortSpec(Input, 1, "RHS", Default()), PortSpec(Output, 2, "Result", Default())]
  }

  /** The ports `specs` describe, numbered consecutively from `first`. */
  function Realize(specs: seq<PortSpec>, first: int): seq<Port>
  {
    seq(|specs|, i requires 0 <= i < |specs| =>
      Port(first + i, specs[i].dir, specs[i].order, specs[i].text, specs[i].data))
  }

  /** `addPort` followed by the constructor's assignments to the new port. */
  function AddConfiguredPort(g: Graph, nodeId: int, spec: PortSpec): (r: Graph)
    requires nodeId in g.nodes
    ensures r.nextId == g.nextId + 1 && r.nodes.Keys == g.nodes.Keys && r.connections == g.connections
    ensures var n := g.nodes[nodeId];
      r.nodes[nodeId] == n.(ports := n.ports + [Port(g.nextId, spec.dir, spec.order, spec.text, spec.data)])
    ensures forall k :: k in g.nodes && k != nodeId ==> r.nodes[k] == g.nodes[k]
    ensures r.portNodeMap == g.portNodeMap[g.nextId := g.nodes[nodeId].id]
  {
    var (g1, _) := AddPort(g, nodeId, spec.dir);
    var n := g1.nodes[nodeId];
    var last := |n.ports| - 1;
    var p := n.ports[last].(order := spec.order, text := spec.text, data := spec.data);
    g1.(nodes := g1.nodes[nodeId := n.(ports := n.ports[last := p])])
  }

  /** Adds the ports of `specs` to node `nodeId`, in order. */
  function AddPorts(g: Graph, nodeId: int, specs: seq<PortSpec>): (r: Graph)
    requires nodeId in g.nodes
    ensures r.nextId == g.nextId + |specs| && r.nodes.Keys == g.nodes.Keys && r.connections == g.connections
    ensures var n := g.nodes[nodeId]; r.nodes[nodeId] == n.(ports := n.ports + Realize(specs, g.nextId))
    ensures forall k :: k in g.nodes && k != nodeId ==> r.nodes[k] == g.nodes[k]
    ensures MapsRange(g.portNodeMap, r.portNodeMap, g.nextId, |specs|, g.nodes[nodeId].id)
    decreases |specs|
  {
    if specs == [] then
      assert Realize(specs, g.nextId) == [];
      MapsRangeEmpty(g.portNodeMap, g.nextId, g.nodes[nodeId].id);
      g
    else
      var g1 := AddConfiguredPort(g, nodeId, specs[0]);
      var r := AddPorts(g1, nodeId, specs[1..]);
      RealizeCons(specs, g.nextId);
      MapsRangeCons(g.portNodeMap, r.portNodeMap, g.nextId, |specs| - 1, g.nodes[nodeId].id);
      r
  }

  /** `m1` is `m0` with the `count` keys from `first` on added, all mapped to
      `v`. */
  ghost predicate MapsRange(m0: map<int, int>, m1: map<int, int>, first: int, count: nat, v: int)
  {
    && (forall p :: p in m1 <==> p in m0 || first <= p < first + count)
    && (forall p :: first <= p < first + count ==> m1[p] == v)
    && (forall p :: p in m0 && !(first <= p < first + count) ==> m1[p] == m0[p])
  }

  lemma MapsRangeEmpty(m: map<int, int>, first: int, v: int)
    ensures MapsRange(m, m, first, 0, v)
  {
  }

  lemma MapsRangeCons(m0: map<int, int>, m2: map<int, int>, first: int, count: nat, v: int)
    requires MapsRange(m0[first := v], m2, first + 1, count, v)
    ensures MapsRange(m0, m2, first, count + 1, v)
  {
  }

  lemma RealizeCons(specs: seq<PortSpec>, first: int)
    requires specs != []
    ensures Realize(specs, first) ==
      [Port(first, specs[0].dir, specs[0].order, specs[0].text, specs[0].data)] + Realize(specs[1..], first + 1)
  {
  }

  /** The common shape of every constructor. */
  function Build(g: Graph, ty: NodeType, inputs: nat, kind: NodeKind, name: string, specs: seq<PortSpec>): (r: (Graph, int))
    ensures r.1 == g.nextId && r.0.nextId == g.nextId + 1 + |specs|
    ensures r.0.nodes.Keys == g.nodes.Keys + {r.1}
    ensures forall k :: k in g.nodes && k != r.1 ==> r.0.nodes[k] == g.nodes[k]
    ensures r.0.connections == g.connections
    ensures r.0.nodes[r.1] == Node(r.1, ty, inputs, Some(kind), Realize(specs, r.1 + 1), Label(name, r.1))
    ensures MapsRange(g.portNodeMap, r.0.portNodeMap, r.1 + 1, |specs|, r.1)
  {
    var (g1, id) := NewNode(g);
    var n := g1.nodes[id].(nodeType := ty, inputPortCount := inputs, evalFunc := Some(kind), text := Label(name, id));
    var g2 := g1.(nodes := g1.nodes[id := n]);
    var r := AddPorts(g2, id, specs);
    assert [] + Realize(specs, id + 1) == Realize(specs, id + 1);
    (r, id)
  }

  lemma RealizeConstant(zero: Data, first: int)
    ensures Realize(ConstantSchema(zero), first) ==
      [Port(first, Static, 0, "Value", PortData(zero, "")), Port(first + 1, Output, 1, "Result", Default())]
  {
  }

  lemma RealizeBinary(first: int)
    ensures Realize(BinarySchema(), first) ==
      [Port(first, Input, 0, "LHS", Default()), Port(first + 1, Input, 1, "RHS", Default()),
       Port(first + 2, Output, 2, "Result", Default())]
  {
  }

  // ---------------------------------------------------------------------------
  // What the schemas guarantee the evaluator

  function CountDir(ports: seq<Port>, dir: Dir): nat
  {
    if ports == [] then 0
    else (if ports[0].dir == dir then 1 else 0) + CountDir(ports[1..], dir)
  }

  lemma CountDirPair(a: Port, b: Port, dir: Dir)
    ensures CountDir([a, b], dir) == (if a.dir == dir then 1 else 0) + (if b.dir == dir then 1 else 0)
  {
    assert [b][1..] == [];
    assert CountDir([b], dir) == (if b.dir == dir then 1 else 0);
    assert [a, b][1..] == [b];
  }

  /** No two Input ports of `n` share an order. */
  predicate DistinctInputOrders(n: Node)
  {
    forall i, j :: 0 <= i < j < |n.ports| && n.ports[i].dir == Input && n.ports[j].dir == Input ==>
      n.ports[i].order != n.ports[j].order
  }

  /** What the evaluator relies on: an evaluation function popping exactly
      as many operands as there are Input ports, one Output port, a Static
      port for constants, and distinct Input orders. */
  predicate SchemaOk(n: Node)
  {
    && Evaluable(n)
    && CountDir(n.ports, Input) == n.inputPortCount
    && CountDir(n.ports, Output) == 1
    && DistinctInputOrders(n)
  }

  /** The node a constant constructor builds meets the schema. */
  lemma ConstantNodeOk(id: int, ty: NodeType, zero: Data, text: string)
    ensures SchemaOk(Node(id, ty, 0, Some(Constant),
      [Port(id + 1, Static, 0, "Value", PortData(zero, "")), Port(id + 2, Output, 1, "Result", Default())], text))
  {
    var ps := [Port(id + 1, Static, 0, "Value", PortData(zero, "")), Port(id + 2, Output, 1, "Result", Default())];
    CountDirPair(ps[0], ps[1], Input);
    CountDirPair(ps[0], ps[1], Output);
    assert DirIndexFrom(ps, Output, 1) == Some(1);
    assert DirIndexFrom(ps, Static, 0) == Some(0);
  }

  /** The node a binary constructor builds meets the schema. */
  lemma BinaryNodeOk(id: int, ty: NodeType, kind: NodeKind, text: string)
    requires kind == Plus || kind == Minus
    ensures SchemaOk(Node(id, ty, 2, Some(kind),
      [Port(id + 1, Input, 0, "LHS", Default()), Port(id + 2, Input, 1, "RHS", Default()),
       Port(id + 3, Output, 2, "Result", Default())], text))
  {
    var ps := [Port(id + 1, Input, 0, "LHS", Default()), Port(id + 2, Input, 1, "RHS", Default()),
               Port(id + 3, Output, 2, "Result", Default())];
    assert ps[1..] == [ps[1], ps[2]];
    CountDirPair(ps[1], ps[2], Input);
    CountDirPair(ps[1], ps[2], Output);
    assert DirIndexFrom(ps, Output, 2) == Some(2);
    assert DirIndexFrom(ps, Output, 1) == Some(2);
  }

  // ---------------------------------------------------------------------------
  // The five constructors

  /** The node a constant constructor builds: a Static "Value" port holding
      `zero`, then the Output "Result" port. */
  function ConstantNode(id: int, ty: NodeType, zero: Data, name: string): Node
  {
    Node(id, ty, 0, Some(Constant),
      [Port(id + 1, Static, 0, "Value", PortData(zero, "")), Port(id + 2, Output, 1, "Result", Default())],
      Label(name, id))
  }

  /** The node a binary constructor builds: Input ports "LHS" and "RHS", then
      the Output "Result" port. */
  function BinaryNode(id: int, ty: NodeType, kind: NodeKind, name: string): Node
  {
    Node(id, ty, 2, Some(kind),
      [Port(id + 1, Input, 0, "LHS", Default()), Port(id + 2, Input, 1, "RHS", Default()),
       Port(id + 3, Output, 2, "Result", Default())],
      Label(name, id))
  }

  /** The shared body of the three constant constructors. */
  function ConstructConstant(g: Graph, ty: NodeType, zero: Data, name: string): (r: (Graph, int))
    ensures r.1 == g.nextId && r.0.nextId == g.nextId + 3
    ensures r.0.nodes.Keys == g.nodes.Keys + {r.1} && r.0.connections == g.connections
    ensures forall k :: k in g.nodes && k != r.1 ==> r.0.nodes[k] == g.nodes[k]
    ensures r.0.nodes[r.1] == ConstantNode(r.1, ty, zero, name)
    ensures SchemaOk(r.0.nodes[r.1])
    ensures MapsRange(g.portNodeMap, r.0.portNodeMap, r.1 + 1, 2, r.1)
  {
    ConstantNodeOk(g.nextId, ty, zero, Label(name, g.nextId));
    RealizeConstant(zero, g.nextId + 1);
    var r := Build(g, ty, 0, Constant, name, ConstantSchema(zero));
    assert |ConstantSchema(zero)| == 2;
    r
  }

  /** The shared body of the two binary constructors. */
  function ConstructBinary(g: Graph, ty: NodeType, kind: NodeKind, name: string): (r: (Graph, int))
    requires kind == Plus || kind == Minus
    ensures r.1 == g.nextId && r.0.nextId == g.nextId + 4
    ensures r.0.nodes.Keys == g.nodes.Keys + {r.1} && r.0.connections == g.connections
    ensures forall k :: k in g.nodes && k != r.1 ==> r.0.nodes[k] == g.nodes[k]
    ensures r.0.nodes[r.1] == BinaryNode(r.1, ty, kind, name)
    ensures SchemaOk(r.0.nodes[r.1])
    ensures MapsRange(g.portNodeMap, r.0.portNodeMap, r.1 + 1, 3, r.1)
  {
    BinaryNodeOk(g.nextId, ty, kind, Label(name, g.nextId));
    RealizeBinary(g.nextId + 1);
    var r := Build(g, ty, 2, kind, name, BinarySchema());
    assert |BinarySchema()| == 3;
    r
  }

  /** constructFloatNode: a constant node holding Float 0. */
  function ConstructFloat(g: Graph): (r: (Graph, int))
    ensures r.1 == g.nextId && r.0.nextId == g.nextId + 3
    ensures r.0.nodes.Keys == g.nodes.Keys + {r.1} && r.0.connections == g.connections
    ensures forall k :: k in g.nodes && k != r.1 ==> r.0.nodes[k] == g.nodes[k]
    ensures r.0.nodes[r.1] == ConstantNode(r.1, FloatType, Float(0.0), "Float")
    ensures SchemaOk(r.0.nodes[r.1])
    ensures MapsRange(g.portNodeMap, r.0.portNodeMap, r.1 + 1, 2, r.1)
  {
    ConstructConstant(g, FloatType, Float(0.0), "Float")
  }

  /** constructIntNode: a constant node holding Int 0. */
  function ConstructInt(g: Graph): (r: (Graph, int))
    ensures r.1 == g.nextId && r.0.nextId == g.nextId + 3
    ensures r.0.nodes.Keys == g.nodes.Keys + {r.1} && r.0.connections == g.connections
    ensures forall k :: k in g.nodes && k != r.1 ==> r.0.nodes[k] == g.nodes[k]
    ensures r.0.nodes[r.1] == ConstantNode(r.1, IntType, Int(0), "Int")
    ensures SchemaOk(r.0.nodes[r.1])
    ensures MapsRange(g.portNodeMap, r.0.portNodeMap, r.1 + 1, 2, r.1)
  {
    ConstructConstant(g, IntType, Int(0), "Int")
  }

  /** constructUIntNode: a constant node holding UInt 0. */
  function ConstructUInt(g: Graph): (r: (Graph, int))
    ensures r.1 == g.nextId && r.0.nextId == g.nextId + 3
    ensures r.0.nodes.Keys == g.nodes.Keys + {r.1} && r.0.connections == g.connections
    ensures forall k :: k in g.nodes && k != r.1 ==> r.0.nodes[k] == g.nodes[k]
    ensures r.0.nodes[r.1] == ConstantNode(r.1, UIntType, UInt(0), "UInt")
    ensures SchemaOk(r.0.nodes[r.1])
    ensures MapsRange(g.portNodeMap, r.0.portNodeMap, r.1 + 1, 2, r.1)
  {
    ConstructConstant(g, UIntType, UInt(0), "UInt")
  }

  /** constructPlusNode: two operands, the Plus evaluation function. */
  function ConstructPlus(g: Graph): (r: (Graph, int))
    ensures r.1 == g.nextId && r.0.nextId == g.nextId + 4
    ensures r.0.nodes.Keys == g.nodes.Keys + {r.1} && r.0.connections == g.connections
    ensures forall k :: k in g.nodes && k != r.1 ==> r.0.nodes[k] == g.nodes[k]
    ensures r.0.nodes[r.1] == BinaryNode(r.1, PlusType, Plus, "Plus")
    ensures SchemaOk(r.0.nodes[r.1])
    ensures MapsRange(g.portNodeMap, r.0.portNodeMap, r.1 + 1, 3, r.1)
  {
    ConstructBinary(g, PlusType, Plus, "Plus")
  }

  /** constructMinusNode: two operands, the Minus evaluation function. */
  function ConstructMinus(g: Graph): (r: (Graph, int))
    ensures r.1 == g.nextId && r.0.nextId == g.nextId + 4
    ensures r.0.nodes.Keys == g.nodes.Keys + {r.1} && r.0.connections == g.connections
    ensures forall k :: k in g.nodes && k != r.1 ==> r.0.nodes[k] == g.nodes[k]
    ensures r.0.nodes[r.1] == BinaryNode(r.1, MinusType, Minus, "Minus")
    ensures SchemaOk(r.0.nodes[r.1])
    ensures MapsRange(g.portNodeMap, r.0.portNodeMap, r.1 + 1, 3, r.1)
  {
    ConstructBinary(g, MinusType, Minus, "Minus")
  }
}
