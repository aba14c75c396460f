/** The dependency-ordering half of `GraphEval::update` (grapheval.cpp):
    which graphs the evaluator can run on, the source relation it follows,
    and the iterative depth-first linearisation of a node's dependencies. */
module EvalOrder {
  import opened Wrappers
  import opened PortValues
  import opened Graphs
  import opened EvalFuncs

  /** One entry of the compiled order: an occurrence of a node and the
      number of sources the traversal found for it. */
  datatype EvalNode = EvalNode(id: int, sourceCount: nat)

  /** A node the evaluator can run: it has an evaluation function popping
      `inputPortCount` operands, an Output port and, for a constant, a
      Static port. Every constructed node satisfies this. */
  predicate Evaluable(n: Node)
  {
    && n.evalFunc.Some?
    && Arity(n.evalFunc.value) == n.inputPortCount
    && HasOutput(n)
    && (n.evalFunc.value == Constant ==> HasStatic(n))
  }

  /** The lookups `update` performs are all defined and agree with one
      another: every node is stored under its own identifier (the walk
      starts from `n.id`, the skip test reads the map key), every node is
      evaluable, and the local endpoint of every connection on every node
      can be looked up (orderedSourceNodesForNode dereferences it). */
  predicate Wf(g: Graph)
  {
    && (forall k :: k in g.nodes ==> g.nodes[k].id == k)
    && (forall k, c :: k in g.nodes && c in g.connections ==> LocalLookupOk(g.nodes[k], c))
    && (forall k :: k in g.nodes ==> Evaluable(g.nodes[k]))
  }

  /** `rank` witnesses that the source relation the evaluator follows is
      acyclic: every source is an existing node of strictly smaller rank.
      The source has no cycle check, so this is a precondition of `update`. */
  predicate Ranked(g: Graph, rank: map<int, nat>)
  {
    && (forall k :: k in g.nodes ==> k in rank)
    && (forall k, c :: k in g.nodes && c in g.connections && LocalLookupOk(g.nodes[k], c)
          && SourceOf(g.nodes[k], c).Some?
          ==> var s := SourceOf(g.nodes[k], c).value.0;
          s in g.nodes && s in rank && rank[s] < rank[k])
  }

  /** The node ids orderedSourceNodesForNode yields, in port order. */
  function Sources(g: Graph, x: int): (r: seq<int>)
    requires SourcesDefined(g, x)
    ensures |r| == |OrderedSourceNodesForNode(g, x)|
    ensures forall i :: 0 <= i < |r| ==> r[i] == OrderedSourceNodesForNode(g, x)[i].0
  {
    var o := OrderedSourceNodesForNode(g, x);
    seq(|o|, i requires 0 <= i < |o| => o[i].0)
  }

  lemma WfSourcesDefined(g: Graph, x: int)
    requires Wf(g) && x in g.nodes
    ensures SourcesDefined(g, x)
  {
  }

  /** Every source of a node is an existing node of smaller rank. */
  lemma SourcesBelow(g: Graph, rank: map<int, nat>, x: int)
    requires Wf(g) && Ranked(g, rank) && x in g.nodes
    ensures x in rank
    ensures forall i :: 0 <= i < |Sources(g, x)| ==>
      Sources(g, x)[i] in g.nodes && Sources(g, x)[i] in rank && rank[Sources(g, x)[i]] < rank[x]
  {
    var n := g.nodes[x];
    var o := OrderedSourceNodesForNode(g, x);
    var col := Collect(n, g.connections);
    forall i | 0 <= i < |o|
      ensures o[i].0 in g.nodes && o[i].0 in rank && rank[o[i].0] < rank[x]
    {
      assert o[i] in multiset(o);
      assert o[i] in col;
      var j :| 0 <= j < |g.connections| && SourceOf(n, g.connections[j]) == Some(o[i]);
      assert g.connections[j] in g.connections;
    }
  }


  // ---------------------------------------------------------------------------
  // The dependency map

  /** Every node's sources, as orderedSourceNodesForNode reports them. */
  function Deps(g: Graph): (d: map<int, seq<int>>)
    requires Wf(g)
    ensures d.Keys == g.nodes.Keys
    ensures forall x :: x in g.nodes ==> d[x] == Sources(g, x)
  {
    map x | x in g.nodes :: Sources(g, x)
  }

  /** `deps` records, for every node of `g`, the sources the query reports. */
  predicate IsDeps(g: Graph, deps: map<int, seq<int>>)
  {
    && deps.Keys == g.nodes.Keys
    && forall x :: x in deps ==> SourcesDefined(g, x) && deps[x] == Sources(g, x)
  }

  lemma DepsIsDeps(g: Graph)
    requires Wf(g)
    ensures IsDeps(g, Deps(g))
  {
  }

  /** Every node on a traversal stack has a dependency entry and rank below `b`. */
  predicate Below(deps: map<int, seq<int>>, rank: map<int, nat>, stk: seq<int>, b: nat)
  {
    forall i :: 0 <= i < |stk| ==> stk[i] in deps && stk[i] in rank && rank[stk[i]] < b
  }

  /** `rank` strictly decreases from every node to each of its dependencies. */
  predicate DepsRanked(deps: map<int, seq<int>>, rank: map<int, nat>)
  {
    forall x :: x in deps ==> x in rank && Below(deps, rank, deps[x], rank[x])
  }

  lemma RankedDeps(g: Graph, rank: map<int, nat>)
    requires Wf(g) && Ranked(g, rank)
    ensures DepsRanked(Deps(g), rank)
  {
    forall x | x in g.nodes
      ensures x in rank && Below(Deps(g), rank, Deps(g)[x], rank[x])
    {
      SourcesBelow(g, rank, x);
    }
  }

  // ---------------------------------------------------------------------------
  // The recursive preorder and the iterative traversal

  /** The compiled order produced from a single node: the node itself, then
      its sources' subtrees, the highest port order first (the traversal
      stack is last-in, first-out). */
  function Lin(deps: map<int, seq<int>>, rank: map<int, nat>, x: int): seq<EvalNode>
    requires DepsRanked(deps, rank) && x in deps
    decreases rank[x], 1, 0
  {
    [EvalNode(x, |deps[x]|)] + LinStack(deps, rank, deps[x], rank[x])
  }

  /** The compiled order produced from a traversal stack (top last); `b`
      bounds the ranks on the stack and only serves termination. */
  function LinStack(deps: map<int, seq<int>>, rank: map<int, nat>, stk: seq<int>, b: nat): seq<EvalNode>
    requires DepsRanked(deps, rank) && Below(deps, rank, stk, b)
    decreases b, 0, |stk|
  {
    if stk == [] then []
    else Lin(deps, rank, stk[|stk| - 1]) + LinStack(deps, rank, stk[..|stk| - 1], b)
  }

  lemma LinStackUnfold(deps: map<int, seq<int>>, rank: map<int, nat>, stk: seq<int>, b: nat)
    requires DepsRanked(deps, rank) && Below(deps, rank, stk, b) && |stk| > 0
    ensures Below(deps, rank, stk[..|stk| - 1], b) && stk[|stk| - 1] in deps
    ensures LinStack(deps, rank, stk, b) == Lin(deps, rank, stk[|stk| - 1]) + LinStack(deps, rank, stk[..|stk| - 1], b)
  {
  }

  /** The bound is only a termination witness. */
  lemma {:induction false} LinStackBound(deps: map<int, seq<int>>, rank: map<int, nat>, stk: seq<int>, b: nat, b': nat)
    requires DepsRanked(deps, rank) && Below(deps, rank, stk, b) && b <= b'
    ensures Below(deps, rank, stk, b')
    ensures LinStack(deps, rank, stk, b) == LinStack(deps, rank, stk, b')
    decreases |stk|
  {
    if stk != [] {
      LinStackUnfold(deps, rank, stk, b);
      LinStackBound(deps, rank, stk[..|stk| - 1], b, b');
      LinStackUnfold(deps, rank, stk, b');
    }
  }

  /** Pushing `top` above `bottom` expands `top` first. */
  lemma {:induction false} LinStackAppend(deps: map<int, seq<int>>, rank: map<int, nat>, bottom: seq<int>, top: seq<int>, b: nat)
    requires DepsRanked(deps, rank) && Below(deps, rank, bottom, b) && Below(deps, rank, top, b)
    ensures Below(deps, rank, bottom + top, b)
    ensures LinStack(deps, rank, bottom + top, b) == LinStack(deps, rank, top, b) + LinStack(deps, rank, bottom, b)
    decreases |top|
  {
    var s := bottom + top;
    assert Below(deps, rank, s, b);
    if top == [] {
      assert s == bottom;
    } else {
      var t' := top[..|top| - 1];
      assert s[..|s| - 1] == bottom + t';
      assert s[|s| - 1] == top[|top| - 1];
      LinStackUnfold(deps, rank, top, b);
      LinStackAppend(deps, rank, bottom, t', b);
      LinStackUnfold(deps, rank, s, b);
    }
  }

  /** The iterative traversal of grapheval.cpp:32-42: pop a node, record it
      with its source count, push its sources in port order. It computes the
      recursive preorder LinStack. */
  function Dfs(g: Graph, deps: map<int, seq<int>>, rank: map<int, nat>, stk: seq<int>, acc: seq<EvalNode>, b: nat): (r: seq<EvalNode>)
    requires IsDeps(g, deps) && DepsRanked(deps, rank) && Below(deps, rank, stk, b)
    ensures r == acc + LinStack(deps, rank, stk, b)
    decreases |LinStack(deps, rank, stk, b)|
  {
    if stk == [] then acc
    else
      var x := stk[|stk| - 1];
      var rest := stk[..|stk| - 1];
      var src := Sources(g, x);
      LinStackUnfold(deps, rank, stk, b);
      LinStackBound(deps, rank, src, rank[x], b);
      LinStackAppend(deps, rank, rest, src, b);
      var r := Dfs(g, deps, rank, rest + src, acc + [EvalNode(x, |src|)], b);
      var e, a, c := [EvalNode(x, |src|)], LinStack(deps, rank, src, b), LinStack(deps, rank, rest, b);
      assert Lin(deps, rank, x) == e + a;
      assert r == (acc + e) + (a + c);
      Assoc4(acc, e, a, c);
      r
  }

  lemma Assoc4<T>(p: seq<T>, q: seq<T>, s: seq<T>, t: seq<T>)
    ensures (p + q) + (s + t) == p + ((q + s) + t)
  {
  }

  /** Linearising a single root with the iterative traversal yields Lin. */
  lemma DfsRoot(g: Graph, deps: map<int, seq<int>>, rank: map<int, nat>, x: int)
    requires IsDeps(g, deps) && DepsRanked(deps, rank) && x in g.nodes
    ensures x in rank && Below(deps, rank, [x], rank[x] + 1)
    ensures Dfs(g, deps, rank, [x], [], rank[x] + 1) == Lin(deps, rank, x)
  {
    assert [x][..0] == [];
    assert Below(deps, rank, [x], rank[x] + 1);
    LinStackUnfold(deps, rank, [x], rank[x] + 1);
    var l := Lin(deps, rank, x);
    assert LinStack(deps, rank, [x], rank[x] + 1) == l + [];
    assert [] + (l + []) == l;
  }

  // ---------------------------------------------------------------------------
  // Graphs that differ only in cached port values

  function StripPorts(ps: seq<Port>): seq<Port>
  {
    seq(|ps|, i requires 0 <= i < |ps| => ps[i].(data := Default()))
  }

  /** A node with every cached value reset: what evaluation cannot change. */
  function Strip(n: Node): Node
  {
    n.(ports := StripPorts(n.ports))
  }

  /** `g` is `G` with possibly different cached port values. */
  predicate SameShape(G: Graph, g: Graph)
  {
    && g.connections == G.connections
    && g.portNodeMap == G.portNodeMap
    && g.nextId == G.nextId
    && g.nodes.Keys == G.nodes.Keys
    && (forall k :: k in G.nodes ==> Strip(g.nodes[k]) == Strip(G.nodes[k]))
  }

  lemma SetOutputStrip(n: Node, v: PortData)
    requires HasOutput(n)
    ensures Strip(SetOutput(n, v)) == Strip(n)
  {
    var r := SetOutput(n, v);
    assert StripPorts(r.ports) == StripPorts(n.ports);
  }

  lemma {:induction false} PortIndexFromSameIds(a: seq<Port>, b: seq<Port>, id: int, from: nat)
    requires from <= |a| == |b|
    requires forall i :: 0 <= i < |a| ==> a[i].id == b[i].id
    ensures PortIndexFrom(a, id, from) == PortIndexFrom(b, id, from)
    decreases |a| - from
  {
    if from < |a| {
      PortIndexFromSameIds(a, b, id, from + 1);
    }
  }

  /** Nodes of the same shape agree on everything the evaluator dispatches on. */
  lemma StripFacts(n: Node, m: Node)
    requires Strip(n) == Strip(m)
    ensures n.id == m.id && n.inputPortCount == m.inputPortCount && n.evalFunc == m.evalFunc
    ensures HasOutput(n) == HasOutput(m) && HasStatic(n) == HasStatic(m)
    ensures Evaluable(n) == Evaluable(m)
  {
    StripSameDirs(n, m);
    DirIndexFromSameDirs(n.ports, m.ports, Output, 0);
    DirIndexFromSameDirs(n.ports, m.ports, Static, 0);
  }

  /** Nodes of the same shape resolve every connection alike. */
  lemma StripLookupFacts(n: Node, m: Node)
    requires Strip(n) == Strip(m)
    ensures forall c :: LocalLookupOk(n, c) == LocalLookupOk(m, c)
    ensures forall c :: LocalLookupOk(n, c) ==> SourceOf(n, c) == SourceOf(m, c)
  {
    StripSameDirs(n, m);
    forall id {
      PortIndexFromSameIds(n.ports, m.ports, id, 0);
    }
  }

  lemma StripSameDirs(n: Node, m: Node)
    requires Strip(n) == Strip(m)
    ensures |n.ports| == |m.ports|
    ensures forall i :: 0 <= i < |n.ports| ==>
      n.ports[i].id == m.ports[i].id && n.ports[i].dir == m.ports[i].dir && n.ports[i].order == m.ports[i].order
  {
    assert |n.ports| == |StripPorts(n.ports)| == |StripPorts(m.ports)| == |m.ports|;
    forall i | 0 <= i < |n.ports|
      ensures n.ports[i].id == m.ports[i].id && n.ports[i].dir == m.ports[i].dir
      ensures n.ports[i].order == m.ports[i].order
    {
      assert StripPorts(n.ports)[i] == StripPorts(m.ports)[i];
    }
  }

  lemma {:induction false} CollectSame(n: Node, m: Node, cs: seq<Connection>)
    requires Strip(n) == Strip(m)
    requires forall c :: c in cs ==> LocalLookupOk(n, c)
    ensures forall c :: c in cs ==> LocalLookupOk(m, c)
    ensures Collect(n, cs) == Collect(m, cs)
    decreases |cs|
  {
    StripLookupFacts(n, m);
    if cs != [] {
      CollectSame(n, m, cs[1..]);
    }
  }

  /** Evaluation leaves the source query, well-formedness and the rank
      witness intact. */
  lemma ShapeKeepsSources(G: Graph, g: Graph, x: int)
    requires SameShape(G, g) && SourcesDefined(G, x)
    ensures SourcesDefined(g, x)
    ensures OrderedSourceNodesForNode(g, x) == OrderedSourceNodesForNode(G, x)
    ensures Sources(g, x) == Sources(G, x)
  {
    CollectSame(G.nodes[x], g.nodes[x], G.connections);
  }

  lemma ShapeKeepsWf(G: Graph, g: Graph, rank: map<int, nat>)
    requires SameShape(G, g) && Wf(G) && Ranked(G, rank)
    ensures Wf(g) && Ranked(g, rank)
  {
    forall k | k in G.nodes
      ensures Evaluable(g.nodes[k])
      ensures forall c :: LocalLookupOk(g.nodes[k], c) == LocalLookupOk(G.nodes[k], c)
      ensures forall c :: LocalLookupOk(G.nodes[k], c) ==> SourceOf(g.nodes[k], c) == SourceOf(G.nodes[k], c)
    {
      StripFacts(g.nodes[k], G.nodes[k]);
      StripLookupFacts(g.nodes[k], G.nodes[k]);
    }
  }

  /** The dependency map only depends on the graph's shape. */
  lemma IsDepsShape(G: Graph, g: Graph, deps: map<int, seq<int>>)
    requires SameShape(G, g) && IsDeps(G, deps)
    ensures IsDeps(g, deps)
  {
    forall x | x in deps
      ensures SourcesDefined(g, x) && Sources(g, x) == Sources(G, x)
    {
      ShapeKeepsSources(G, g, x);
    }
  }
}
