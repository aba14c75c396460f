/** The replay half of `GraphEval::update` (grapheval.cpp): the operand-stack
    machine that runs the compiled order backwards, the loop over all nodes,
    and what one update guarantees about the graph it leaves behind. */
module Evaluator {
  import opened Wrappers
  import opened PortValues
  import opened Graphs
  import opened EvalFuncs
  import opened EvalOrder

  /** The evaluator's working state. The scratch buffers of the source are
      function-scoped statics; here they are per-call values. `ran` records,
      in order, every node whose evaluation function was invoked. */
  datatype EvalState = EvalState(g: Graph, evaluated: set<int>, stack: seq<PortData>, ran: seq<int>)

  predicate NoDup(s: seq<int>)
  {
    forall i, j :: 0 <= i < j < |s| ==> s[i] != s[j]
  }

  function UpdateNode(g: Graph, id: int, n: Node): Graph
  {
    g.(nodes := g.nodes[id := n])
  }

  /** An entry whose source count differs from the node's input port count
      (grapheval.cpp:49-53): pops `count` operands, pushes the default
      value and caches it; the node is not marked evaluated. */
  function StepUnder(st: EvalState, id: int, count: nat): (r: Option<EvalState>)
    requires id in st.g.nodes
    ensures var n := st.g.nodes[id];
      && (r.Some? <==> count <= |st.stack| && HasOutput(n))
      && (r.Some? ==>
            && r.value.stack == st.stack[..|st.stack| - count] + [Default()]
            && r.value.g == UpdateNode(st.g, id, SetOutput(n, Default()))
            && r.value.evaluated == st.evaluated && r.value.ran == st.ran)
  {
    var n := st.g.nodes[id];
    if count > |st.stack| || !HasOutput(n) then None
    else
      var v := Default();
      Some(st.(g := UpdateNode(st.g, id, SetOutput(n, v)), stack := st.stack[..|st.stack| - count] + [v]))
  }

  /** A full entry for a node already evaluated (grapheval.cpp:55-58): pops
      its operands and pushes the cached output; nothing runs. */
  function StepMemo(st: EvalState, id: int): (r: Option<EvalState>)
    requires id in st.g.nodes
    ensures var n := st.g.nodes[id];
      && (r.Some? <==> n.inputPortCount <= |st.stack| && HasOutput(n))
      && (r.Some? ==>
            && r.value.stack == st.stack[..|st.stack| - n.inputPortCount] + [OutData(n)]
            && r.value.g == st.g && r.value.evaluated == st.evaluated && r.value.ran == st.ran)
  {
    var n := st.g.nodes[id];
    if n.inputPortCount > |st.stack| || !HasOutput(n) then None
    else Some(st.(stack := st.stack[..|st.stack| - n.inputPortCount] + [OutData(n)]))
  }

  /** The first full entry for a node (grapheval.cpp:60-63): marks it
      evaluated, then runs its evaluation function once. */
  function StepEval(st: EvalState, id: int, fdiv: (real, real) -> real): (r: Option<EvalState>)
    requires id in st.g.nodes
    ensures var n := st.g.nodes[id];
      && (n.evalFunc.None? ==> r == Some(st.(evaluated := st.evaluated + {id})))
      && (n.evalFunc.Some? ==>
            && (r.Some? <==> EvalDefined(n.evalFunc.value, n, st.stack))
            && (r.Some? ==>
                  && r.value.evaluated == st.evaluated + {id}
                  && r.value.ran == st.ran + [id]
                  && id in r.value.g.nodes
                  && Replaces(n, st.stack, Arity(n.evalFunc.value), (r.value.g.nodes[id], r.value.stack))
                  && Top(r.value.stack) == Reference(n.evalFunc.value, n, st.stack, fdiv)
                  && r.value.g == UpdateNode(st.g, id, SetOutput(n, Top(r.value.stack)))))
  {
    var n := st.g.nodes[id];
    var marked := st.(evaluated := st.evaluated + {id});
    match n.evalFunc
    case None => Some(marked)
    case Some(k) =>
      match EvalFuncs.EvalNode(k, n, st.stack, fdiv)
      case None => None
      case Some(res) =>
        Some(marked.(g := UpdateNode(st.g, id, res.0), stack := res.1, ran := st.ran + [id]))
  }

  /** One iteration of the replay loop (grapheval.cpp:44-65) on the entry
      `en`. None stands for the undefined behaviour of the C++ (a missing
      node, port or operand). */
  function Step(st: EvalState, en: EvalNode, fdiv: (real, real) -> real): (r: Option<EvalState>)
    ensures en.id !in st.g.nodes ==> r.None?
    ensures en.id in st.g.nodes && en.sourceCount != st.g.nodes[en.id].inputPortCount ==>
      r == StepUnder(st, en.id, en.sourceCount)
    ensures en.id in st.g.nodes && en.sourceCount == st.g.nodes[en.id].inputPortCount && en.id in st.evaluated ==>
      r == StepMemo(st, en.id)
    ensures en.id in st.g.nodes && en.sourceCount == st.g.nodes[en.id].inputPortCount && en.id !in st.evaluated ==>
      r == StepEval(st, en.id, fdiv)
  {
    if en.id !in st.g.nodes then None
    else if en.sourceCount != st.g.nodes[en.id].inputPortCount then StepUnder(st, en.id, en.sourceCount)
    else if en.id in st.evaluated then StepMemo(st, en.id)
    else StepEval(st, en.id, fdiv)
  }

  /** The replay loop: entries are taken from the end of the compiled order. */
  function Replay(list: seq<EvalNode>, st: EvalState, fdiv: (real, real) -> real): Option<EvalState>
    decreases |list|
  {
    if list == [] then Some(st)
    else match Step(st, list[|list| - 1], fdiv)
      case None => None
      case Some(st') => Replay(list[..|list| - 1], st', fdiv)
  }

  /** Replaying `front + back` replays `back` first. */
  lemma {:induction false} ReplayAppend(front: seq<EvalNode>, back: seq<EvalNode>, st: EvalState, fdiv: (real, real) -> real)
    ensures Replay(front + back, st, fdiv) ==
      match Replay(back, st, fdiv)
      case None => None
      case Some(s) => Replay(front, s, fdiv)
    decreases |back|
  {
    var l := front + back;
    if back == [] {
      assert l == front;
    } else {
      assert l[|l| - 1] == back[|back| - 1];
      assert l[..|l| - 1] == front + back[..|back| - 1];
      match Step(st, back[|back| - 1], fdiv)
      case None =>
      case Some(st') =>
        ReplayAppend(front, back[..|back| - 1], st', fdiv);
    }
  }

  // ---------------------------------------------------------------------------
  // Demand-driven reference evaluation

  /** Evaluates `x` by first evaluating its sources in ascending port order,
      then stepping `x` itself. */
  function Demand(deps: map<int, seq<int>>, rank: map<int, nat>, x: int, st: EvalState, fdiv: (real, real) -> real): Option<EvalState>
    requires DepsRanked(deps, rank) && x in deps
    decreases rank[x], 1, 0
  {
    match DemandAll(deps, rank, deps[x], st, rank[x], fdiv)
    case None => None
    case Some(s) => Step(s, EvalNode(x, |deps[x]|), fdiv)
  }

  /** Evaluates the nodes of `stk` from the first to the last. */
  function DemandAll(deps: map<int, seq<int>>, rank: map<int, nat>, stk: seq<int>, st: EvalState, b: nat, fdiv: (real, real) -> real): Option<EvalState>
    requires DepsRanked(deps, rank) && Below(deps, rank, stk, b)
    decreases b, 0, |stk|
  {
    if stk == [] then Some(st)
    else match DemandAll(deps, rank, stk[..|stk| - 1], st, b, fdiv)
      case None => None
      case Some(s) => Demand(deps, rank, stk[|stk| - 1], s, fdiv)
  }

  lemma DemandAllUnfold(deps: map<int, seq<int>>, rank: map<int, nat>, stk: seq<int>, st: EvalState, b: nat, fdiv: (real, real) -> real)
    requires DepsRanked(deps, rank) && Below(deps, rank, stk, b) && |stk| > 0
    ensures Below(deps, rank, stk[..|stk| - 1], b) && stk[|stk| - 1] in deps
    ensures DemandAll(deps, rank, stk, st, b, fdiv) ==
      match DemandAll(deps, rank, stk[..|stk| - 1], st, b, fdiv)
      case None => None
      case Some(s) => Demand(deps, rank, stk[|stk| - 1], s, fdiv)
  {
  }

  lemma ReplaySingle(en: EvalNode, st: EvalState, fdiv: (real, real) -> real)
    ensures Replay([en], st, fdiv) == Step(st, en, fdiv)
  {
    assert [en][..0] == [];
  }

  /** Replaying the compiled order is demand-driven evaluation. */
  lemma {:induction false} ReplayLin(deps: map<int, seq<int>>, rank: map<int, nat>, x: int, st: EvalState, fdiv: (real, real) -> real)
    requires DepsRanked(deps, rank) && x in deps
    ensures Replay(Lin(deps, rank, x), st, fdiv) == Demand(deps, rank, x, st, fdiv)
    decreases rank[x], 1, 0
  {
    var en := EvalNode(x, |deps[x]|);
    var rest := LinStack(deps, rank, deps[x], rank[x]);
    ReplayAppend([en], rest, st, fdiv);
    ReplayLinStack(deps, rank, deps[x], st, rank[x], fdiv);
    match Replay(rest, st, fdiv)
    case None =>
    case Some(s) => ReplaySingle(en, s, fdiv);
  }

  lemma {:induction false} ReplayLinStack(deps: map<int, seq<int>>, rank: map<int, nat>, stk: seq<int>, st: EvalState, b: nat, fdiv: (real, real) -> real)
    requires DepsRanked(deps, rank) && Below(deps, rank, stk, b)
    ensures Replay(LinStack(deps, rank, stk, b), st, fdiv) == DemandAll(deps, rank, stk, st, b, fdiv)
    decreases b, 0, |stk|
  {
    if stk != [] {
      var x := stk[|stk| - 1];
      var pre := stk[..|stk| - 1];
      LinStackUnfold(deps, rank, stk, b);
      ReplayAppend(Lin(deps, rank, x), LinStack(deps, rank, pre, b), st, fdiv);
      ReplayLinStack(deps, rank, pre, st, b, fdiv);
      match DemandAll(deps, rank, pre, st, b, fdiv)
      case None =>
      case Some(s) => ReplayLin(deps, rank, x, s, fdiv);
    }
  }

  // ---------------------------------------------------------------------------
  // Invariants of an update

  /** What the evaluator's preconditions give about the original graph `G`:
      every node is evaluable and `deps` is an acyclic dependency map on its
      nodes. */
  predicate Ready(G: Graph, deps: map<int, seq<int>>, rank: map<int, nat>)
  {
    && (forall k {:trigger Evaluable(G.nodes[k])} :: k in G.nodes ==> Evaluable(G.nodes[k]))
    && deps.Keys == G.nodes.Keys
    && DepsRanked(deps, rank)
  }

  /** A node whose number of wired sources equals its input count. */
  predicate Full(G: Graph, deps: map<int, seq<int>>, y: int)
  {
    y in G.nodes && y in deps && |deps[y]| == G.nodes[y].inputPortCount
  }

  /** The state of `y` once it has been visited in this update: a fully
      connected node is marked evaluated; any other node caches the default
      value. Either way its cached output no longer changes. */
  predicate Settled(G: Graph, deps: map<int, seq<int>>, st: EvalState, y: int)
  {
    && y in st.g.nodes && HasOutput(st.g.nodes[y])
    && (if Full(G, deps, y) then y in st.evaluated else OutData(st.g.nodes[y]) == Default())
  }

  ghost predicate Inv(G: Graph, deps: map<int, seq<int>>, st: EvalState)
  {
    && SameShape(G, st.g)
    && (forall y :: y in st.evaluated ==> Full(G, deps, y))
    && NoDup(st.ran)
    && (forall y :: y in st.ran <==> y in st.evaluated)
  }

  /** Settled nodes stay settled and keep their cached output from `st` to `s`. */
  ghost predicate Keeps(G: Graph, deps: map<int, seq<int>>, st: EvalState, s: EvalState)
  {
    forall y :: Settled(G, deps, st, y) ==>
      Settled(G, deps, s, y) && OutData(s.g.nodes[y]) == OutData(st.g.nodes[y])
  }

  lemma KeepsTrans(G: Graph, deps: map<int, seq<int>>, s1: EvalState, s2: EvalState, s3: EvalState)
    requires Keeps(G, deps, s1, s2) && Keeps(G, deps, s2, s3)
    ensures Keeps(G, deps, s1, s3)
  {
  }

  /** The outcome `r` of stepping an occurrence of `x` with `k` sources on
      `st` is defined, keeps the invariant, settles `x`, replaces the `k`
      operands by `x`'s cached output, and disturbs no settled node. */
  ghost predicate Stepped(G: Graph, deps: map<int, seq<int>>, st: EvalState, x: int, k: nat, r: Option<EvalState>)
  {
    && r.Some?
    && Inv(G, deps, r.value)
    && Settled(G, deps, r.value, x)
    && k <= |st.stack|
    && r.value.stack == st.stack[..|st.stack| - k] + [OutData(r.value.g.nodes[x])]
    && Keeps(G, deps, st, r.value)
  }

  /** Replacing node `x` by one with the same shape keeps the graph's shape. */
  lemma ShapeUpdate(G: Graph, g: Graph, x: int, n: Node)
    requires SameShape(G, g) && x in g.nodes && Strip(n) == Strip(g.nodes[x])
    ensures SameShape(G, UpdateNode(g, x, n))
  {
  }

  /** Steps on a node that is not full: it caches and pushes the default value. */
  lemma StepUnderSpec(G: Graph, deps: map<int, seq<int>>, x: int, st: EvalState, fdiv: (real, real) -> real)
    requires x in deps && deps.Keys == G.nodes.Keys && Inv(G, deps, st)
    requires Evaluable(G.nodes[x]) && |deps[x]| <= |st.stack| && !Full(G, deps, x)
    ensures Stepped(G, deps, st, x, |deps[x]|, Step(st, EvalNode(x, |deps[x]|), fdiv))
  {
    var n := st.g.nodes[x];
    StripFacts(n, G.nodes[x]);
    assert Step(st, EvalNode(x, |deps[x]|), fdiv) == StepUnder(st, x, |deps[x]|);
    UnderSettles(G, deps, x, st, |deps[x]|);
  }

  /** Caching the default value on a node that is not full keeps the
      invariant, settles it and disturbs no settled node. */
  lemma UnderSettles(G: Graph, deps: map<int, seq<int>>, x: int, st: EvalState, k: nat)
    requires x in st.g.nodes && Inv(G, deps, st) && HasOutput(st.g.nodes[x]) && !Full(G, deps, x)
    requires k <= |st.stack|
    ensures var r := StepUnder(st, x, k);
      && r.Some? && Inv(G, deps, r.value) && Settled(G, deps, r.value, x) && Keeps(G, deps, st, r.value)
  {
    var n := st.g.nodes[x];
    SetOutputStrip(n, Default());
    ShapeUpdate(G, st.g, x, SetOutput(n, Default()));
  }

  /** Steps on a full node already evaluated: it pushes the cached output. */
  lemma StepMemoSpec(G: Graph, deps: map<int, seq<int>>, x: int, st: EvalState, fdiv: (real, real) -> real)
    requires x in deps && deps.Keys == G.nodes.Keys && Inv(G, deps, st)
    requires Evaluable(G.nodes[x]) && |deps[x]| <= |st.stack| && Full(G, deps, x) && x in st.evaluated
    ensures Stepped(G, deps, st, x, |deps[x]|, Step(st, EvalNode(x, |deps[x]|), fdiv))
  {
    StripFacts(st.g.nodes[x], G.nodes[x]);
  }

  /** Caching `v` on a full, not yet evaluated node `x` and marking it
      evaluated and run keeps the invariant and settles `x`. */
  lemma MarkRunInv(G: Graph, deps: map<int, seq<int>>, x: int, st: EvalState, v: PortData, stk: seq<PortData>)
    requires Inv(G, deps, st) && x in st.g.nodes && HasOutput(st.g.nodes[x])
    requires Full(G, deps, x) && x !in st.evaluated
    ensures var s := st.(g := UpdateNode(st.g, x, SetOutput(st.g.nodes[x], v)),
                         evaluated := st.evaluated + {x}, stack := stk, ran := st.ran + [x]);
      Inv(G, deps, s) && Settled(G, deps, s, x) && Keeps(G, deps, st, s)
  {
    var n := st.g.nodes[x];
    SetOutputStrip(n, v);
    ShapeUpdate(G, st.g, x, SetOutput(n, v));
    assert x !in st.ran;
  }

  /** The first full occurrence of an evaluable node `x` replaces its
      operands by the evaluation function's result, which is the reference
      value of its kind on those operands, caches it and marks `x` evaluated
      and run. */
  lemma StepEvalResult(st: EvalState, x: int, fdiv: (real, real) -> real)
    requires x in st.g.nodes && Evaluable(st.g.nodes[x]) && x !in st.evaluated
    requires st.g.nodes[x].inputPortCount <= |st.stack|
    ensures var n := st.g.nodes[x];
      var r := Step(st, EvalNode(x, n.inputPortCount), fdiv);
      && r.Some?
      && |r.value.stack| > 0
      && r.value == st.(g := UpdateNode(st.g, x, SetOutput(n, Top(r.value.stack))),
                        evaluated := st.evaluated + {x}, ran := st.ran + [x], stack := r.value.stack)
      && r.value.stack == st.stack[..|st.stack| - n.inputPortCount] + [Top(r.value.stack)]
      && Top(r.value.stack) == Reference(n.evalFunc.value, n, st.stack, fdiv)
  {
    var n := st.g.nodes[x];
    assert Step(st, EvalNode(x, n.inputPortCount), fdiv) == StepEval(st, x, fdiv);
    var s := StepEval(st, x, fdiv).value;
    assert s.stack[..|s.stack| - 1] == st.stack[..|st.stack| - n.inputPortCount];
    assert s.stack == s.stack[..|s.stack| - 1] + [Top(s.stack)];
  }

  /** Steps on a full node not yet evaluated: it runs the evaluation function. */
  lemma StepEvalSpec(G: Graph, deps: map<int, seq<int>>, x: int, st: EvalState, fdiv: (real, real) -> real)
    requires x in deps && deps.Keys == G.nodes.Keys && Inv(G, deps, st)
    requires Evaluable(G.nodes[x]) && |deps[x]| <= |st.stack| && Full(G, deps, x) && x !in st.evaluated
    ensures Stepped(G, deps, st, x, |deps[x]|, Step(st, EvalNode(x, |deps[x]|), fdiv))
  {
    StripFacts(st.g.nodes[x], G.nodes[x]);
    StepEvalResult(st, x, fdiv);
    var s := Step(st, EvalNode(x, |deps[x]|), fdiv).value;
    MarkRunInv(G, deps, x, st, Top(s.stack), s.stack);
  }

  /** One step on an occurrence of `x` with its true source count keeps the
      invariant, settles `x`, replaces the `k` operands by `x`'s cached
      output, and disturbs no settled node. */
  lemma StepSpec(G: Graph, deps: map<int, seq<int>>, rank: map<int, nat>, x: int, st: EvalState, fdiv: (real, real) -> real)
    requires Ready(G, deps, rank) && x in deps && Inv(G, deps, st)
    requires |deps[x]| <= |st.stack|
    ensures Stepped(G, deps, st, x, |deps[x]|, Step(st, EvalNode(x, |deps[x]|), fdiv))
  {
    if !Full(G, deps, x) {
      StepUnderSpec(G, deps, x, st, fdiv);
    } else if x in st.evaluated {
      StepMemoSpec(G, deps, x, st, fdiv);
    } else {
      StepEvalSpec(G, deps, x, st, fdiv);
    }
  }

  /** The outcome `r` of evaluating `x` from `st` is defined, keeps the
      invariant, settles `x`, pushes exactly `x`'s cached output and
      disturbs no settled node. */
  ghost predicate Demanded(G: Graph, deps: map<int, seq<int>>, st: EvalState, x: int, r: Option<EvalState>)
  {
    && r.Some?
    && Inv(G, deps, r.value)
    && Settled(G, deps, r.value, x)
    && r.value.stack == st.stack + [OutData(r.value.g.nodes[x])]
    && Keeps(G, deps, st, r.value)
  }

  /** `s` extends `st`'s operand stack by the cached outputs of the settled
      nodes `stk`, in order. */
  predicate Pushed(G: Graph, deps: map<int, seq<int>>, st: EvalState, s: EvalState, stk: seq<int>)
  {
    && |s.stack| == |st.stack| + |stk|
    && s.stack[..|st.stack|] == st.stack
    && (forall i :: 0 <= i < |stk| ==>
          Settled(G, deps, s, stk[i]) && s.stack[|st.stack| + i] == OutData(s.g.nodes[stk[i]]))
  }

  /** The outcome `r` of evaluating the nodes `stk` in order from `st` is
      defined, keeps the invariant, pushes their cached outputs in order
      and disturbs no settled node. */
  ghost predicate DemandedAll(G: Graph, deps: map<int, seq<int>>, st: EvalState, stk: seq<int>, r: Option<EvalState>)
  {
    && r.Some?
    && Inv(G, deps, r.value)
    && Pushed(G, deps, st, r.value, stk)
    && Keeps(G, deps, st, r.value)
  }

  lemma PushedExtend(G: Graph, deps: map<int, seq<int>>, st: EvalState, s1: EvalState, s: EvalState, pre: seq<int>, x: int)
    requires Pushed(G, deps, st, s1, pre) && Keeps(G, deps, s1, s)
    requires Settled(G, deps, s, x) && s.stack == s1.stack + [OutData(s.g.nodes[x])]
    ensures Pushed(G, deps, st, s, pre + [x])
  {
    var stk := pre + [x];
    forall i | 0 <= i < |stk|
      ensures Settled(G, deps, s, stk[i]) && s.stack[|st.stack| + i] == OutData(s.g.nodes[stk[i]])
    {
      if i < |pre| {
        assert stk[i] == pre[i];
        assert Settled(G, deps, s1, pre[i]);
        assert s.stack[|st.stack| + i] == s1.stack[|st.stack| + i];
      }
    }
  }

  lemma DemandedNone(G: Graph, deps: map<int, seq<int>>, st: EvalState)
    requires Inv(G, deps, st)
    ensures DemandedAll(G, deps, st, [], Some(st))
  {
  }

  lemma DemandedSnoc(G: Graph, deps: map<int, seq<int>>, st: EvalState, r1: Option<EvalState>, r: Option<EvalState>, pre: seq<int>, x: int)
    requires DemandedAll(G, deps, st, pre, r1) && Demanded(G, deps, r1.value, x, r)
    ensures DemandedAll(G, deps, st, pre + [x], r)
  {
    KeepsTrans(G, deps, st, r1.value, r.value);
    PushedExtend(G, deps, st, r1.value, r.value, pre, x);
  }

  lemma DemandedStep(G: Graph, deps: map<int, seq<int>>, st: EvalState, r1: Option<EvalState>, r: Option<EvalState>, x: int)
    requires x in deps && DemandedAll(G, deps, st, deps[x], r1) && Stepped(G, deps, r1.value, x, |deps[x]|, r)
    ensures Demanded(G, deps, st, x, r)
  {
    assert r1.value.stack[..|r1.value.stack| - |deps[x]|] == st.stack;
    KeepsTrans(G, deps, st, r1.value, r.value);
  }

  /** Demand-driven evaluation of `x` pushes exactly one value, `x`'s cached
      output, and settles `x` without disturbing settled nodes. */
  lemma {:induction false} DemandSpec(G: Graph, deps: map<int, seq<int>>, rank: map<int, nat>, x: int, st: EvalState, fdiv: (real, real) -> real)
    requires Ready(G, deps, rank) && x in deps && Inv(G, deps, st)
    ensures Demanded(G, deps, st, x, Demand(deps, rank, x, st, fdiv))
    decreases rank[x], 1, 0
  {
    var src := deps[x];
    DemandAllSpec(G, deps, rank, src, st, rank[x], fdiv);
    var r1 := DemandAll(deps, rank, src, st, rank[x], fdiv);
    StepSpec(G, deps, rank, x, r1.value, fdiv);
    DemandedStep(G, deps, st, r1, Step(r1.value, EvalNode(x, |src|), fdiv), x);
  }

  /** Evaluating the nodes of `stk` in order pushes one value per node, in
      that order, each equal to that node's cached output. */
  lemma {:induction false} DemandAllSpec(G: Graph, deps: map<int, seq<int>>, rank: map<int, nat>, stk: seq<int>, st: EvalState, b: nat, fdiv: (real, real) -> real)
    requires Ready(G, deps, rank) && Below(deps, rank, stk, b) && Inv(G, deps, st)
    ensures DemandedAll(G, deps, st, stk, DemandAll(deps, rank, stk, st, b, fdiv))
    decreases b, 0, |stk|
  {
    if stk == [] {
      DemandedNone(G, deps, st);
    } else {
      var x := stk[|stk| - 1];
      var pre := stk[..|stk| - 1];
      assert pre + [x] == stk;
      DemandAllUnfold(deps, rank, stk, st, b, fdiv);
      DemandAllSpec(G, deps, rank, pre, st, b, fdiv);
      var r1 := DemandAll(deps, rank, pre, st, b, fdiv);
      DemandSpec(G, deps, rank, x, r1.value, fdiv);
      DemandedSnoc(G, deps, st, r1, Demand(deps, rank, x, r1.value, fdiv), pre, x);
    }
  }

  // ---------------------------------------------------------------------------
  // What the evaluated nodes hold

  /** The cached outputs of the nodes `ys`, in order. */
  function Outputs(g: Graph, ys: seq<int>): (r: seq<PortData>)
    requires forall i :: 0 <= i < |ys| ==> ys[i] in g.nodes && HasOutput(g.nodes[ys[i]])
    ensures |r| == |ys| && forall i :: 0 <= i < |ys| ==> r[i] == OutData(g.nodes[ys[i]])
  {
    seq(|ys|, i requires 0 <= i < |ys| => OutData(g.nodes[ys[i]]))
  }

  /** Node `y` of `g` caches what the evaluation function of `y` in the
      original graph `G` computes from the cached outputs of `src`, taken as
      operands in order. */
  predicate Computes(G: Graph, g: Graph, y: int, src: seq<int>, fdiv: (real, real) -> real)
  {
    && y in G.nodes && G.nodes[y].evalFunc.Some?
    && y in g.nodes && HasOutput(g.nodes[y])
    && (forall i :: 0 <= i < |src| ==> src[i] in g.nodes && HasOutput(g.nodes[src[i]]))
    && EvalDefined(G.nodes[y].evalFunc.value, G.nodes[y], Outputs(g, src))
    && OutData(g.nodes[y]) == Reference(G.nodes[y].evalFunc.value, G.nodes[y], Outputs(g, src), fdiv)
  }

  /** An evaluated node: its sources are settled and it caches its
      function's value on their outputs. */
  ghost predicate ComputedAt(G: Graph, deps: map<int, seq<int>>, st: EvalState, y: int, fdiv: (real, real) -> real)
  {
    && y in deps
    && (forall i :: 0 <= i < |deps[y]| ==> Settled(G, deps, st, deps[y][i]))
    && Computes(G, st.g, y, deps[y], fdiv)
  }

  /** The Static values of `G` are still in place in `g`. */
  ghost predicate StaticsKept(G: Graph, g: Graph)
  {
    forall y :: y in G.nodes && HasStatic(G.nodes[y]) ==>
      y in g.nodes && HasStatic(g.nodes[y]) && StaticData(g.nodes[y]) == StaticData(G.nodes[y])
  }

  ghost predicate Computed(G: Graph, deps: map<int, seq<int>>, st: EvalState, fdiv: (real, real) -> real)
  {
    && StaticsKept(G, st.g)
    && forall y :: y in st.evaluated ==> ComputedAt(G, deps, st, y, fdiv)
  }

  /** A step writes at most one cached output and marks at most the
      stepped node. */
  lemma StepFrame(G: Graph, st: EvalState, en: EvalNode, fdiv: (real, real) -> real)
    requires StaticsKept(G, st.g) && Step(st, en, fdiv).Some?
    ensures var s := Step(st, en, fdiv).value;
      && StaticsKept(G, s.g)
      && s.evaluated <= st.evaluated + {en.id}
      && (en.id in s.evaluated && en.id !in st.evaluated ==>
            en.id in st.g.nodes && en.sourceCount == st.g.nodes[en.id].inputPortCount
            && s == StepEval(st, en.id, fdiv).value)
  {
    var s := Step(st, en, fdiv).value;
    var x := en.id;
    var n := st.g.nodes[x];
    if s.g != st.g {
      assert HasOutput(n) && s.g == UpdateNode(st.g, x, SetOutput(n, OutData(s.g.nodes[x])));
      forall y | y in G.nodes && HasStatic(G.nodes[y])
        ensures y in s.g.nodes && HasStatic(s.g.nodes[y]) && StaticData(s.g.nodes[y]) == StaticData(G.nodes[y])
      {
        if y == x {
          SetOutputKeepsStatic(n, OutData(s.g.nodes[x]));
        }
      }
    }
  }

  /** What an evaluated node holds survives a change that keeps settled
      nodes and their outputs. */
  lemma ComputedKeeps(G: Graph, deps: map<int, seq<int>>, st: EvalState, s: EvalState, fdiv: (real, real) -> real)
    requires Inv(G, deps, st) && Keeps(G, deps, st, s)
    requires forall y :: y in st.evaluated ==> ComputedAt(G, deps, st, y, fdiv)
    ensures forall y :: y in st.evaluated ==> y in s.evaluated && ComputedAt(G, deps, s, y, fdiv)
  {
    forall y | y in st.evaluated ensures y in s.evaluated && ComputedAt(G, deps, s, y, fdiv) {
      assert Settled(G, deps, st, y);
      var src := deps[y];
      forall i | 0 <= i < |src| ensures Settled(G, deps, s, src[i]) {
        assert Settled(G, deps, st, src[i]);
      }
      assert Outputs(s.g, src) == Outputs(st.g, src);
    }
  }

  /** After pushing the outputs of `src`, the stack is the old one followed
      by those outputs. */
  lemma PushedOutputs(G: Graph, deps: map<int, seq<int>>, st: EvalState, s: EvalState, src: seq<int>)
    requires Pushed(G, deps, st, s, src)
    ensures forall i :: 0 <= i < |src| ==> src[i] in s.g.nodes && HasOutput(s.g.nodes[src[i]])
    ensures s.stack == st.stack + Outputs(s.g, src)
  {
    forall i | 0 <= i < |src| ensures src[i] in s.g.nodes && HasOutput(s.g.nodes[src[i]]) {
      assert Settled(G, deps, s, src[i]);
    }
    var ops := Outputs(s.g, src);
    assert s.stack == s.stack[..|st.stack|] + s.stack[|st.stack|..];
    assert s.stack[|st.stack|..] == ops;
  }

  /** The first evaluation of a full node `x`, whose sources' outputs are on
      top of the stack, pushes its function's value on those outputs. */
  lemma NewValue(G: Graph, deps: map<int, seq<int>>, x: int, st: EvalState, r1: EvalState, fdiv: (real, real) -> real)
    requires x in deps && deps.Keys == G.nodes.Keys && Evaluable(G.nodes[x]) && Full(G, deps, x)
    requires Inv(G, deps, r1) && StaticsKept(G, r1.g) && Pushed(G, deps, st, r1, deps[x]) && x !in r1.evaluated
    ensures forall i :: 0 <= i < |deps[x]| ==> deps[x][i] in r1.g.nodes && HasOutput(r1.g.nodes[deps[x][i]])
    ensures var N := G.nodes[x];
      var ops := Outputs(r1.g, deps[x]);
      var r := Step(r1, EvalNode(x, |deps[x]|), fdiv);
      && r.Some? && |r.value.stack| > 0
      && EvalDefined(N.evalFunc.value, N, ops)
      && Top(r.value.stack) == Reference(N.evalFunc.value, N, ops, fdiv)
  {
    var n1 := r1.g.nodes[x];
    var N := G.nodes[x];
    var k := N.evalFunc.value;
    StripFacts(n1, N);
    StepEvalResult(r1, x, fdiv);
    PushedOutputs(G, deps, st, r1, deps[x]);
    var ops := Outputs(r1.g, deps[x]);
    ReferenceSuffix(k, n1, st.stack, ops, fdiv);
    if k == Constant {
      assert StaticData(n1) == StaticData(N);
    }
  }

  /** The first evaluation of a full node `x`, whose sources' outputs are
      on top of the stack, caches its function's value on them. */
  lemma NewComputed(G: Graph, deps: map<int, seq<int>>, x: int, st: EvalState, r1: EvalState, fdiv: (real, real) -> real)
    requires x in deps && deps.Keys == G.nodes.Keys && Evaluable(G.nodes[x]) && Full(G, deps, x)
    requires Inv(G, deps, r1) && StaticsKept(G, r1.g) && Pushed(G, deps, st, r1, deps[x]) && x !in r1.evaluated
    ensures var r := Step(r1, EvalNode(x, |deps[x]|), fdiv);
      r.Some? && (Stepped(G, deps, r1, x, |deps[x]|, r) ==> ComputedAt(G, deps, r.value, x, fdiv))
  {
    NewValue(G, deps, x, st, r1, fdiv);
    var src := deps[x];
    var r := Step(r1, EvalNode(x, |src|), fdiv);
    var ops := Outputs(r1.g, src);
    if Stepped(G, deps, r1, x, |src|, r) {
      var s := r.value;
      assert Top(s.stack) == OutData(s.g.nodes[x]);
      forall i | 0 <= i < |src| ensures Settled(G, deps, s, src[i]) && OutData(s.g.nodes[src[i]]) == ops[i] {
        assert Settled(G, deps, r1, src[i]);
      }
      assert Outputs(s.g, src) == ops;
    }
  }

  /** Stepping `x` after its sources were evaluated keeps every evaluated
      node computed, `x` included. */
  lemma StepComputed(G: Graph, deps: map<int, seq<int>>, rank: map<int, nat>, x: int, st: EvalState, r1: EvalState,
                     fdiv: (real, real) -> real)
    requires Ready(G, deps, rank) && x in deps
    requires DemandedAll(G, deps, st, deps[x], Some(r1)) && Computed(G, deps, r1, fdiv)
    ensures Step(r1, EvalNode(x, |deps[x]|), fdiv).Some?
    ensures Computed(G, deps, Step(r1, EvalNode(x, |deps[x]|), fdiv).value, fdiv)
  {
    var en := EvalNode(x, |deps[x]|);
    StepSpec(G, deps, rank, x, r1, fdiv);
    var s := Step(r1, en, fdiv).value;
    StepFrame(G, r1, en, fdiv);
    ComputedKeeps(G, deps, r1, s, fdiv);
    if x in s.evaluated && x !in r1.evaluated {
      NewComputed(G, deps, x, st, r1, fdiv);
    }
  }

  /** Demand-driven evaluation keeps every evaluated node computed. */
  lemma {:induction false} DemandComputed(G: Graph, deps: map<int, seq<int>>, rank: map<int, nat>, x: int, st: EvalState,
                                          fdiv: (real, real) -> real)
    requires Ready(G, deps, rank) && x in deps && Inv(G, deps, st) && Computed(G, deps, st, fdiv)
    ensures Demand(deps, rank, x, st, fdiv).Some? && Computed(G, deps, Demand(deps, rank, x, st, fdiv).value, fdiv)
    decreases rank[x], 1, 0
  {
    var src := deps[x];
    DemandAllSpec(G, deps, rank, src, st, rank[x], fdiv);
    DemandAllComputed(G, deps, rank, src, st, rank[x], fdiv);
    var r1 := DemandAll(deps, rank, src, st, rank[x], fdiv).value;
    StepComputed(G, deps, rank, x, st, r1, fdiv);
  }

  lemma {:induction false} DemandAllComputed(G: Graph, deps: map<int, seq<int>>, rank: map<int, nat>, stk: seq<int>, st: EvalState,
                                             b: nat, fdiv: (real, real) -> real)
    requires Ready(G, deps, rank) && Below(deps, rank, stk, b) && Inv(G, deps, st) && Computed(G, deps, st, fdiv)
    ensures DemandAll(deps, rank, stk, st, b, fdiv).Some?
    ensures Computed(G, deps, DemandAll(deps, rank, stk, st, b, fdiv).value, fdiv)
    decreases b, 0, |stk|
  {
    if stk != [] {
      var x := stk[|stk| - 1];
      var pre := stk[..|stk| - 1];
      DemandAllUnfold(deps, rank, stk, st, b, fdiv);
      DemandAllSpec(G, deps, rank, pre, st, b, fdiv);
      DemandAllComputed(G, deps, rank, pre, st, b, fdiv);
      var r1 := DemandAll(deps, rank, pre, st, b, fdiv).value;
      DemandComputed(G, deps, rank, x, r1, fdiv);
    }
  }

  // ---------------------------------------------------------------------------
  // One pass and the whole update

  lemma ShapeHasOutput(G: Graph, g: Graph, y: int)
    requires SameShape(G, g) && y in G.nodes && Evaluable(G.nodes[y])
    ensures y in g.nodes && HasOutput(g.nodes[y])
  {
    StripFacts(g.nodes[y], G.nodes[y]);
  }

  lemma InvClearStack(G: Graph, deps: map<int, seq<int>>, st: EvalState)
    requires Inv(G, deps, st)
    ensures Inv(G, deps, st.(stack := []))
  {
  }

  lemma KeepsClearStack(G: Graph, deps: map<int, seq<int>>, st: EvalState, s: EvalState)
    requires Keeps(G, deps, st.(stack := []), s)
    ensures Keeps(G, deps, st, s)
  {
    forall y | Settled(G, deps, st, y)
      ensures Settled(G, deps, s, y) && OutData(s.g.nodes[y]) == OutData(st.g.nodes[y])
    {
      assert Settled(G, deps, st.(stack := []), y);
    }
  }

  lemma TakeSnoc(s: seq<int>, i: nat)
    requires i < |s|
    ensures s[..i + 1] == s[..i] + [s[i]]
  {
  }

  /** Demand-driven evaluation of `x` from an empty stack leaves exactly
      `x`'s cached output on it. */
  lemma PassSpec(G: Graph, deps: map<int, seq<int>>, rank: map<int, nat>, x: int, st: EvalState, fdiv: (real, real) -> real)
    requires Ready(G, deps, rank) && Inv(G, deps, st) && x in G.nodes
    ensures Demand(deps, rank, x, st.(stack := []), fdiv).Some?
    ensures var r := Demand(deps, rank, x, st.(stack := []), fdiv).value;
      && Inv(G, deps, r) && Settled(G, deps, r, x) && Keeps(G, deps, st, r)
      && r.stack == [OutData(r.g.nodes[x])]
  {
    var st0 := st.(stack := []);
    InvClearStack(G, deps, st);
    DemandSpec(G, deps, rank, x, st0, fdiv);
    KeepsClearStack(G, deps, st, Demand(deps, rank, x, st0, fdiv).value);
  }

  /** A pass from `x` keeps every evaluated node computed. */
  lemma PassComputed(G: Graph, deps: map<int, seq<int>>, rank: map<int, nat>, x: int, st: EvalState, fdiv: (real, real) -> real)
    requires Ready(G, deps, rank) && Inv(G, deps, st) && x in G.nodes && Computed(G, deps, st, fdiv)
    ensures Demand(deps, rank, x, st.(stack := []), fdiv).Some?
    ensures Computed(G, deps, Demand(deps, rank, x, st.(stack := []), fdiv).value, fdiv)
  {
    InvClearStack(G, deps, st);
    DemandComputed(G, deps, rank, x, st.(stack := []), fdiv);
  }

  /** The compiled order of a pass from `x` is the preorder `Lin`. */
  lemma PassOrder(G: Graph, g: Graph, deps: map<int, seq<int>>, rank: map<int, nat>, x: int)
    requires IsDeps(G, deps) && DepsRanked(deps, rank) && SameShape(G, g) && x in G.nodes
    ensures IsDeps(g, deps) && x in rank && Below(deps, rank, [x], rank[x] + 1)
    ensures Dfs(g, deps, rank, [x], [], rank[x] + 1) == Lin(deps, rank, x)
  {
    IsDepsShape(G, g, deps);
    DfsRoot(g, deps, rank, x);
  }

  /** One pass of the outer loop (grapheval.cpp:23-65) from node `x`: the
      compiled order is replayed on an empty stack, which ends holding
      exactly `x`'s cached output; `x` is settled, settled nodes keep their
      values, and the pass equals demand-driven evaluation of `x`. */
  method RunPass(G: Graph, deps: map<int, seq<int>>, rank: map<int, nat>, x: int, st: EvalState, fdiv: (real, real) -> real)
    returns (r: EvalState)
    requires Ready(G, deps, rank) && IsDeps(G, deps) && Inv(G, deps, st) && x in G.nodes
    requires Computed(G, deps, st, fdiv)
    ensures Inv(G, deps, r) && Settled(G, deps, r, x) && Keeps(G, deps, st, r)
    ensures r.stack == [OutData(r.g.nodes[x])]
    ensures Some(r) == Demand(deps, rank, x, st.(stack := []), fdiv)
    ensures Computed(G, deps, r, fdiv)
  {
    var st0 := st.(stack := []);
    PassOrder(G, st.g, deps, rank, x);
    var order := Dfs(st.g, deps, rank, [x], [], rank[x] + 1);
    ReplayLin(deps, rank, x, st0, fdiv);
    PassSpec(G, deps, rank, x, st, fdiv);
    PassComputed(G, deps, rank, x, st, fdiv);
    r := Replay(order, st0, fdiv).value;
  }

  predicate AllSettled(G: Graph, deps: map<int, seq<int>>, st: EvalState, ys: seq<int>)
  {
    forall j :: 0 <= j < |ys| ==> Settled(G, deps, st, ys[j])
  }

  lemma KeepsPrefix(G: Graph, deps: map<int, seq<int>>, st: EvalState, s: EvalState, ys: seq<int>)
    requires AllSettled(G, deps, st, ys) && Keeps(G, deps, st, s)
    ensures AllSettled(G, deps, s, ys)
  {
  }

  lemma SettledSnoc(G: Graph, deps: map<int, seq<int>>, st: EvalState, s: EvalState, ys: seq<int>, x: int)
    requires AllSettled(G, deps, st, ys) && Keeps(G, deps, st, s) && Settled(G, deps, s, x)
    ensures AllSettled(G, deps, s, ys + [x])
  {
    KeepsPrefix(G, deps, st, s, ys);
  }

  /** One iteration of the outer loop of `update` (grapheval.cpp:19-66):
      `x` is skipped when an earlier pass evaluated it, otherwise a pass
      runs from it. Either way `x` ends settled, and so do the nodes `done`
      that earlier iterations settled. */
  method Visit(G: Graph, deps: map<int, seq<int>>, rank: map<int, nat>, done: seq<int>, x: int, st: EvalState,
               fdiv: (real, real) -> real)
    returns (r: EvalState)
    requires Ready(G, deps, rank) && IsDeps(G, deps) && Inv(G, deps, st) && x in G.nodes
    requires AllSettled(G, deps, st, done) && Computed(G, deps, st, fdiv)
    ensures Inv(G, deps, r) && AllSettled(G, deps, r, done + [x]) && Computed(G, deps, r, fdiv)
    ensures x in st.evaluated ==> r == st
  {
    if x in st.evaluated {
      ShapeHasOutput(G, st.g, x);
      r := st;
    } else {
      r := RunPass(G, deps, rank, x, st, fdiv);
    }
    SettledSnoc(G, deps, st, r, done, x);
  }

  /** The outer loop of `update` (grapheval.cpp:19-21) over the nodes in
      `order`: afterwards every listed node is settled. */
  method AllPasses(G: Graph, deps: map<int, seq<int>>, rank: map<int, nat>, order: seq<int>, fdiv: (real, real) -> real)
    returns (r: EvalState)
    requires Ready(G, deps, rank) && IsDeps(G, deps)
    requires forall i :: 0 <= i < |order| ==> order[i] in G.nodes
    ensures Inv(G, deps, r)
    ensures AllSettled(G, deps, r, order)
    ensures Computed(G, deps, r, fdiv)
  {
    r := EvalState(G, {}, [], []);
    var i := 0;
    while i < |order|
      invariant 0 <= i <= |order|
      invariant Inv(G, deps, r)
      invariant AllSettled(G, deps, r, order[..i])
      invariant Computed(G, deps, r, fdiv)
    {
      TakeSnoc(order, i);
      r := Visit(G, deps, rank, order[..i], order[i], r, fdiv);
      i := i + 1;
    }
    assert order[..i] == order;
  }

  /** `GraphEval::update` (grapheval.cpp:14-67). `order` is the iteration
      order of the node map: any sequence listing exactly its keys. The
      source has no cycle detection, so acyclicity (`rank`) and the
      well-formedness the lookups need are preconditions. Afterwards the
      evaluated nodes are exactly the fully connected ones, every other
      node caches the default value, nothing but cached port data changed,
      no evaluation function ran twice, and every evaluated node caches its
      function's value on the cached outputs of its sources, taken in the
      order of its input ports. */
  method Update(G: Graph, order: seq<int>, rank: map<int, nat>, fdiv: (real, real) -> real) returns (r: EvalState)
    requires Wf(G) && Ranked(G, rank)
    requires forall i :: 0 <= i < |order| ==> order[i] in G.nodes
    requires forall k :: k in G.nodes ==> k in order
    ensures SameShape(G, r.g)
    ensures forall y :: y in G.nodes ==> y in r.g.nodes && HasOutput(r.g.nodes[y])
    ensures forall y :: y in r.evaluated <==>
      y in G.nodes && |OrderedSourceNodesForNode(G, y)| == G.nodes[y].inputPortCount
    ensures forall y :: y in G.nodes && |OrderedSourceNodesForNode(G, y)| != G.nodes[y].inputPortCount ==>
      OutData(r.g.nodes[y]) == Default()
    ensures NoDup(r.ran) && forall y :: y in r.ran <==> y in r.evaluated
    ensures forall y :: y in r.evaluated ==> Computes(G, r.g, y, Sources(G, y), fdiv)
  {
    var deps := Deps(G);
    DepsIsDeps(G);
    RankedDeps(G, rank);
    r := AllPasses(G, deps, rank, order, fdiv);
    forall y | y in G.nodes
      ensures Settled(G, deps, r, y)
      ensures Full(G, deps, y) <==> |OrderedSourceNodesForNode(G, y)| == G.nodes[y].inputPortCount
    {
      var j :| 0 <= j < |order| && order[j] == y;
    }
  }
}
