/** The per-kind evaluation functions of grapheval.cpp and the first-match
    operand dispatch they share.

    The operand stack is a `seq<PortData>` whose last element is the top.
    An evaluation function maps a node and a stack to the node with its
    Output port's cached value updated and the new stack. Float arithmetic
    is modelled on reals; Div's component operation is the parameter `fdiv`,
    about which nothing is assumed. */
module EvalFuncs {
  import opened Wrappers
  import opened PortValues
  import opened Graphs

  // ---------------------------------------------------------------------------
  // Output and Static ports

  function DirIndexFrom(ports: seq<Port>, dir: Dir, from: nat): (r: Option<nat>)
    requires from <= |ports|
    ensures r.Some? ==> from <= r.value < |ports| && ports[r.value].dir == dir
    ensures r.Some? ==> forall j :: from <= j < r.value ==> ports[j].dir != dir
    ensures r.None? <==> forall j :: from <= j < |ports| ==> ports[j].dir != dir
    decreases |ports| - from
  {
    if from == |ports| then None
    else if ports[from].dir == dir then Some(from)
    else DirIndexFrom(ports, dir, from + 1)
  }

  /** The index of the first port of direction `dir`. */
  function DirIndex(ports: seq<Port>, dir: Dir): (r: Option<nat>)
    ensures r.Some? ==> r.value < |ports| && ports[r.value].dir == dir
    ensures r.Some? ==> forall j :: 0 <= j < r.value ==> ports[j].dir != dir
    ensures r.None? <==> forall j :: 0 <= j < |ports| ==> ports[j].dir != dir
  {
    DirIndexFrom(ports, dir, 0)
  }

  /** The direction search only looks at directions. */
  lemma {:induction false} DirIndexFromSameDirs(a: seq<Port>, b: seq<Port>, dir: Dir, from: nat)
    requires from <= |a| == |b|
    requires forall i :: 0 <= i < |a| ==> a[i].dir == b[i].dir
    ensures DirIndexFrom(a, dir, from) == DirIndexFrom(b, dir, from)
    decreases |a| - from
  {
    if from < |a| {
      DirIndexFromSameDirs(a, b, dir, from + 1);
    }
  }

  predicate HasOutput(n: Node)
  {
    DirIndex(n.ports, Output).Some?
  }

  predicate HasStatic(n: Node)
  {
    DirIndex(n.ports, Static).Some?
  }

  /** The cached value of `outPort(node)`, the first Output port; the C++
      dereferences the search result unchecked, so the port must exist. */
  function OutData(n: Node): PortData
    requires HasOutput(n)
  {
    n.ports[DirIndex(n.ports, Output).value].data
  }

  /** The literal held by the first Static port. */
  function StaticData(n: Node): PortData
    requires HasStatic(n)
  {
    n.ports[DirIndex(n.ports, Static).value].data
  }

  /** `outPort(node).data = v`: only the cached value of the first Output
      port changes. */
  function SetOutput(n: Node, v: PortData): (r: Node)
    requires HasOutput(n)
    ensures HasOutput(r) && OutData(r) == v
    ensures DirIndex(r.ports, Output) == DirIndex(n.ports, Output)
    ensures r.id == n.id && r.nodeType == n.nodeType && r.inputPortCount == n.inputPortCount
    ensures r.evalFunc == n.evalFunc && r.text == n.text && |r.ports| == |n.ports|
    ensures forall i :: 0 <= i < |n.ports| ==> r.ports[i].(data := Default()) == n.ports[i].(data := Default())
    ensures forall i :: 0 <= i < |n.ports| && i != DirIndex(n.ports, Output).value ==> r.ports[i] == n.ports[i]
  {
    var i := DirIndex(n.ports, Output).value;
    var r := n.(ports := n.ports[i := n.ports[i].(data := v)]);
    DirIndexFromSameDirs(n.ports, r.ports, Output, 0);
    r
  }

  /** Setting the output does not move the Static port or its literal. */
  lemma SetOutputKeepsStatic(n: Node, v: PortData)
    requires HasOutput(n) && HasStatic(n)
    ensures HasStatic(SetOutput(n, v)) && StaticData(SetOutput(n, v)) == StaticData(n)
  {
    var r := SetOutput(n, v);
    var s := DirIndex(n.ports, Static).value;
    assert r.ports[s].dir == Static;
    assert DirIndex(r.ports, Static) == Some(s);
  }

  // ---------------------------------------------------------------------------
  // Constant

  /** `evalConstantNode`: pops nothing, pushes the Static port's literal and
      caches it on the Output port. */
  function EvalConstant(n: Node, stack: seq<PortData>): (r: (Node, seq<PortData>))
    requires HasStatic(n) && HasOutput(n)
    ensures |r.1| == |stack| + 1 && r.1[..|stack|] == stack
    ensures r.1[|stack|] == StaticData(n)
    ensures r.0 == SetOutput(n, StaticData(n))
  {
    var v := StaticData(n);
    (SetOutput(n, v), stack + [v])
  }

  // ---------------------------------------------------------------------------
  // First-match dispatch over operand shapes

  /** A binary signature: the shapes the left and right operands must have. */
  datatype Sig2 = Sig2(lhs: Shape, rhs: Shape)

  /** The signatures Plus, Minus and Div try, in source order. */
  const ElementwiseSigs: seq<Sig2> :=
    [Sig2(SFloat, SFloat), Sig2(SVec2, SVec2), Sig2(SVec3, SVec3), Sig2(SVec4, SVec4)]

  /** The signatures Mul tries, in source order. */
  const MulSigs: seq<Sig2> :=
    [ Sig2(SFloat, SFloat),
      Sig2(SVec2, SVec2), Sig2(SVec2, SFloat), Sig2(SFloat, SVec2),
      Sig2(SVec3, SVec3), Sig2(SVec3, SFloat), Sig2(SFloat, SVec3),
      Sig2(SVec4, SVec4), Sig2(SVec4, SFloat), Sig2(SFloat, SVec4) ]

  /** The shapes Negate tries, in source order. */
  const NegateSigs: seq<Shape> := [SFloat, SVec2, SVec3, SVec4]

  /** The lambda attached to each binary signature, expressed once over all
      shapes: elementwise on equal shapes, the scalar broadcast otherwise. */
  function Combine2(f: (real, real) -> real, a: Data, b: Data): Data
  {
    match (a, b)
    case (Float(p), Float(q)) => Float(f(p, q))
    case (Vec2(a0, a1), Vec2(b0, b1)) => Vec2(f(a0, b0), f(a1, b1))
    case (Vec2(a0, a1), Float(q)) => Vec2(f(a0, q), f(a1, q))
    case (Float(p), Vec2(b0, b1)) => Vec2(f(p, b0), f(p, b1))
    case (Vec3(a0, a1, a2), Vec3(b0, b1, b2)) => Vec3(f(a0, b0), f(a1, b1), f(a2, b2))
    case (Vec3(a0, a1, a2), Float(q)) => Vec3(f(a0, q), f(a1, q), f(a2, q))
    case (Float(p), Vec3(b0, b1, b2)) => Vec3(f(p, b0), f(p, b1), f(p, b2))
    case (Vec4(a0, a1, a2, a3), Vec4(b0, b1, b2, b3)) => Vec4(f(a0, b0), f(a1, b1), f(a2, b2), f(a3, b3))
    case (Vec4(a0, a1, a2, a3), Float(q)) => Vec4(f(a0, q), f(a1, q), f(a2, q), f(a3, q))
    case (Float(p), Vec4(b0, b1, b2, b3)) => Vec4(f(p, b0), f(p, b1), f(p, b2), f(p, b3))
    case _ => Empty
  }

  /** The lambda attached to each unary signature: elementwise. */
  function Map1(f: real -> real, a: Data): Data
  {
    match a
    case Float(p) => Float(f(p))
    case Vec2(x, y) => Vec2(f(x), f(y))
    case Vec3(x, y, z) => Vec3(f(x), f(y), f(z))
    case Vec4(x, y, z, w) => Vec4(f(x), f(y), f(z), f(w))
    case _ => Empty
  }

  function Top(stack: seq<PortData>): PortData
    requires |stack| > 0
  {
    stack[|stack| - 1]
  }

  /** `pushArith2Result`: pop two, push `v`, cache `v` on the Output port. */
  function PushArith2Result(stack: seq<PortData>, n: Node, v: PortData): (r: (Node, seq<PortData>))
    requires |stack| >= 2 && HasOutput(n)
    ensures Arith2Effect(n, stack, r, v)
  {
    (SetOutput(n, v), stack[..|stack| - 2] + [v])
  }

  /** `pushArith1Result`: pop one, push `v`, cache `v` on the Output port. */
  function PushArith1Result(stack: seq<PortData>, n: Node, v: PortData): (r: (Node, seq<PortData>))
    requires |stack| >= 1 && HasOutput(n)
    ensures |r.1| == |stack| && r.1[..|stack| - 1] == stack[..|stack| - 1]
    ensures Top(r.1) == v && r.0 == SetOutput(n, v) && OutData(r.0) == v
  {
    (SetOutput(n, v), stack[..|stack| - 1] + [v])
  }

  /** `evalArith2Node`: when the operands below and at the top of the stack
      have the signature's shapes, pops both and pushes the result; otherwise
      reports failure and changes nothing. */
  function TryArith2(n: Node, stack: seq<PortData>, sig: Sig2, f: (real, real) -> real): (r: Option<(Node, seq<PortData>)>)
    requires |stack| >= 2 && HasOutput(n)
    ensures var lhs, rhs := stack[|stack| - 2], stack[|stack| - 1];
      r.Some? <==> ShapeOf(lhs.d) == sig.lhs && ShapeOf(rhs.d) == sig.rhs
    ensures r.Some? ==> r.value == PushArith2Result(stack, n, PortData(Combine2(f, stack[|stack| - 2].d, stack[|stack| - 1].d), ""))
  {
    var rhs := stack[|stack| - 1];
    var lhs := stack[|stack| - 2];
    if ShapeOf(lhs.d) == sig.lhs && ShapeOf(rhs.d) == sig.rhs then
      Some(PushArith2Result(stack, n, PortData(Combine2(f, lhs.d, rhs.d), "")))
    else None
  }

  /** `evalArith1Node`, the unary counterpart of TryArith2. */
  function TryArith1(n: Node, stack: seq<PortData>, sig: Shape, f: real -> real): (r: Option<(Node, seq<PortData>)>)
    requires |stack| >= 1 && HasOutput(n)
    ensures r.Some? <==> ShapeOf(Top(stack).d) == sig
    ensures r.Some? ==> r.value == PushArith1Result(stack, n, PortData(Map1(f, Top(stack).d), ""))
  {
    var src := Top(stack);
    if ShapeOf(src.d) == sig then Some(PushArith1Result(stack, n, PortData(Map1(f, src.d), "")))
    else None
  }

  /** A body of if-chained TryArith2 calls: the first signature that matches
      produces the result; when none does, two operands are popped and the
      default value is pushed. Whatever happens, the stack shrinks by one. */
  function FirstMatch2(n: Node, stack: seq<PortData>, sigs: seq<Sig2>, f: (real, real) -> real): (r: (Node, seq<PortData>))
    requires |stack| >= 2 && HasOutput(n)
    ensures var lhs, rhs := stack[|stack| - 2], stack[|stack| - 1];
      var v := if Sig2(ShapeOf(lhs.d), ShapeOf(rhs.d)) in sigs then PortData(Combine2(f, lhs.d, rhs.d), "") else Default();
      r == PushArith2Result(stack, n, v)
  {
    if sigs == [] then PushArith2Result(stack, n, Default())
    else match TryArith2(n, stack, sigs[0], f)
      case Some(res) => res
      case None => FirstMatch2(n, stack, sigs[1..], f)
  }

  /** The unary counterpart of FirstMatch2. */
  function FirstMatch1(n: Node, stack: seq<PortData>, sigs: seq<Shape>, f: real -> real): (r: (Node, seq<PortData>))
    requires |stack| >= 1 && HasOutput(n)
    ensures var v := if ShapeOf(Top(stack).d) in sigs then PortData(Map1(f, Top(stack).d), "") else Default();
      r == PushArith1Result(stack, n, v)
  {
    if sigs == [] then PushArith1Result(stack, n, Default())
    else match TryArith1(n, stack, sigs[0], f)
      case Some(res) => res
      case None => FirstMatch1(n, stack, sigs[1..], f)
  }

  // ---------------------------------------------------------------------------
  // The arithmetic evaluation functions

  /** The common effect of a binary evaluation function: two operands
      replaced by one result `v`, which is also cached on the Output port. */
  predicate Arith2Effect(n: Node, stack: seq<PortData>, r: (Node, seq<PortData>), v: PortData)
    requires |stack| >= 2 && HasOutput(n)
  {
    && |r.1| == |stack| - 1
    && r.1[..|stack| - 2] == stack[..|stack| - 2]
    && r.1[|stack| - 2] == v
    && r.0 == SetOutput(n, v)
  }

  function Sum(p: real, q: real): real { p + q }

  function Difference(p: real, q: real): real { p - q }

  /** What Plus, Minus and Div compute with the component
      operation `f`: elementwise on operands of equal vector or scalar shape,
      Empty otherwise. */
  function ElementwiseReference(f: (real, real) -> real, a: Data, b: Data): PortData
  {
    match (a, b)
    case (Float(p), Float(q)) => PortData(Float(f(p, q)), "")
    case (Vec2(a0, a1), Vec2(b0, b1)) => PortData(Vec2(f(a0, b0), f(a1, b1)), "")
    case (Vec3(a0, a1, a2), Vec3(b0, b1, b2)) => PortData(Vec3(f(a0, b0), f(a1, b1), f(a2, b2)), "")
    case (Vec4(a0, a1, a2, a3), Vec4(b0, b1, b2, b3)) => PortData(Vec4(f(a0, b0), f(a1, b1), f(a2, b2), f(a3, b3)), "")
    case _ => Default()
  }

  /** The four signatures of ElementwiseSigs, tried in order, compute
      ElementwiseReference. */
  lemma ElementwiseDispatchMatchesReference(f: (real, real) -> real, a: Data, b: Data)
    ensures ElementwiseReference(f, a, b) ==
      if Sig2(ShapeOf(a), ShapeOf(b)) in ElementwiseSigs then PortData(Combine2(f, a, b), "")
      else Default()
  {
    assert Sig2(ShapeOf(a), ShapeOf(b)) in ElementwiseSigs <==>
      (a.Float? && b.Float?) || (a.Vec2? && b.Vec2?) || (a.Vec3? && b.Vec3?) || (a.Vec4? && b.Vec4?);
  }

  /** A binary evaluation function dispatching over ElementwiseSigs. */
  function EvalElementwise(n: Node, stack: seq<PortData>, f: (real, real) -> real): (r: (Node, seq<PortData>))
    requires |stack| >= 2 && HasOutput(n)
    ensures Arith2Effect(n, stack, r, ElementwiseReference(f, stack[|stack| - 2].d, stack[|stack| - 1].d))
  {
    var v := ElementwiseReference(f, stack[|stack| - 2].d, stack[|stack| - 1].d);
    ElementwiseDispatchMatchesReference(f, stack[|stack| - 2].d, stack[|stack| - 1].d);
    var r := FirstMatch2(n, stack, ElementwiseSigs, f);
    assert r == PushArith2Result(stack, n, v);
    assert r.1 == stack[..|stack| - 2] + [v];
    r
  }

  /** `evalPlusNode`. */
  function EvalPlus(n: Node, stack: seq<PortData>): (r: (Node, seq<PortData>))
    requires |stack| >= 2 && HasOutput(n)
    ensures Arith2Effect(n, stack, r, ElementwiseReference(Sum, stack[|stack| - 2].d, stack[|stack| - 1].d))
  {
    EvalElementwise(n, stack, Sum)
  }

  /** `evalMinusNode`. */
  function EvalMinus(n: Node, stack: seq<PortData>): (r: (Node, seq<PortData>))
    requires |stack| >= 2 && HasOutput(n)
    ensures Arith2Effect(n, stack, r, ElementwiseReference(Difference, stack[|stack| - 2].d, stack[|stack| - 1].d))
  {
    EvalElementwise(n, stack, Difference)
  }

  function Times(p: real, q: real): real { p * q }

  /** The product Mul computes: elementwise on equal
      shapes, a vector scaled by a scalar on either side, Empty otherwise. */
  function MulReference(a: Data, b: Data): PortData
  {
    match (a, b)
    case (Float(p), Float(q)) => PortData(Float(p * q), "")
    case (Vec2(a0, a1), Vec2(b0, b1)) => PortData(Vec2(a0 * b0, a1 * b1), "")
    case (Vec2(a0, a1), Float(q)) => PortData(Vec2(a0 * q, a1 * q), "")
    case (Float(p), Vec2(b0, b1)) => PortData(Vec2(p * b0, p * b1), "")
    case (Vec3(a0, a1, a2), Vec3(b0, b1, b2)) => PortData(Vec3(a0 * b0, a1 * b1, a2 * b2), "")
    case (Vec3(a0, a1, a2), Float(q)) => PortData(Vec3(a0 * q, a1 * q, a2 * q), "")
    case (Float(p), Vec3(b0, b1, b2)) => PortData(Vec3(p * b0, p * b1, p * b2), "")
    case (Vec4(a0, a1, a2, a3), Vec4(b0, b1, b2, b3)) => PortData(Vec4(a0 * b0, a1 * b1, a2 * b2, a3 * b3), "")
    case (Vec4(a0, a1, a2, a3), Float(q)) => PortData(Vec4(a0 * q, a1 * q, a2 * q, a3 * q), "")
    case (Float(p), Vec4(b0, b1, b2, b3)) => PortData(Vec4(p * b0, p * b1, p * b2, p * b3), "")
    case _ => Default()
  }

  /** The shapes MulSigs accepts. */
  lemma MulSigsShapes(sa: Shape, sb: Shape)
    ensures Sig2(sa, sb) in MulSigs <==>
      (sa == SFloat && (sb == SFloat || sb == SVec2 || sb == SVec3 || sb == SVec4)) ||
      ((sa == SVec2 || sa == SVec3 || sa == SVec4) && (sb == sa || sb == SFloat))
  {
  }

  lemma MulScalarLhs(a: Data, b: Data)
    requires a.Float? && (b.Float? || b.Vec2? || b.Vec3? || b.Vec4?)
    ensures MulReference(a, b) == PortData(Combine2(Times, a, b), "")
  {
    match b {
      case Float(q) => assert Combine2(Times, a, b) == Float(Times(a.f, q));
      case Vec2(b0, b1) => assert Combine2(Times, a, b) == Vec2(Times(a.f, b0), Times(a.f, b1));
      case Vec3(b0, b1, b2) => assert Combine2(Times, a, b) == Vec3(Times(a.f, b0), Times(a.f, b1), Times(a.f, b2));
      case Vec4(b0, b1, b2, b3) =>
        assert Combine2(Times, a, b) == Vec4(Times(a.f, b0), Times(a.f, b1), Times(a.f, b2), Times(a.f, b3));
    }
  }

  lemma MulVectorLhs(a: Data, b: Data)
    requires (a.Vec2? || a.Vec3? || a.Vec4?) && (ShapeOf(b) == ShapeOf(a) || b.Float?)
    ensures MulReference(a, b) == PortData(Combine2(Times, a, b), "")
  {
    match a {
      case Vec2(a0, a1) =>
        if b.Float? {
          assert Combine2(Times, a, b) == Vec2(Times(a0, b.f), Times(a1, b.f));
        } else {
          assert Combine2(Times, a, b) == Vec2(Times(a0, b.x), Times(a1, b.y));
        }
      case Vec3(a0, a1, a2) =>
        if b.Float? {
          assert Combine2(Times, a, b) == Vec3(Times(a0, b.f), Times(a1, b.f), Times(a2, b.f));
        } else {
          assert Combine2(Times, a, b) == Vec3(Times(a0, b.x), Times(a1, b.y), Times(a2, b.z));
        }
      case Vec4(a0, a1, a2, a3) =>
        if b.Float? {
          assert Combine2(Times, a, b) == Vec4(Times(a0, b.f), Times(a1, b.f), Times(a2, b.f), Times(a3, b.f));
        } else {
          assert Combine2(Times, a, b) == Vec4(Times(a0, b.x), Times(a1, b.y), Times(a2, b.z), Times(a3, b.w));
        }
    }
  }

  /** The ten signatures of MulSigs, tried in order, compute MulReference. */
  lemma MulDispatchMatchesReference(a: Data, b: Data)
    ensures MulReference(a, b) ==
      if Sig2(ShapeOf(a), ShapeOf(b)) in MulSigs then PortData(Combine2(Times, a, b), "")
      else Default()
  {
    MulSigsShapes(ShapeOf(a), ShapeOf(b));
    if a.Float? && (b.Float? || b.Vec2? || b.Vec3? || b.Vec4?) {
      MulScalarLhs(a, b);
    } else if (a.Vec2? || a.Vec3? || a.Vec4?) && (ShapeOf(b) == ShapeOf(a) || b.Float?) {
      MulVectorLhs(a, b);
    }
  }

  /** `evalMulNode`. */
  function EvalMul(n: Node, stack: seq<PortData>): (r: (Node, seq<PortData>))
    requires |stack| >= 2 && HasOutput(n)
    ensures Arith2Effect(n, stack, r, MulReference(stack[|stack| - 2].d, stack[|stack| - 1].d))
  {
    var v := MulReference(stack[|stack| - 2].d, stack[|stack| - 1].d);
    MulDispatchMatchesReference(stack[|stack| - 2].d, stack[|stack| - 1].d);
    var r := FirstMatch2(n, stack, MulSigs, Times);
    assert r == PushArith2Result(stack, n, v);
    assert r.1 == stack[..|stack| - 2] + [v];
    r
  }

  /** `evalDivNode`, with the component division left as the parameter `fdiv`. */
  function EvalDiv(n: Node, stack: seq<PortData>, fdiv: (real, real) -> real): (r: (Node, seq<PortData>))
    requires |stack| >= 2 && HasOutput(n)
    ensures Arith2Effect(n, stack, r, ElementwiseReference(fdiv, stack[|stack| - 2].d, stack[|stack| - 1].d))
  {
    EvalElementwise(n, stack, fdiv)
  }

  function Negation(p: real): real { -p }

  /** What Negate computes: every component negated, Empty
      for non-vector operands. */
  function NegateReference(a: Data): PortData
  {
    match a
    case Float(p) => PortData(Float(-p), "")
    case Vec2(x, y) => PortData(Vec2(-x, -y), "")
    case Vec3(x, y, z) => PortData(Vec3(-x, -y, -z), "")
    case Vec4(x, y, z, w) => PortData(Vec4(-x, -y, -z, -w), "")
    case _ => Default()
  }

  /** The four shapes of NegateSigs, tried in order, compute NegateReference. */
  lemma NegateDispatchMatchesReference(a: Data)
    ensures NegateReference(a) ==
      if ShapeOf(a) in NegateSigs then PortData(Map1(Negation, a), "") else Default()
  {
    assert ShapeOf(a) in NegateSigs <==> a.Float? || a.Vec2? || a.Vec3? || a.Vec4?;
  }

  /** `evalNegateNode`: the stack keeps its size. */
  function EvalNegate(n: Node, stack: seq<PortData>): (r: (Node, seq<PortData>))
    requires |stack| >= 1 && HasOutput(n)
    ensures |r.1| == |stack| && r.1[..|stack| - 1] == stack[..|stack| - 1]
    ensures Top(r.1) == NegateReference(Top(stack).d)
    ensures r.0 == SetOutput(n, Top(r.1))
  {
    var v := NegateReference(Top(stack).d);
    NegateDispatchMatchesReference(Top(stack).d);
    var r := FirstMatch1(n, stack, NegateSigs, Negation);
    assert r == PushArith1Result(stack, n, v);
    assert r.1 == stack[..|stack| - 1] + [v];
    r
  }

  // ---------------------------------------------------------------------------
  // Dispatch by kind

  /** The number of operands each evaluation function pops. */
  function Arity(k: NodeKind): nat
  {
    match k
    case Constant => 0
    case Negate => 1
    case _ => 2
  }

  /** What an evaluation function needs to be defined: enough operands, an
      Output port and, for a constant, a Static port. */
  predicate EvalDefined(k: NodeKind, n: Node, stack: seq<PortData>)
  {
    |stack| >= Arity(k) && HasOutput(n) && (k == Constant ==> HasStatic(n))
  }

  /** The effect every evaluation function has: `arity` operands replaced by
      one result, which is also cached on the Output port. */
  predicate Replaces(n: Node, stack: seq<PortData>, arity: nat, res: (Node, seq<PortData>))
  {
    && |stack| >= arity && HasOutput(n)
    && |res.1| == |stack| - arity + 1
    && res.1[..|stack| - arity] == stack[..|stack| - arity]
    && res.0 == SetOutput(n, Top(res.1))
  }

  lemma Arith2Replaces(n: Node, stack: seq<PortData>, r: (Node, seq<PortData>), v: PortData)
    requires |stack| >= 2 && HasOutput(n) && Arith2Effect(n, stack, r, v)
    ensures Replaces(n, stack, 2, r)
  {
  }

  /** The value the evaluation function of kind `k` yields on the operands
      on top of `stack`, by the reference definitions above: a constant
      yields its Static value. */
  function Reference(k: NodeKind, n: Node, stack: seq<PortData>, fdiv: (real, real) -> real): PortData
    requires EvalDefined(k, n, stack)
  {
    match k
    case Constant => StaticData(n)
    case Plus => ElementwiseReference(Sum, stack[|stack| - 2].d, Top(stack).d)
    case Minus => ElementwiseReference(Difference, stack[|stack| - 2].d, Top(stack).d)
    case Mul => MulReference(stack[|stack| - 2].d, Top(stack).d)
    case Div => ElementwiseReference(fdiv, stack[|stack| - 2].d, Top(stack).d)
    case Negate => NegateReference(Top(stack).d)
  }

  /** The reference value depends only on the top `Arity(k)` operands. */
  lemma ReferenceSuffix(k: NodeKind, n: Node, pre: seq<PortData>, ops: seq<PortData>, fdiv: (real, real) -> real)
    requires EvalDefined(k, n, ops) && |ops| == Arity(k)
    ensures EvalDefined(k, n, pre + ops) && Reference(k, n, pre + ops, fdiv) == Reference(k, n, ops, fdiv)
  {
    var s := pre + ops;
    if |ops| > 0 {
      assert Top(s) == Top(ops);
    }
    if |ops| == 2 {
      assert s[|s| - 2] == ops[0];
    }
  }

  /** Invokes the evaluation function of kind `k` where it is defined. */
  function Apply(k: NodeKind, n: Node, stack: seq<PortData>, fdiv: (real, real) -> real): (r: (Node, seq<PortData>))
    requires EvalDefined(k, n, stack)
    ensures Replaces(n, stack, Arity(k), r)
    ensures Top(r.1) == Reference(k, n, stack, fdiv)
  {
    match k
    case Constant => EvalConstant(n, stack)
    case Plus =>
      var res := EvalPlus(n, stack);
      Arith2Replaces(n, stack, res, ElementwiseReference(Sum, stack[|stack| - 2].d, stack[|stack| - 1].d));
      res
    case Minus =>
      var res := EvalMinus(n, stack);
      Arith2Replaces(n, stack, res, ElementwiseReference(Difference, stack[|stack| - 2].d, stack[|stack| - 1].d));
      res
    case Mul =>
      var res := EvalMul(n, stack);
      Arith2Replaces(n, stack, res, MulReference(stack[|stack| - 2].d, stack[|stack| - 1].d));
      res
    case Div =>
      var res := EvalDiv(n, stack, fdiv);
      Arith2Replaces(n, stack, res, ElementwiseReference(fdiv, stack[|stack| - 2].d, stack[|stack| - 1].d));
      res
    case Negate => EvalNegate(n, stack)
  }

  /** Invokes the evaluation function of kind `k`; None where the C++ would
      read past the stack or dereference a missing port. */
  function EvalNode(k: NodeKind, n: Node, stack: seq<PortData>, fdiv: (real, real) -> real): (r: Option<(Node, seq<PortData>)>)
    ensures r.Some? <==> EvalDefined(k, n, stack)
    ensures r.Some? ==> Replaces(n, stack, Arity(k), r.value)
    ensures r.Some? ==> Top(r.value.1) == Reference(k, n, stack, fdiv)
  {
    if EvalDefined(k, n, stack) then Some(Apply(k, n, stack, fdiv)) else None
  }
}
