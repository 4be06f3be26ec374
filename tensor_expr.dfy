/**
 * The shapes of tensor expression nodes that the SYCL backend's leaf count
 * classifies. Each constructor stands for one class template of the tensor
 * library; only the template arguments that are themselves expressions are
 * kept as children. Every node records whether it was instantiated with or
 * without a `const` qualifier, since Eigen's `TensorSyclLeafCount.h`
 * declares each counting rule once for each.
 */
module TensorExpr {

  /** The cv-qualification a node type is instantiated with. */
  datatype CVQual = NonConst | Const

  /** The element-wise family that shares one variadic counting rule. */
  datatype CwiseKind = Nullary | Unary | Binary | Ternary | Broadcasting

  /** The operator functor of an element-wise or reduction node, kept opaque. */
  type OpTag = nat

  datatype Expr =
    | TensorMap(qual: CVQual)
    | Cwise(qual: CVQual, kind: CwiseKind, op: OpTag, args: seq<Expr>)
    | Select(qual: CVQual, cond: Expr, thenExpr: Expr, elseExpr: Expr)
    | Assign(qual: CVQual, lhs: Expr, rhs: Expr)
    | ForcedEval(qual: CVQual, arg: Expr)
    | EvalTo(qual: CVQual, arg: Expr)
    | Reduction(qual: CVQual, op: OpTag, arg: Expr)
    | Contraction(qual: CVQual, lhs: Expr, rhs: Expr)
    | Convolution(qual: CVQual, lhs: Expr, rhs: Expr)
    | Slicing(qual: CVQual, arg: Expr)
    | Chipping(qual: CVQual, dim: int, arg: Expr)
    | StridingSlicing(qual: CVQual, arg: Expr)

  /** Number of expression nodes in a tree, every node counting once. */
  function NodeCount(e: Expr): (n: nat)
    ensures n >= 1
  {
    match e
    case TensorMap(_) => 1
    case Cwise(_, _, _, args) => 1 + NodeCountAll(args)
    case Select(_, c, t, f) => 1 + NodeCount(c) + NodeCount(t) + NodeCount(f)
    case Assign(_, l, r) => 1 + NodeCount(l) + NodeCount(r)
    case ForcedEval(_, a) => 1 + NodeCount(a)
    case EvalTo(_, a) => 1 + NodeCount(a)
    case Reduction(_, _, a) => 1 + NodeCount(a)
    case Contraction(_, l, r) => 1 + NodeCount(l) + NodeCount(r)
    case Convolution(_, l, r) => 1 + NodeCount(l) + NodeCount(r)
    case Slicing(_, a) => 1 + NodeCount(a)
    case Chipping(_, _, a) => 1 + NodeCount(a)
    case StridingSlicing(_, a) => 1 + NodeCount(a)
  }

  /** Number of expression nodes in an ordered list of trees. */
  function NodeCountAll(s: seq<Expr>): (n: nat)
    ensures |s| <= n
  {
    if s == [] then 0 else NodeCount(s[0]) + NodeCountAll(s[1..])
  }

  /**
   * The node shapes that the kernel generator binds to one buffer of their
   * own: a tensor map, a materialised temporary, the destination of an
   * eval-to, and the result of a reduction, contraction or convolution.
   */
  predicate IsBound(e: Expr) {
    e.TensorMap? || e.ForcedEval? || e.EvalTo? || e.Reduction? || e.Contraction? || e.Convolution?
  }

  /**
   * The shapes whose operands are consumed inside one device routine, so
   * that nothing beneath them is exposed to the kernel generator.
   */
  predicate Opaque(e: Expr) {
    e.ForcedEval? || e.Reduction? || e.Contraction? || e.Convolution?
  }

  /** The operand sub-expressions of a node, left to right. */
  function Children(e: Expr): (s: seq<Expr>)
    ensures NodeCount(e) == 1 + NodeCountAll(s)
  {
    match e
    case TensorMap(_) => []
    case Cwise(_, _, _, args) => args
    case Select(_, c, t, f) => NodeCountTriple(c, t, f); [c, t, f]
    case Assign(_, l, r) => NodeCountPair(l, r); [l, r]
    case ForcedEval(_, a) => [a]
    case EvalTo(_, a) => [a]
    case Reduction(_, _, a) => [a]
    case Contraction(_, l, r) => NodeCountPair(l, r); [l, r]
    case Convolution(_, l, r) => NodeCountPair(l, r); [l, r]
    case Slicing(_, a) => [a]
    case Chipping(_, _, a) => [a]
    case StridingSlicing(_, a) => [a]
  }

  lemma NodeCountSingle(a: Expr)
    ensures NodeCountAll([a]) == NodeCount(a)
  {
    assert [a][1..] == [];
  }

  lemma NodeCountPair(a: Expr, b: Expr)
    ensures NodeCountAll([a, b]) == NodeCount(a) + NodeCount(b)
  {
    assert [a, b][1..] == [b];
    NodeCountSingle(b);
  }

  lemma NodeCountTriple(a: Expr, b: Expr, c: Expr)
    ensures NodeCountAll([a, b, c]) == NodeCount(a) + NodeCount(b) + NodeCount(c)
  {
    assert [a, b, c][1..] == [b, c];
    NodeCountPair(b, c);
  }

  /** A view node, described without its operand. */
  datatype View =
    | SliceView(qual: CVQual)
    | ChipView(qual: CVQual, dim: int)
    | StridedSliceView(qual: CVQual)

  function ApplyView(v: View, e: Expr): Expr {
    match v
    case SliceView(q) => Slicing(q, e)
    case ChipView(q, d) => Chipping(q, d, e)
    case StridedSliceView(q) => StridingSlicing(q, e)
  }

  /** Wraps `e` in the views of `vs`, the first view outermost. */
  function ApplyViews(vs: seq<View>, e: Expr): Expr {
    if vs == [] then e else ApplyView(vs[0], ApplyViews(vs[1..], e))
  }

  /**
   * Forgets every template argument that is not an expression: the
   * cv-qualifier, the operator tags and the chipping dimension.
   */
  function Erase(e: Expr): Expr {
    match e
    case TensorMap(_) => TensorMap(NonConst)
    case Cwise(_, k, _, args) => Cwise(NonConst, k, 0, EraseAll(args))
    case Select(_, c, t, f) => Select(NonConst, Erase(c), Erase(t), Erase(f))
    case Assign(_, l, r) => Assign(NonConst, Erase(l), Erase(r))
    case ForcedEval(_, a) => ForcedEval(NonConst, Erase(a))
    case EvalTo(_, a) => EvalTo(NonConst, Erase(a))
    case Reduction(_, _, a) => Reduction(NonConst, 0, Erase(a))
    case Contraction(_, l, r) => Contraction(NonConst, Erase(l), Erase(r))
    case Convolution(_, l, r) => Convolution(NonConst, Erase(l), Erase(r))
    case Slicing(_, a) => Slicing(NonConst, Erase(a))
    case Chipping(_, _, a) => Chipping(NonConst, 0, Erase(a))
    case StridingSlicing(_, a) => StridingSlicing(NonConst, Erase(a))
  }

  function EraseAll(s: seq<Expr>): (r: seq<Expr>)
    ensures |r| == |s|
  {
    if s == [] then [] else [Erase(s[0])] + EraseAll(s[1..])
  }
}
