/**
 * Small expressions with their expected leaf counts. `A` and `B` are two
 * tensor maps; every textual occurrence of a map is its own placeholder,
 * even when two occurrences refer to the same buffer.
 */
module LeafCountScenarios {
  import opened TensorExpr
  import opened SyclLeafCount
  import opened LeafCountRules

  const A: Expr := TensorMap(Const)
  const B: Expr := TensorMap(NonConst)

  /** `A + B`, a binary element-wise node over two maps. */
  function Sum(op: OpTag): Expr {
    Cwise(NonConst, Binary, op, [A, B])
  }

  lemma BinaryOverTwoMaps(op: OpTag)
    ensures LeafCount(Sum(op)) == 2
  {
    CategoryCountPair(A, B);
  }

  /**
   * A select whose condition is a unary element-wise node over `A`, with
   * branches `A` and `B`: the condition's map is counted again.
   */
  lemma SelectCountsEveryOccurrence(gt: OpTag)
    ensures LeafCount(Select(NonConst, Cwise(NonConst, Unary, gt, [A]), A, B)) == 3
  {
    CategoryCountSingle(A);
    SelectSumsBranches(NonConst, Cwise(NonConst, Unary, gt, [A]), A, B);
  }

  lemma EvalToOverSum(op: OpTag)
    ensures LeafCount(EvalTo(NonConst, Sum(op))) == 3
  {
    BinaryOverTwoMaps(op);
    EvalToAddsOne(NonConst, Sum(op));
  }

  lemma SliceOverSum(op: OpTag)
    ensures LeafCount(Slicing(Const, Sum(op))) == 2
  {
    BinaryOverTwoMaps(op);
    ViewPassesThrough(SliceView(Const), Sum(op));
  }

  /** A contraction is one placeholder whatever its operands are. */
  lemma ContractionIsOne(l: Expr, r: Expr)
    ensures LeafCount(Contraction(NonConst, l, r)) == 1
  {
  }

  /**
   * `X(0) = A`, `X(k) = X(k - 1) + X(k - 1)`. In C++ both operands are the
   * same type, so `X(k)` takes only k + 1 distinct node types, yet its count
   * doubles at every level.
   */
  function Doubling(k: nat): Expr {
    if k == 0 then A else Cwise(Const, Binary, 0, [Doubling(k - 1), Doubling(k - 1)])
  }

  function Pow2(k: nat): nat {
    if k == 0 then 1 else 2 * Pow2(k - 1)
  }

  lemma {:induction false} DoublingCount(k: nat)
    ensures LeafCount(Doubling(k)) == Pow2(k)
  {
    if k > 0 {
      DoublingCount(k - 1);
      CategoryCountPair(Doubling(k - 1), Doubling(k - 1));
    }
  }
}
