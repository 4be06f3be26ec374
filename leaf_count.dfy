/**
 * The leaf count of Eigen's SYCL tensor backend (`TensorSyclLeafCount.h`):
 * how many buffer placeholders an expression tree contributes. `LeafCount` is
 * the per-shape rule that the header selects by template specialisation;
 * `CategoryCount` is the sum of `LeafCount` over an ordered operand list,
 * taken head first.
 */
module SyclLeafCount {
  import opened TensorExpr

  /**
   * The placeholders `e` contributes. Select, assign, eval-to and the view
   * nodes delegate to `CategoryCount` on their operand list, as
   * `TensorSyclLeafCount.h` does; the count never exceeds the number of
   * nodes of the tree with every shared subtree unfolded.
   */
  function LeafCount(e: Expr): (r: nat)
    decreases NodeCount(e), 0
    ensures r <= NodeCount(e)
  {
    match e
    case TensorMap(_) => 1
    case Cwise(_, _, _, args) => CategoryCount(args)
    case Select(_, c, t, f) =>
      assert NodeCountAll([c, t, f]) < NodeCount(e) by { NodeCountTriple(c, t, f); }
      CategoryCount([c, t, f])
    case Assign(_, l, r) =>
      assert NodeCountAll([l, r]) < NodeCount(e) by { NodeCountPair(l, r); }
      CategoryCount([l, r])
    case ForcedEval(_, _) => 1
    case EvalTo(_, a) =>
      assert NodeCountAll([a]) < NodeCount(e) by { NodeCountSingle(a); }
      1 + CategoryCount([a])
    case Reduction(_, _, _) => 1
    case Contraction(_, _, _) => 1
    case Convolution(_, _, _) => 1
    case Slicing(_, a) =>
      assert NodeCountAll([a]) < NodeCount(e) by { NodeCountSingle(a); }
      CategoryCount([a])
    case Chipping(_, _, a) =>
      assert NodeCountAll([a]) < NodeCount(e) by { NodeCountSingle(a); }
      CategoryCount([a])
    case StridingSlicing(_, a) =>
      assert NodeCountAll([a]) < NodeCount(e) by { NodeCountSingle(a); }
      CategoryCount([a])
  }

  /** The placeholders an ordered operand list contributes, head first. */
  function CategoryCount(s: seq<Expr>): (r: nat)
    decreases NodeCountAll(s), 1
    ensures r <= NodeCountAll(s)
  {
    if s == [] then 0 else LeafCount(s[0]) + CategoryCount(s[1..])
  }
}
