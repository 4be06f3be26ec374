/**
 * The counting rules of the leaf count, one lemma per node shape, and the
 * algebra of the operand-list sum.
 */
module LeafCountRules {
  import opened TensorExpr
  import opened SyclLeafCount

  // ---------------------------------------------------------------------
  // The operand-list sum

  /** An empty operand list contributes nothing. */
  lemma CategoryCountEmpty()
    ensures CategoryCount([]) == 0
  {
  }

  lemma CategoryCountSingle(a: Expr)
    ensures CategoryCount([a]) == LeafCount(a)
  {
    assert [a][1..] == [];
  }

  lemma CategoryCountPair(a: Expr, b: Expr)
    ensures CategoryCount([a, b]) == LeafCount(a) + LeafCount(b)
  {
    assert [a, b][1..] == [b];
    CategoryCountSingle(b);
  }

  lemma CategoryCountTriple(a: Expr, b: Expr, c: Expr)
    ensures CategoryCount([a, b, c]) == LeafCount(a) + LeafCount(b) + LeafCount(c)
  {
    assert [a, b, c][1..] == [b, c];
    CategoryCountPair(b, c);
  }

  /** The count of a concatenated operand list is the sum of the parts. */
  lemma {:induction false} CategoryCountConcat(s: seq<Expr>, t: seq<Expr>)
    ensures CategoryCount(s + t) == CategoryCount(s) + CategoryCount(t)
  {
    if s == [] {
      assert s + t == t;
    } else {
      assert (s + t)[1..] == s[1..] + t;
      CategoryCountConcat(s[1..], t);
    }
  }

  /** Appending one operand adds its count: the sum read as a left fold. */
  lemma CategoryCountSnoc(s: seq<Expr>, a: Expr)
    ensures CategoryCount(s + [a]) == CategoryCount(s) + LeafCount(a)
  {
    CategoryCountConcat(s, [a]);
    CategoryCountSingle(a);
  }

  /** Reordering the operands leaves the total unchanged. */
  lemma {:induction false} CategoryCountPermutation(s: seq<Expr>, t: seq<Expr>)
    requires multiset(s) == multiset(t)
    ensures CategoryCount(s) == CategoryCount(t)
  {
    if s == [] {
      assert |t| == |multiset(t)| == 0;
    } else {
      var x := s[0];
      assert x in multiset(t);
      var k :| 0 <= k < |t| && t[k] == x;
      var rest := t[..k] + t[k + 1..];
      MultisetRemoveAt(t, k);
      MultisetRemoveAt(s, 0);
      assert s[..0] + s[1..] == s[1..];
      CategoryCountPermutation(s[1..], rest);
      CategoryCountRemoveAt(t, k);
    }
  }

  /** Removing the operand at `k` removes exactly its count. */
  lemma CategoryCountRemoveAt(t: seq<Expr>, k: nat)
    requires k < |t|
    ensures CategoryCount(t) == CategoryCount(t[..k] + t[k + 1..]) + LeafCount(t[k])
  {
    var pre, x, post := t[..k], t[k], t[k + 1..];
    assert t == pre + ([x] + post);
    CategoryCountConcat(pre, [x] + post);
    CategoryCountConcat([x], post);
    CategoryCountSingle(x);
    CategoryCountConcat(pre, post);
  }

  lemma MultisetRemoveAt<T>(t: seq<T>, k: nat)
    requires k < |t|
    ensures multiset(t[..k] + t[k + 1..]) == multiset(t) - multiset{t[k]}
  {
    assert t == t[..k] + [t[k]] + t[k + 1..];
  }

  // ---------------------------------------------------------------------
  // One rule per node shape

  /** A tensor map is one placeholder, const-qualified or not. */
  lemma TensorMapCountsOne(q: CVQual)
    ensures LeafCount(TensorMap(q)) == 1
  {
  }

  /**
   * An element-wise or broadcasting node contributes the sum of its operand
   * counts; neither its operator nor its kind plays a part.
   */
  lemma CwiseSumsOperands(q: CVQual, k: CwiseKind, op: OpTag, args: seq<Expr>, q': CVQual, k': CwiseKind, op': OpTag)
    ensures LeafCount(Cwise(q, k, op, args)) == CategoryCount(args)
    ensures LeafCount(Cwise(q, k, op, args)) == LeafCount(Cwise(q', k', op', args))
  {
  }

  /** The condition of a select is counted like its two branches. */
  lemma SelectSumsBranches(q: CVQual, c: Expr, t: Expr, f: Expr)
    ensures LeafCount(Select(q, c, t, f)) == LeafCount(c) + LeafCount(t) + LeafCount(f)
  {
    CategoryCountTriple(c, t, f);
  }

  lemma AssignSumsSides(q: CVQual, l: Expr, r: Expr)
    ensures LeafCount(Assign(q, l, r)) == LeafCount(l) + LeafCount(r)
  {
    CategoryCountPair(l, r);
  }

  /**
   * A forced evaluation, a reduction, a contraction and a convolution each
   * bind one buffer, whatever their operands hold.
   */
  lemma OpaqueNodesCountOne(e: Expr)
    requires Opaque(e)
    ensures LeafCount(e) == 1
  {
  }

  /** An eval-to node is its own destination buffer plus its operand's leaves. */
  lemma EvalToAddsOne(q: CVQual, a: Expr)
    ensures LeafCount(EvalTo(q, a)) == 1 + LeafCount(a)
    ensures LeafCount(EvalTo(q, a)) >= 1
    ensures LeafCount(EvalTo(q, a)) > LeafCount(a)
  {
    CategoryCountSingle(a);
  }

  /** Slicing, chipping and strided slicing pass their operand's count through. */
  lemma ViewPassesThrough(v: View, a: Expr)
    ensures LeafCount(ApplyView(v, a)) == LeafCount(a)
  {
    CategoryCountSingle(a);
  }

  /** Any stack of views over a subtree leaves its count unchanged. */
  lemma {:induction false} ViewsPassThrough(vs: seq<View>, a: Expr)
    ensures LeafCount(ApplyViews(vs, a)) == LeafCount(a)
  {
    if vs != [] {
      ViewsPassThrough(vs[1..], a);
      ViewPassesThrough(vs[0], ApplyViews(vs[1..], a));
    }
  }

  /** The cv-qualifier of the outermost node never changes its count. */
  lemma QualifierIrrelevant(e: Expr, q: CVQual)
    ensures LeafCount(e.(qual := q)) == LeafCount(e)
  {
  }

  /**
   * No template argument other than the operand expressions affects the
   * count anywhere in the tree: qualifiers, operator tags and chipping
   * dimensions can all be forgotten.
   */
  lemma {:induction false} ParametersIrrelevant(e: Expr)
    ensures LeafCount(Erase(e)) == LeafCount(e)
    decreases e
  {
    match e
    case TensorMap(_) =>
    case Cwise(_, _, _, args) =>
      ParametersIrrelevantAll(args);
    case Select(_, c, t, f) =>
      ParametersIrrelevant(c);
      ParametersIrrelevant(t);
      ParametersIrrelevant(f);
      CategoryCountTriple(c, t, f);
      CategoryCountTriple(Erase(c), Erase(t), Erase(f));
    case Assign(_, l, r) =>
      ParametersIrrelevant(l);
      ParametersIrrelevant(r);
      CategoryCountPair(l, r);
      CategoryCountPair(Erase(l), Erase(r));
    case ForcedEval(_, _) =>
    case EvalTo(_, a) =>
      ParametersIrrelevant(a);
      CategoryCountSingle(a);
      CategoryCountSingle(Erase(a));
    case Reduction(_, _, _) =>
    case Contraction(_, _, _) =>
    case Convolution(_, _, _) =>
    case Slicing(_, a) =>
      ParametersIrrelevant(a);
      CategoryCountSingle(a);
      CategoryCountSingle(Erase(a));
    case Chipping(_, _, a) =>
      ParametersIrrelevant(a);
      CategoryCountSingle(a);
      CategoryCountSingle(Erase(a));
    case StridingSlicing(_, a) =>
      ParametersIrrelevant(a);
      CategoryCountSingle(a);
      CategoryCountSingle(Erase(a));
  }

  lemma {:induction false} ParametersIrrelevantAll(s: seq<Expr>)
    ensures CategoryCount(EraseAll(s)) == CategoryCount(s)
    decreases s
  {
    if s != [] {
      ParametersIrrelevant(s[0]);
      ParametersIrrelevantAll(s[1..]);
      assert EraseAll(s)[1..] == EraseAll(s[1..]);
    }
  }
}
