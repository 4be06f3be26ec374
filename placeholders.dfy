/**
 * What the leaf count is for: the placeholders a tree binds, listed in
 * pre-order by the same per-shape rules as the count. The list is then shown
 * to be the bound nodes of a shape-generic pre-order walk that stops below
 * forced-eval, reduction, contraction and convolution nodes, and numbering
 * operands by the counts of their left siblings is shown to hand every bound
 * buffer its own position.
 */
module PlaceholderOrder {
  import opened TensorExpr
  import opened SyclLeafCount
  import opened LeafCountRules

  /**
   * The sub-expressions `e` binds to buffers, in pre-order: a bound node
   * comes before whatever is bound beneath it, operands left to right. Its
   * length is the leaf count and every entry is a bound shape.
   */
  function Placeholders(e: Expr): (p: seq<Expr>)
    decreases NodeCount(e), 0
    ensures |p| == LeafCount(e)
    ensures forall i :: 0 <= i < |p| ==> IsBound(p[i])
  {
    match e
    case TensorMap(_) => [e]
    case Cwise(_, _, _, args) => AllPlaceholders(args)
    case Select(_, c, t, f) =>
      assert NodeCountAll([c, t, f]) < NodeCount(e) by { NodeCountTriple(c, t, f); }
      AllPlaceholders([c, t, f])
    case Assign(_, l, r) =>
      assert NodeCountAll([l, r]) < NodeCount(e) by { NodeCountPair(l, r); }
      AllPlaceholders([l, r])
    case ForcedEval(_, _) => [e]
    case EvalTo(_, a) =>
      assert NodeCountAll([a]) < NodeCount(e) by { NodeCountSingle(a); }
      [e] + AllPlaceholders([a])
    case Reduction(_, _, _) => [e]
    case Contraction(_, _, _) => [e]
    case Convolution(_, _, _) => [e]
    case Slicing(_, a) =>
      assert NodeCountAll([a]) < NodeCount(e) by { NodeCountSingle(a); }
      AllPlaceholders([a])
    case Chipping(_, _, a) =>
      assert NodeCountAll([a]) < NodeCount(e) by { NodeCountSingle(a); }
      AllPlaceholders([a])
    case StridingSlicing(_, a) =>
      assert NodeCountAll([a]) < NodeCount(e) by { NodeCountSingle(a); }
      AllPlaceholders([a])
  }

  /** The placeholders of an operand list, operand by operand. */
  function AllPlaceholders(s: seq<Expr>): (p: seq<Expr>)
    decreases NodeCountAll(s), 1
    ensures |p| == CategoryCount(s)
    ensures forall i :: 0 <= i < |p| ==> IsBound(p[i])
  {
    if s == [] then [] else Placeholders(s[0]) + AllPlaceholders(s[1..])
  }

  lemma {:induction false} AllPlaceholdersConcat(s: seq<Expr>, t: seq<Expr>)
    ensures AllPlaceholders(s + t) == AllPlaceholders(s) + AllPlaceholders(t)
  {
    if s == [] {
      assert s + t == t;
    } else {
      assert (s + t)[1..] == s[1..] + t;
      AllPlaceholdersConcat(s[1..], t);
    }
  }

  /**
   * The `j`-th placeholder of operand `i` sits at the count of the operands
   * before it plus `j`, inside the range of the whole list.
   */
  lemma OperandPlaceholderPosition(s: seq<Expr>, i: nat, j: nat)
    requires i < |s| && j < LeafCount(s[i])
    ensures CategoryCount(s[..i]) + j < CategoryCount(s)
    ensures AllPlaceholders(s)[CategoryCount(s[..i]) + j] == Placeholders(s[i])[j]
  {
    assert s == s[..i] + s[i..];
    AllPlaceholdersConcat(s[..i], s[i..]);
    assert s[i..][1..] == s[i + 1..];
  }

  /**
   * Operands numbered from the counts of their left siblings never share a
   * position: every placeholder of operand `i` comes before the first
   * position of any later operand `k`.
   */
  lemma OperandRangesDisjoint(s: seq<Expr>, i: nat, k: nat, j: nat)
    requires i < k <= |s| && j < LeafCount(s[i])
    ensures CategoryCount(s[..i]) + j < CategoryCount(s[..k])
  {
    var pre, mid := s[..i], s[i..k];
    assert s[..k] == pre + mid;
    CategoryCountConcat(pre, mid);
    assert mid == [s[i]] + mid[1..];
    CategoryCountConcat([s[i]], mid[1..]);
    CategoryCountSingle(s[i]);
  }

  /** An eval-to's destination is its first placeholder; its operand's follow. */
  lemma EvalToPlaceholders(q: CVQual, a: Expr)
    ensures Placeholders(EvalTo(q, a))[0] == EvalTo(q, a)
    ensures forall j :: 0 <= j < LeafCount(a) ==> Placeholders(EvalTo(q, a))[1 + j] == Placeholders(a)[j]
  {
    assert [a][1..] == [];
  }

  /**
   * A node whose operands are consumed inside one device routine binds
   * itself and nothing beneath it.
   */
  lemma OpaqueNodeBindsItself(e: Expr)
    requires Opaque(e)
    ensures Placeholders(e) == [e]
  {
  }

  // ---------------------------------------------------------------------
  // An independent reading: the bound nodes a generic pre-order walk sees

  /**
   * Every node of `e` in pre-order, except those strictly beneath a node
   * whose operands a device routine consumes. Only `Children`, `Opaque` and
   * the order of operands decide it, not the counting rules.
   */
  function Visible(e: Expr): (v: seq<Expr>)
    decreases NodeCount(e), 0
    ensures |v| >= 1 && v[0] == e
  {
    [e] + if Opaque(e) then [] else VisibleAll(Children(e))
  }

  function VisibleAll(s: seq<Expr>): seq<Expr>
    decreases NodeCountAll(s), 1
  {
    if s == [] then [] else Visible(s[0]) + VisibleAll(s[1..])
  }

  /** The entries of `s` of a bound shape, in their order. */
  function BoundOnly(s: seq<Expr>): (r: seq<Expr>)
    ensures |r| <= |s|
    ensures forall i :: 0 <= i < |r| ==> IsBound(r[i])
  {
    if s == [] then [] else (if IsBound(s[0]) then [s[0]] else []) + BoundOnly(s[1..])
  }

  lemma {:induction false} BoundOnlyConcat(s: seq<Expr>, t: seq<Expr>)
    ensures BoundOnly(s + t) == BoundOnly(s) + BoundOnly(t)
  {
    if s == [] {
      assert s + t == t;
    } else {
      assert (s + t)[1..] == s[1..] + t;
      BoundOnlyConcat(s[1..], t);
    }
  }

  /**
   * The placeholders chosen by the per-shape rules are exactly the bound
   * nodes of the generic walk, in the same order.
   */
  lemma {:induction false} PlaceholdersAreVisibleBound(e: Expr)
    decreases NodeCount(e), 0
    ensures Placeholders(e) == BoundOnly(Visible(e))
  {
    var below := if Opaque(e) then [] else VisibleAll(Children(e));
    BoundOnlyConcat([e], below);
    assert BoundOnly([e]) == if IsBound(e) then [e] else [];
    if !Opaque(e) {
      PlaceholdersAreVisibleBoundAll(Children(e));
    }
  }

  lemma {:induction false} PlaceholdersAreVisibleBoundAll(s: seq<Expr>)
    decreases NodeCountAll(s), 1
    ensures AllPlaceholders(s) == BoundOnly(VisibleAll(s))
  {
    if s != [] {
      PlaceholdersAreVisibleBound(s[0]);
      PlaceholdersAreVisibleBoundAll(s[1..]);
      BoundOnlyConcat(Visible(s[0]), VisibleAll(s[1..]));
    }
  }

  /**
   * The leaf count is the number of bound nodes that the generic walk
   * reaches: each map, eval-to, forced-eval, reduction, contraction and
   * convolution not beneath one of the last four counts once.
   */
  lemma LeafCountCountsVisibleBound(e: Expr)
    ensures LeafCount(e) == |BoundOnly(Visible(e))|
  {
    PlaceholdersAreVisibleBound(e);
  }
}
