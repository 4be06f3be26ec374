# Leaf count of Eigen's SYCL tensor backend

Eigen's SYCL backend compiles a tensor expression into a device kernel. Every buffer the kernel reads or writes becomes a positional placeholder. `LeafCount<Expr>` in `TensorSyclLeafCount.h` says how many placeholders an expression tree contributes. The placeholder builder uses these counts during a pre-order walk to give each bound buffer its position. The source picks one counting rule per node shape by template specialisation. `CategoryCount<Args...>` adds up `LeafCount` over an operand pack, head first.

The model:

- `TensorExpr` holds `Expr`, one constructor per node shape the header specialises on. Only the template arguments that are themselves expressions are kept as children. Every node also records its `const` qualification, because the source declares each rule for both `const` and non-`const`. Element-wise and broadcasting nodes keep their opaque operator tag, and so do reductions. Chipping nodes keep their dimension. These are kept so that the model can prove they do not affect the count.
- `SyclLeafCount` holds `LeafCount` and `CategoryCount`. They are mutually recursive, just like the templates. Select, assign, eval-to and the three view nodes call `CategoryCount` on a literal operand list, as the source does. Termination is measured by node count, because a literal list such as `[c, t, f]` is not a sub-term of the node.
- `LeafCountRules` holds one lemma per node shape, plus the algebra of the operand sum: empty list, concatenation, appending one operand, permutation, stacks of views, and the irrelevance of the non-expression parameters.
- `PlaceholderOrder` lists the placeholders of a tree in pre-order. `Placeholders(e)` is built by the same per-shape rules as the count, and its length is `LeafCount(e)`. The lemmas show that numbering each operand from the counts of the operands to its left gives every placeholder its own position. A separate walk, `Visible(e)`, lists every node of `e` in pre-order but does not go below a forced-eval, reduction, contraction or convolution node. It reads only each node's operand list, so it does not repeat the counting rules. `Placeholders(e)` is proved equal to the bound-shape entries of that walk. So `LeafCount(e)` is the number of tensor maps, eval-to, forced-eval, reduction, contraction and convolution nodes that are not beneath one of the last four.
- `LeafCountScenarios` checks small worked examples: `A + B`, a select whose condition is a unary element-wise node over `A`, eval-to, slice and contraction. It also has a tree whose two operands are the same subtree at every level, so its count doubles at each level.

`CategoryCount` is written head first (lines 41-44): `LeafCount<head> + CategoryCount<tail...>`, a sum that nests to the right. The model keeps that shape. `CategoryCountSnoc` and `CategoryCountConcat` show that a left-to-right fold over the operands gives the same total.

## Model

| member | source | states |
|---|---|---|
| `SyclLeafCount.LeafCount` | libs/tensorflow/include/unsupported/Eigen/CXX11/src/Tensor/TensorSyclLeafCount.h:47-159 | the per-shape count of a tree is bounded by the number of nodes of the tree with every shared subtree unfolded |
| `SyclLeafCount.CategoryCount` | libs/tensorflow/include/unsupported/Eigen/CXX11/src/Tensor/TensorSyclLeafCount.h:34-44 | the sum over an operand list never exceeds the number of nodes in the list |
| `LeafCountRules.CategoryCountEmpty` | libs/tensorflow/include/unsupported/Eigen/CXX11/src/Tensor/TensorSyclLeafCount.h:36-39 | an empty operand list counts 0 |
| `LeafCountRules.CategoryCountSingle` | libs/tensorflow/include/unsupported/Eigen/CXX11/src/Tensor/TensorSyclLeafCount.h:41-44 | a one-operand list counts exactly that operand's leaves |
| `LeafCountRules.CategoryCountPair` | libs/tensorflow/include/unsupported/Eigen/CXX11/src/Tensor/TensorSyclLeafCount.h:41-44 | a two-operand list counts the sum of both operands |
| `LeafCountRules.CategoryCountTriple` | libs/tensorflow/include/unsupported/Eigen/CXX11/src/Tensor/TensorSyclLeafCount.h:41-44 | a three-operand list counts the sum of the three operands |
| `LeafCountRules.CategoryCountConcat` | libs/tensorflow/include/unsupported/Eigen/CXX11/src/Tensor/TensorSyclLeafCount.h:41-44 | the count of a concatenation of operand lists is the sum of the parts' counts |
| `LeafCountRules.CategoryCountSnoc` | libs/tensorflow/include/unsupported/Eigen/CXX11/src/Tensor/TensorSyclLeafCount.h:41-44 | appending an operand adds its count, so the head-first sum equals a left fold |
| `LeafCountRules.CategoryCountRemoveAt` | libs/tensorflow/include/unsupported/Eigen/CXX11/src/Tensor/TensorSyclLeafCount.h:41-44 | removing the operand at any position lowers the total by exactly that operand's count |
| `LeafCountRules.CategoryCountPermutation` | libs/tensorflow/include/unsupported/Eigen/CXX11/src/Tensor/TensorSyclLeafCount.h:41-44 | two operand lists that hold the same operands (as a multiset) have the same count |
| `LeafCountRules.TensorMapCountsOne` | libs/tensorflow/include/unsupported/Eigen/CXX11/src/Tensor/TensorSyclLeafCount.h:47-55 | a tensor map counts exactly 1, whether it is const or not |
| `LeafCountRules.CwiseSumsOperands` | libs/tensorflow/include/unsupported/Eigen/CXX11/src/Tensor/TensorSyclLeafCount.h:57-64 | an element-wise or broadcasting node counts the sum of its operands, whatever its qualifier, kind or operator tag |
| `LeafCountRules.SelectSumsBranches` | libs/tensorflow/include/unsupported/Eigen/CXX11/src/Tensor/TensorSyclLeafCount.h:66-73 | a select counts cond + then + else, with no special case for the condition |
| `LeafCountRules.AssignSumsSides` | libs/tensorflow/include/unsupported/Eigen/CXX11/src/Tensor/TensorSyclLeafCount.h:76-83 | an assign node counts lhs + rhs |
| `LeafCountRules.OpaqueNodesCountOne` | libs/tensorflow/include/unsupported/Eigen/CXX11/src/Tensor/TensorSyclLeafCount.h:85-129 | forced-eval, reduction, contraction and convolution nodes count exactly 1, whatever their operands contain |
| `LeafCountRules.EvalToAddsOne` | libs/tensorflow/include/unsupported/Eigen/CXX11/src/Tensor/TensorSyclLeafCount.h:96-105 | an eval-to node counts 1 + its operand's count, so it is at least 1 and strictly more than its operand |
| `LeafCountRules.ViewPassesThrough` | libs/tensorflow/include/unsupported/Eigen/CXX11/src/Tensor/TensorSyclLeafCount.h:133-159 | a slicing, chipping or strided-slicing node counts exactly its operand's count |
| `LeafCountRules.ViewsPassThrough` | libs/tensorflow/include/unsupported/Eigen/CXX11/src/Tensor/TensorSyclLeafCount.h:133-159 | wrapping a subtree in any stack of views leaves its count unchanged |
| `LeafCountRules.QualifierIrrelevant` | libs/tensorflow/include/unsupported/Eigen/CXX11/src/Tensor/TensorSyclLeafCount.h:47-159 | a node's const and non-const instantiations have the same count |
| `LeafCountRules.ParametersIrrelevant` | libs/tensorflow/include/unsupported/Eigen/CXX11/src/Tensor/TensorSyclLeafCount.h:47-159 | erasing every qualifier, operator tag and chipping dimension anywhere in a tree leaves its count unchanged |
| `LeafCountRules.ParametersIrrelevantAll` | libs/tensorflow/include/unsupported/Eigen/CXX11/src/Tensor/TensorSyclLeafCount.h:41-64 | the same for every tree of an operand list |
| `PlaceholderOrder.Placeholders` | libs/tensorflow/include/unsupported/Eigen/CXX11/src/Tensor/TensorSyclLeafCount.h:17-30 | the placeholder list, built in pre-order by the per-shape rules, has exactly `LeafCount(e)` entries, and every entry is a bound shape (map, forced-eval, eval-to, reduction, contraction or convolution) |
| `PlaceholderOrder.AllPlaceholders` | libs/tensorflow/include/unsupported/Eigen/CXX11/src/Tensor/TensorSyclLeafCount.h:41-44 | an operand list binds exactly `CategoryCount(s)` buffers, all of bound shapes |
| `PlaceholderOrder.AllPlaceholdersConcat` | libs/tensorflow/include/unsupported/Eigen/CXX11/src/Tensor/TensorSyclLeafCount.h:41-44 | the placeholders of a concatenation are the first list's followed by the second's |
| `PlaceholderOrder.OperandPlaceholderPosition` | libs/tensorflow/include/unsupported/Eigen/CXX11/src/Tensor/TensorSyclLeafCount.h:28-30 | the j-th placeholder of operand i sits at position (count of operands before i) + j, inside the list's range |
| `PlaceholderOrder.OperandRangesDisjoint` | libs/tensorflow/include/unsupported/Eigen/CXX11/src/Tensor/TensorSyclLeafCount.h:28-30 | the positions given to operand i all come before the first position of any later operand, so no two operands collide |
| `PlaceholderOrder.EvalToPlaceholders` | libs/tensorflow/include/unsupported/Eigen/CXX11/src/Tensor/TensorSyclLeafCount.h:96-105 | an eval-to's own destination is its first placeholder, even when its operand binds nothing, and its operand's placeholders follow it in order |
| `PlaceholderOrder.OpaqueNodeBindsItself` | libs/tensorflow/include/unsupported/Eigen/CXX11/src/Tensor/TensorSyclLeafCount.h:85-129 | forced-eval, reduction, contraction and convolution nodes bind themselves and nothing beneath them |
| `PlaceholderOrder.BoundOnlyConcat` | libs/tensorflow/include/unsupported/Eigen/CXX11/src/Tensor/TensorSyclLeafCount.h:41-44 | filtering a concatenation for bound shapes gives the filtered parts, in order |
| `PlaceholderOrder.PlaceholdersAreVisibleBound` | libs/tensorflow/include/unsupported/Eigen/CXX11/src/Tensor/TensorSyclLeafCount.h:47-159 | the placeholders the per-shape rules pick are exactly the bound-shape nodes of a generic pre-order walk that stops below forced-eval, reduction, contraction and convolution nodes, in the same order |
| `PlaceholderOrder.PlaceholdersAreVisibleBoundAll` | libs/tensorflow/include/unsupported/Eigen/CXX11/src/Tensor/TensorSyclLeafCount.h:41-44 | the same for every operand list |
| `PlaceholderOrder.LeafCountCountsVisibleBound` | libs/tensorflow/include/unsupported/Eigen/CXX11/src/Tensor/TensorSyclLeafCount.h:47-159 | the leaf count equals the number of bound-shape nodes that walk reaches |
| `LeafCountScenarios.BinaryOverTwoMaps` | libs/tensorflow/include/unsupported/Eigen/CXX11/src/Tensor/TensorSyclLeafCount.h:57-64 | `A + B` counts 2 |
| `LeafCountScenarios.SelectCountsEveryOccurrence` | libs/tensorflow/include/unsupported/Eigen/CXX11/src/Tensor/TensorSyclLeafCount.h:66-73 | a select whose condition is a unary element-wise node over `A`, with branches `A` and `B`, counts 3: the map in the condition is counted again |
| `LeafCountScenarios.EvalToOverSum` | libs/tensorflow/include/unsupported/Eigen/CXX11/src/Tensor/TensorSyclLeafCount.h:96-105 | eval-to over `A + B` counts 3 |
| `LeafCountScenarios.SliceOverSum` | libs/tensorflow/include/unsupported/Eigen/CXX11/src/Tensor/TensorSyclLeafCount.h:133-140 | a slice of `A + B` counts 2 |
| `LeafCountScenarios.ContractionIsOne` | libs/tensorflow/include/unsupported/Eigen/CXX11/src/Tensor/TensorSyclLeafCount.h:118-129 | a contraction counts 1 whatever its operands are |
| `LeafCountScenarios.DoublingCount` | libs/tensorflow/include/unsupported/Eigen/CXX11/src/Tensor/TensorSyclLeafCount.h:41-44 | the tree `X(k) = X(k - 1) + X(k - 1)` over one map counts 2^k, though it has only k + 1 distinct node types |

## Left out

- The placeholder builder `MakePlaceHolderExprHelper` is not part of this model. Neither are the `Tensor*Op` class templates or SYCL kernel generation and dispatch. `PlaceholderOrder` is this model's own pre-order reading of what a count means. It is not a transcription of the builder.
- Template selection is not modelled. In C++, partial ordering chooses among the specialisations, so an assign node takes its own rule and not the generic element-wise one. In the model, each shape is a distinct constructor and `LeafCount` matches on it.
- Element-wise arity is not constrained. The source's rule is variadic, so `Cwise` takes any operand list, whatever its kind.
- Non-expression template parameters are dropped. These are the plain object type, options, pointer maker, reduction dimensions, contraction and convolution indices, and slice offsets, sizes, stops and strides. No counting rule reads them. Operator tags, chipping dimensions and qualifiers are kept only so that their irrelevance can be proved.
- `SyclLeafCount.LeafCount`: `size_t` wrap-around is not modelled, and counts are unbounded `nat`. Its contract bounds the count by the node count of the tree with every shared subtree unfolded. Realistic kernels stay far below 2^32 such nodes. C++ node types can share subtrees, though, so a compiler can instantiate a tree with few distinct types whose count passes 2^64. `DoublingCount` shows this: `X(64)` has 65 distinct types and a count of 2^64. The header would wrap such a count at line 43 without any error.
