# Product grouping and precision-gated PR-AUC, in Dafny

This project models the two algorithmic pieces of a product-matching evaluation toolkit.

- **The dictionary-backed pair grouper** (`ProductGrouper_dict` and `get_product_groups`,
  `grouper.dfy`, module `ProductGrouper`). Rows `(target, id1, id2)` are inserted one by one.
  Each row goes into one of two independent dictionaries: same-product for `target = True`,
  different-product for `target = False`. A dictionary maps each identifier to a *shared,
  mutable* set object. Aliasing is modelled with an arena. A dictionary is a value
  `IdToSet(index, arena)`. `arena: seq<set<int>>` holds every set object ever created.
  `index: map<int, nat>` gives each identifier the arena position of its object. Two identifiers
  share an object exactly when they hold the same position. `insert` is the pure function
  `InsertInto`, with the source's four branches. The two extraction methods collect the
  distinct contents of the referenced objects. `get_product_groups` is the left fold `Build`,
  run by the loop `InsertAll`.
- **`pr_auc_macro`** (`metric.dfy`, module `Metric`, built on the array primitives in
  `arrays.dfy`, module `Arrays`). Its input is the joined table: a sequence of
  `Row(target, score, category)`. The model covers:
  - the loop over the sorted distinct categories (`np.unique`);
  - one weight per category, `count / total`, in exact `real` arithmetic;
  - the "no positives ⇒ 0" rule;
  - reversal of the curve;
  - the precision gate `0..k`, where `k` is the last position whose precision meets the floor;
  - the "at most one qualifying position ⇒ 0" rule;
  - the ValueError and NaN bookkeeping around `auc`;
  - the final `np.average`.

  `precision_recall_curve` and `auc` are function parameters. `CurveFn` returns the aligned
  precision/recall points in the order the primitive returns them. `AucFn` returns an area, a
  NaN, or a raised ValueError.

Three behaviours of the code are easy to miss:

- **The extracted same-product sets can overlap.** In the branch where both ids are already
  registered (utils/product_grouper.py:61-63), id2's set is unioned into id1's set, and then only
  id2 is pointed at id1's set. Every other identifier that shared id2's old set keeps referring to
  that older, smaller set. `StaleAliasOverlaps` shows this for the rows (True,1,2), (True,3,4),
  (True,1,3): the same-product sets include both {1,2,3,4} and {3,4}. What does hold, and
  `BuildRelatesEveryRow` proves it, is that each row's two identifiers lie in each other's
  current set after any later rows.
- **A NaN area leaves one weight without a value.** When `auc` returns NaN, the category's weight
  has already been appended (metric.py:62), but no value is appended (metric.py:66-68). The call
  `np.average(pr_aucs, weights=weights)` at metric.py:72 then receives lists of different
  lengths. `np.average` refuses such shapes, and the model returns `Failure(ShapeMismatch)`
  (`PrAucMacro`).
- **An empty joined table has no weights.** The category loop does not run, and `np.average`
  receives empty lists whose weights sum to zero, which it refuses. The model returns
  `Failure(ZeroWeightSum)` (`PrAucMacro`) rather than requiring a non-empty input.

## Model

| member | source | states |
|---|---|---|
| ProductGrouper.InsertInto | utils/product_grouper.py:56-71 | after `insert`, both ids are registered and refer to one object; the registered ids are the old ones plus the two; every existing object only grows; only id2 can change which object an already-registered id refers to |
| ProductGrouper.Insert | utils/product_grouper.py:56-57 | `target` selects the dictionary; the other dictionary and all of its objects are left unchanged |
| ProductGrouper.InsertJoinsPair | utils/product_grouper.py:59-71 | `insert` keeps the invariant: every registered id is in its own object, and every member of every object is registered; afterwards both ids share one object that contains both |
| ProductGrouper.InsertFreshGroup | utils/product_grouper.py:70-71 | if neither id was seen, a fresh object holding exactly {id1, id2} is created and shared by both ids; no earlier id refers to it and earlier objects are untouched |
| ProductGrouper.InsertJoinsExisting | utils/product_grouper.py:64-69 | if exactly one id was seen, the unseen id is added to the seen id's object and refers to it; no new object is created and no registered id moves |
| ProductGrouper.InsertMergeRepointsOnlyId2 | utils/product_grouper.py:61-63 | if both ids were seen, id1's object becomes the union of both objects and id2 now refers to it; every other id that shared id2's old object still refers to it, and its contents are unchanged |
| ProductGrouper.InsertIdempotent | utils/product_grouper.py:61-63 | re-inserting a pair whose ids already share an object changes no object and no mapping |
| ProductGrouper.InsertTwiceIsOnce | utils/product_grouper.py:56-71 | inserting the same pair twice in a row gives the same state as inserting it once |
| ProductGrouper.InsertGrowsGroupOf | utils/product_grouper.py:61-69 | the contents seen through any registered id never shrink, including the id that is re-pointed |
| ProductGrouper.InsertChainShares | utils/product_grouper.py:56-71 | inserting (a, b) and then (b, c) leaves a, b and c sharing one object that contains all three |
| ProductGrouper.GetSets | utils/product_grouper.py:73-77 | the extracted collection holds the contents of every id's object, and nothing else, each distinct content once |
| ProductGrouper.GetSameProductSets | utils/product_grouper.py:73-74 | the same-product sets are the distinct contents of the same-product dictionary's objects |
| ProductGrouper.GetDifferentProductSets | utils/product_grouper.py:76-77 | the different-product sets are the distinct contents of the different-product dictionary's objects |
| ProductGrouper.ContentsCoverRegistered | utils/product_grouper.py:73-77 | under the invariant, every registered id lies in some extracted set, and every member of an extracted set is registered |
| ProductGrouper.Build | utils/product_grouper.py:80-84 | the left fold of `insert` over the rows keeps the invariant in both dictionaries |
| ProductGrouper.BuildRegistersSeen | utils/product_grouper.py:83-84 | after the fold, each dictionary's keys are exactly the ids named by the rows with its target |
| ProductGrouper.BuildRelatesEveryRow | utils/product_grouper.py:83-84 | after the fold, each row's two ids lie in each other's object, in the row's dictionary |
| ProductGrouper.InsertAll | utils/product_grouper.py:82-84 | the insertion loop computes the fold, and every row's pair is related in its dictionary |
| ProductGrouper.RelatedPairExtracted | utils/product_grouper.py:73-77 | a related pair lies together in some extracted set |
| ProductGrouper.BuildExtractsEveryPair | utils/product_grouper.py:80-89 | after `get_product_groups`, every row's two ids lie together in some set of the row's relation |
| ProductGrouper.BuildExtractsSeen | utils/product_grouper.py:80-89 | after `get_product_groups`, a relation's sets cover exactly the ids its rows name |
| ProductGrouper.GetProductGroups | utils/product_grouper.py:80-89 | `get_product_groups` returns the extracted sets of the folded state, one collection per relation |
| ProductGrouper.StaleAliasOverlaps | utils/product_grouper.py:61-63 | for rows (True,1,2), (True,3,4), (True,1,3), the same-product sets include both {1,2,3,4} and {3,4}, so the sets are not pairwise disjoint |
| Arrays.Reverse | metric.py:41-42 | `a[::-1]` has the same length, and position i holds the element at position n-1-i |
| Arrays.ReverseInvolutive | metric.py:41-42 | reversing twice gives back the original array |
| Arrays.Unique | metric.py:22 | `np.unique` is strictly increasing and has exactly the elements of its input |
| Arrays.Count | metric.py:22 | a category's count is positive exactly when the category occurs in the column |
| Arrays.CountsSumToLength | metric.py:22 | over distinct categories that cover the column, the counts add up to the number of rows |
| Arrays.Average | metric.py:72 | with non-negative weights, a successful `np.average` lies between the smallest and the largest value |
| Metric.InCategory | metric.py:27-29 | the selected rows are exactly the table's rows of that category, each as often as in the table, and there are as many as the category's count |
| Metric.Positives | metric.py:32 | `sum(y_true_cat)` is 0 exactly when no row of the category is positive |
| Metric.Qualifying | metric.py:46 | `np.where(y >= prec_level)[0]` is strictly increasing and holds exactly the positions whose precision meets the floor |
| Metric.Gate | metric.py:51-52 | when the gate selects, the selected prefix `0..k` has at least two points and `k` is a position of the curve |
| Metric.GateIsLastQualifying | metric.py:46-52 | the selected end `k` meets the floor and no later position does |
| Metric.GateHasTwoQualifying | metric.py:48-52 | when the gate selects, a second qualifying position lies before the end of the prefix |
| Metric.GateNoneIffAtMostOne | metric.py:51-59 | the gate selects nothing exactly when at most one position meets the floor |
| Metric.GateMonotone | metric.py:46-52 | lowering `prec_level` keeps every qualifying position and never shortens the selected prefix |
| Metric.CategoryScore | metric.py:26-70 | a category without positive rows contributes 0; any other contribution (a dropped value, or a non-zero value) comes from `auc` over the gated prefix of the reversed curve: a NaN area drops the value, otherwise the value is the area |
| Metric.NoPositivesScoresZero | metric.py:31-35 | a category without positive rows scores 0, whatever the curve and area functions are |
| Metric.AtMostOneQualifyingScoresZero | metric.py:51-59 | if at most one reversed position meets the floor, the category scores 0 |
| Metric.GatedCategoryUsesArea | metric.py:62-70 | `auc` receives the recalls and precisions of the reversed curve up to `k` (at least two points); a ValueError scores 0, a NaN appends nothing, and an area is appended as is |
| Metric.DroppedIffNaN | metric.py:65-68 | a category appends no value exactly when it has positives, the gate selects, and `auc` returns NaN |
| Metric.WeightInUnit | metric.py:34 | a category's weight `counts[i] / len(categories)` lies in (0, 1] when the category occurs, and is 0 otherwise |
| Metric.Present | metric.py:67-68 | the appended values number at most one per category, and exactly one each when none is dropped, in category order |
| Metric.Collect | metric.py:19-70 | the category loop appends exactly one weight per category (its count / total) and, in order, the values of the categories that are not dropped |
| Metric.SumOfRatios | metric.py:22-34 | weights of the form `counts[i] / total`, one per category, add up to the categories' total count over the row total |
| Metric.WeightsPositive | metric.py:22-34 | every distinct category's weight is positive |
| Metric.WeightsSumToOne | metric.py:22-62 | the weights of the distinct categories sum to exactly 1 |
| Metric.ThreeAndOneWeights | metric.py:22-34 | two categories with 3 and 1 of 4 rows weigh 0.75 and 0.25 |
| Metric.PrAucMacro | metric.py:6-72 | an empty joined table fails with a zero weight sum; otherwise the metric succeeds exactly when no category is dropped, and then equals the sum of each category's value times its weight; a dropped category makes it fail with a shape mismatch |

## Left out

- `ProductGrouper_list` (utils/product_grouper.py:17-48) is not modelled. `get_product_groups` never selects it.
- The abstract base class `ProdcutGrouperBase` (utils/product_grouper.py:6-14) is not modelled. It holds only stubs that raise.
- The tqdm progress bar and pandas `iterrows` (utils/product_grouper.py:83) are not modelled. The input is a `seq<Observation>`.
- Identifiers are modelled as `int`. Python accepts any hashable key.
- The pandas inner join (metric.py:13) is not modelled. The metric takes the joined rows as input, because many-to-many join semantics belong to pandas.
- Column selection by name (`cat_column`, metric.py:15-17) is not modelled. Each `Row` carries its target, score and category.
- Category labels are integer codes. `np.unique` orders the original strings; the model orders the codes, so the codes must follow the same order.
- Row selection uses positions (metric.py:27-29). Pandas selects by index label, which matches position for the default index the join produces.
- The numerics of `precision_recall_curve` and `auc` (metric.py:38, 66) are not modelled. They are foreign floating-point code and are passed in as functions.
- Floating point is not modelled. Weights and values are exact reals, and NaN appears only as an outcome of `auc`.
- Metric.GateMonotone: states only the gate's monotonicity. "A lower floor never gives a smaller area" would also need monotonicity of `auc`, which is not modelled.
- numpy itself is not part of this model. `np.average` is modelled by `Arrays.Average`, whose two refusals are assumed from numpy's documented behaviour: values and weights of different shapes, and weights that sum to zero.
- Metric.InCategory: the multiset equation fixes which rows are selected and how often, but not their order. The order does not matter to the model's own lemmas, and the curve function receives the rows in table order by construction.
