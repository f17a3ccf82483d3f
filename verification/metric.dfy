/**
 `pr_auc_macro` (metric.py): the per-category, precision-gated PR-AUC averaged with one weight
 per category. The precision-recall curve and the trapezoidal area are foreign numerics and are
 passed in as functions; what is modelled is the category loop, the weights, the zero-positive
 rule, the reversal, the precision gate and the bookkeeping around the area's errors and NaN.
 */
module Metric {
  import opened Wrappers
  import opened Arrays

  /** One row of the joined table: ground-truth target, predicted score, category code. */
  datatype Row = Row(target: bool, score: real, category: int)

  /** One point of a precision-recall curve. */
  datatype Point = Point(precision: real, recall: real)

  /** What `auc(x, y)` yields: an area, a NaN area, or a raised ValueError. */
  datatype AucOutcome = Area(value: real) | NotANumber | ValueError

  /**
   `precision_recall_curve(y_true, y_score)`, zipped: its aligned precision and recall arrays, in
   the order the primitive returns them (recall descending). The thresholds are not used.
   */
  type CurveFn = (seq<bool>, seq<real>) -> seq<Point>

  /** `auc(x, y)`. */
  type AucFn = (seq<real>, seq<real>) -> AucOutcome

  // ---------------------------------------------------------------------------------------
  // Columns and categories
  // ---------------------------------------------------------------------------------------

  /** The category column `df[cat_column]`. */
  function Categories(rows: seq<Row>): (cs: seq<int>)
    ensures |cs| == |rows|
    ensures forall i :: 0 <= i < |rows| ==> cs[i] == rows[i].category
  {
    if rows == [] then [] else Categories(rows[..|rows| - 1]) + [rows[|rows| - 1].category]
  }

  /** The rows of one category, in table order (`cat_idx = np.where(categories == category)[0]`). */
  function InCategory(rows: seq<Row>, c: int): (sel: seq<Row>)
    ensures |sel| == Count(Categories(rows), c)
    ensures forall i :: 0 <= i < |sel| ==> sel[i].category == c
    ensures forall i :: 0 <= i < |sel| ==> sel[i] in rows
    ensures forall r :: multiset(sel)[r] == if r.category == c then multiset(rows)[r] else 0
  {
    if rows == [] then []
    else
      var prefix := rows[..|rows| - 1];
      var last := rows[|rows| - 1];
      assert Categories(rows)[..|rows| - 1] == Categories(prefix);
      assert rows == prefix + [last];
      InCategory(prefix, c) + (if last.category == c then [last] else [])
  }

  function Labels(rows: seq<Row>): seq<bool>
  {
    seq(|rows|, i requires 0 <= i < |rows| => rows[i].target)
  }

  function ScoreColumn(rows: seq<Row>): seq<real>
  {
    seq(|rows|, i requires 0 <= i < |rows| => rows[i].score)
  }

  /** `sum(y_true_cat)` for 0/1 targets: the number of positive rows. */
  function Positives(labels: seq<bool>): (n: nat)
    ensures n <= |labels|
    ensures n == 0 <==> forall i :: 0 <= i < |labels| ==> !labels[i]
  {
    if labels == [] then 0
    else Positives(labels[..|labels| - 1]) + (if labels[|labels| - 1] then 1 else 0)
  }

  // ---------------------------------------------------------------------------------------
  // The precision gate
  // ---------------------------------------------------------------------------------------

  /** `np.where(y >= prec_level)[0]`: the ascending positions whose precision meets the floor. */
  function Qualifying(pts: seq<Point>, level: real): (good: seq<int>)
    ensures StrictlyIncreasing(good)
    ensures forall j :: 0 <= j < |good| ==> 0 <= good[j] < |pts|
    ensures forall i :: i in good <==> 0 <= i < |pts| && pts[i].precision >= level
  {
    if pts == [] then []
    else
      var n := |pts| - 1;
      var prefix := Qualifying(pts[..n], level);
      prefix + (if pts[n].precision >= level then [n] else [])
  }

  /**
   The gate: when more than one position qualifies, the last qualifying position k, which selects
   the prefix `0..k` (`np.arange(0, good_idx[-1] + 1)`); otherwise no selection.
   */
  function Gate(pts: seq<Point>, level: real): (k: Option<nat>)
    ensures k.Some? ==> 1 <= k.value < |pts|
  {
    var good := Qualifying(pts, level);
    if |good| > 1 then
      assert good[0] < good[|good| - 1];
      Some(good[|good| - 1] as nat)
    else None
  }

  /** The selected prefix ends at a qualifying position, and nothing after it qualifies. */
  lemma GateIsLastQualifying(pts: seq<Point>, level: real)
    requires Gate(pts, level).Some?
    ensures var k := Gate(pts, level).value;
      && pts[k].precision >= level
      && (forall j :: k < j < |pts| ==> pts[j].precision < level)
  {
    var good := Qualifying(pts, level);
    var k := good[|good| - 1];
    assert k in good;
    forall j | k < j < |pts|
      ensures pts[j].precision < level
    {
    }
  }

  /** The selected prefix contains a second qualifying position before its end. */
  lemma GateHasTwoQualifying(pts: seq<Point>, level: real)
    requires Gate(pts, level).Some?
    ensures var k := Gate(pts, level).value;
      var i := Qualifying(pts, level)[0];
      0 <= i < k && pts[i].precision >= level
  {
    var good := Qualifying(pts, level);
    assert good[0] in good;
  }

  /** No selection exactly when at most one position qualifies. */
  lemma GateNoneIffAtMostOne(pts: seq<Point>, level: real)
    ensures Gate(pts, level).None? <==>
      forall i, j :: 0 <= i < j < |pts| && pts[i].precision >= level ==> pts[j].precision < level
  {
    var good := Qualifying(pts, level);
    if |good| > 1 {
      assert good[0] in good && good[1] in good;
    } else {
      forall i, j | 0 <= i < j < |pts| && pts[i].precision >= level
        ensures pts[j].precision < level
      {
        assert i in good;
      }
    }
  }

  /** Lowering the floor keeps every qualifying position and never moves the end of the prefix left. */
  lemma GateMonotone(pts: seq<Point>, low: real, high: real)
    requires low <= high
    ensures forall i :: i in Qualifying(pts, high) ==> i in Qualifying(pts, low)
    ensures Gate(pts, high).Some? ==>
      Gate(pts, low).Some? && Gate(pts, high).value <= Gate(pts, low).value
  {
    if Gate(pts, high).Some? {
      GateIsLastQualifying(pts, high);
      GateHasTwoQualifying(pts, high);
      GateNoneIffAtMostOne(pts, low);
      GateIsLastQualifying(pts, low);
    }
  }

  // ---------------------------------------------------------------------------------------
  // One category
  // ---------------------------------------------------------------------------------------

  function Recalls(pts: seq<Point>): seq<real>
  {
    seq(|pts|, i requires 0 <= i < |pts| => pts[i].recall)
  }

  function Precisions(pts: seq<Point>): seq<real>
  {
    seq(|pts|, i requires 0 <= i < |pts| => pts[i].precision)
  }

  /** The reversed curve (recall ascending): `y = y[::-1]; x = x[::-1]`. */
  function Reversed(rows: seq<Row>, curve: CurveFn): seq<Point> {
    Reverse(curve(Labels(rows), ScoreColumn(rows)))
  }

  /** The arguments `auc` receives once the gate selected the prefix `0..k`. */
  function Selected(pts: seq<Point>, k: nat): seq<Point>
    requires k < |pts|
  {
    pts[..k + 1]
  }

  /**
   The value one category contributes to `pr_aucs`, or None when nothing is appended (the area
   came out NaN).
   */
  function CategoryScore(rows: seq<Row>, level: real, curve: CurveFn, area: AucFn): (r: Option<real>)
    ensures Positives(Labels(rows)) == 0 ==> r == Some(0.0)
    ensures r != Some(0.0) ==>
      && Positives(Labels(rows)) > 0
      && Gate(Reversed(rows, curve), level).Some?
      && (var pts := Reversed(rows, curve);
          var k := Gate(pts, level).value;
          var a := area(Recalls(pts[..k + 1]), Precisions(pts[..k + 1]));
          if r.None? then a == NotANumber else a == Area(r.value))
  {
    if Positives(Labels(rows)) == 0 then Some(0.0)
    else
      var pts := Reversed(rows, curve);
      match Gate(pts, level)
      case None => Some(0.0)
      case Some(k) =>
        var sel := Selected(pts, k);
        match area(Recalls(sel), Precisions(sel))
        case Area(v) => Some(v)
        case NotANumber => None
        case ValueError => Some(0.0)
  }

  /** A category without positive rows scores 0, whatever the curve and the area would say. */
  lemma NoPositivesScoresZero(rows: seq<Row>, level: real, curve1: CurveFn, area1: AucFn, curve2: CurveFn, area2: AucFn)
    requires forall i :: 0 <= i < |rows| ==> !rows[i].target
    ensures CategoryScore(rows, level, curve1, area1) == Some(0.0)
    ensures CategoryScore(rows, level, curve1, area1) == CategoryScore(rows, level, curve2, area2)
  {
  }

  /** If at most one reversed position meets the floor, the category scores 0. */
  lemma AtMostOneQualifyingScoresZero(rows: seq<Row>, level: real, curve: CurveFn, area: AucFn)
    requires forall i, j :: 0 <= i < j < |Reversed(rows, curve)| && Reversed(rows, curve)[i].precision >= level ==>
      Reversed(rows, curve)[j].precision < level
    ensures CategoryScore(rows, level, curve, area) == Some(0.0)
  {
    GateNoneIffAtMostOne(Reversed(rows, curve), level);
  }

  /**
   When the gate selects a prefix, `auc` receives at least two points, the recalls and precisions
   of the reversed curve up to the last position meeting the floor; a ValueError scores 0, a NaN
   appends nothing, and an area is appended as is.
   */
  lemma GatedCategoryUsesArea(rows: seq<Row>, level: real, curve: CurveFn, area: AucFn)
    requires Positives(Labels(rows)) > 0
    requires Gate(Reversed(rows, curve), level).Some?
    ensures var pts := Reversed(rows, curve);
      var k := Gate(pts, level).value;
      var xs := Recalls(pts[..k + 1]);
      var ys := Precisions(pts[..k + 1]);
      && |xs| == |ys| >= 2
      && ys[k] >= level
      && (forall i :: 0 <= i <= k ==> xs[i] == pts[i].recall && ys[i] == pts[i].precision)
      && (area(xs, ys) == ValueError ==> CategoryScore(rows, level, curve, area) == Some(0.0))
      && (area(xs, ys) == NotANumber ==> CategoryScore(rows, level, curve, area) == None)
      && (area(xs, ys).Area? ==> CategoryScore(rows, level, curve, area) == Some(area(xs, ys).value))
  {
    GateIsLastQualifying(Reversed(rows, curve), level);
  }

  /** A category is dropped from `pr_aucs` exactly when it reaches `auc` and `auc` returns NaN. */
  lemma DroppedIffNaN(rows: seq<Row>, level: real, curve: CurveFn, area: AucFn)
    ensures CategoryScore(rows, level, curve, area).None? <==>
      && Positives(Labels(rows)) > 0
      && Gate(Reversed(rows, curve), level).Some?
      && area(Recalls(Reversed(rows, curve)[..Gate(Reversed(rows, curve), level).value + 1]),
              Precisions(Reversed(rows, curve)[..Gate(Reversed(rows, curve), level).value + 1])) == NotANumber
  {
  }

  // ---------------------------------------------------------------------------------------
  // The category loop and the macro average
  // ---------------------------------------------------------------------------------------

  /** `counts[i] / len(categories)`. */
  function Weight(rows: seq<Row>, c: int): real
    requires |rows| > 0
  {
    Count(Categories(rows), c) as real / |rows| as real
  }

  /** A category's weight lies in (0, 1] when the category occurs, and is 0 otherwise. */
  lemma WeightInUnit(rows: seq<Row>, c: int)
    requires |rows| > 0
    ensures c in Categories(rows) ==> 0.0 < Weight(rows, c) <= 1.0
    ensures c !in Categories(rows) ==> Weight(rows, c) == 0.0
  {
    RatioInUnit(Count(Categories(rows), c), |rows|);
  }

  lemma RatioInUnit(k: nat, n: nat)
    requires 0 < n && k <= n
    ensures k == 0 ==> k as real / n as real == 0.0
    ensures k > 0 ==> 0.0 < k as real / n as real <= 1.0
  {
    var q := k as real / n as real;
    assert q * n as real == k as real;
  }

  /** Every category's weight, as one function of the category. */
  function WeightOf(rows: seq<Row>): int -> real
    requires |rows| > 0
  {
    c => Weight(rows, c)
  }

  /** Every category's `pr_aucs` contribution, if any, as one function of the category. */
  function ScoreOf(rows: seq<Row>, level: real, curve: CurveFn, area: AucFn): int -> Option<real>
  {
    c => CategoryScore(InCategory(rows, c), level, curve, area)
  }

  /** One entry per category of `cats`. */
  function Tabulate<T>(cats: seq<int>, f: int -> T): seq<T>
  {
    seq(|cats|, j requires 0 <= j < |cats| => f(cats[j]))
  }

  lemma TabulateSnoc<T>(cats: seq<int>, f: int -> T)
    requires |cats| > 0
    ensures Tabulate(cats, f) == Tabulate(cats[..|cats| - 1], f) + [f(cats[|cats| - 1])]
  {
  }

  /** The weight of every category of `cats`. */
  function Weights(rows: seq<Row>, cats: seq<int>): seq<real>
    requires |rows| > 0
  {
    Tabulate(cats, WeightOf(rows))
  }

  /** The values that are present, in order. */
  function Present(os: seq<Option<real>>): (vs: seq<real>)
    ensures |vs| <= |os|
    ensures |vs| == |os| <==> forall j :: 0 <= j < |os| ==> os[j].Some?
    ensures (forall j :: 0 <= j < |os| ==> os[j].Some?) ==> forall j :: 0 <= j < |os| ==> vs[j] == os[j].value
  {
    if os == [] then []
    else
      var rest := Present(os[..|os| - 1]);
      match os[|os| - 1]
      case Some(v) => rest + [v]
      case None => rest
  }

  lemma PresentSnoc(os: seq<Option<real>>)
    requires |os| > 0
    ensures var o := os[|os| - 1];
      Present(os) == Present(os[..|os| - 1]) + (if o.Some? then [o.value] else [])
  {
  }

  /**
   The loop over the categories `cats`: the `(weights, pr_aucs)` lists it accumulates. Every
   category appends exactly one weight; it appends one value unless that value is dropped.
   */
  function Collect(cats: seq<int>, weight: int -> real, score: int -> Option<real>): (acc: (seq<real>, seq<real>))
    ensures acc.0 == Tabulate(cats, weight)
    ensures acc.1 == Present(Tabulate(cats, score))
  {
    if cats == [] then ([], [])
    else
      var acc0 := Collect(cats[..|cats| - 1], weight, score);
      var c := cats[|cats| - 1];
      var o := score(c);
      TabulateSnoc(cats, weight);
      TabulateSnoc(cats, score);
      PresentSnoc(Tabulate(cats, score));
      (acc0.0 + [weight(c)], acc0.1 + (if o.Some? then [o.value] else []))
  }

  /** A sequence of ratios `count / n`, one per category, sums to the total count over n. */
  lemma {:induction false} SumOfRatios(ws: seq<real>, cs: seq<int>, cats: seq<int>, n: nat)
    requires n > 0 && |ws| == |cats|
    requires forall j :: 0 <= j < |cats| ==> ws[j] == Count(cs, cats[j]) as real / n as real
    ensures Sum(ws) == SumCounts(cs, cats) as real / n as real
  {
    if cats != [] {
      var m := |cats| - 1;
      SumOfRatios(ws[..m], cs, cats[..m], n);
      AddFractions(SumCounts(cs, cats[..m]) as real, Count(cs, cats[m]) as real, n as real);
    }
  }

  /** With weights summing to 1, `np.average` is the plain weighted sum, or a shape mismatch. */
  lemma UnitWeightsAverage(vs: seq<real>, ws: seq<real>)
    requires Sum(ws) == 1.0
    ensures |vs| == |ws| ==> Average(vs, ws) == Success(Dot(vs, ws))
    ensures |vs| != |ws| ==> Average(vs, ws) == Failure(ShapeMismatch)
  {
  }

  lemma AddFractions(a: real, b: real, n: real)
    requires n > 0.0
    ensures a / n + b / n == (a + b) / n
  {
  }

  lemma SelfRatio(n: nat)
    requires n > 0
    ensures n as real / n as real == 1.0
  {
  }

  /** Every category present in the rows gets a positive weight. */
  lemma WeightsPositive(rows: seq<Row>)
    requires |rows| > 0
    ensures var cats := Unique(Categories(rows));
      forall j :: 0 <= j < |cats| ==> Weights(rows, cats)[j] > 0.0
  {
    var cats := Unique(Categories(rows));
    forall j | 0 <= j < |cats|
      ensures Weights(rows, cats)[j] > 0.0
    {
      assert cats[j] in Categories(rows);
      WeightInUnit(rows, cats[j]);
    }
  }

  /** One weight per distinct category, and together they sum to 1. */
  lemma WeightsSumToOne(rows: seq<Row>)
    requires |rows| > 0
    ensures Sum(Weights(rows, Unique(Categories(rows)))) == 1.0
  {
    var cs := Categories(rows);
    var cats := Unique(cs);
    SumOfRatios(Weights(rows, cats), cs, cats, |rows|);
    CountsSumToLength(cs, cats);
    SelfRatio(|rows|);
  }

  /** Two categories holding 3 and 1 of 4 joined rows weigh 0.75 and 0.25. */
  lemma ThreeAndOneWeights(s1: real, s2: real, s3: real, s4: real)
    ensures var rows := [Row(true, s1, 7), Row(false, s2, 7), Row(true, s3, 7), Row(false, s4, 9)];
      Weights(rows, Unique(Categories(rows))) == [0.75, 0.25]
  {
    var rows := [Row(true, s1, 7), Row(false, s2, 7), Row(true, s3, 7), Row(false, s4, 9)];
    var cs := Categories(rows);
    assert cs == [7, 7, 7, 9];
    assert cs[..3] == [7, 7, 7] && [7, 7, 7][..2] == [7, 7] && [7, 7][..1] == [7] && [7][..0] == [];
    assert Unique([7]) == [7];
    assert Unique([7, 7]) == [7];
    assert Unique([7, 7, 7]) == [7];
    assert Unique(cs) == [7, 9];
    assert Count([7], 7) == 1 && Count([7, 7], 7) == 2 && Count([7, 7, 7], 7) == 3;
    assert Count(cs, 7) == 3;
    assert Count([7, 7, 7], 9) == 0;
    assert Count(cs, 9) == 1;
    var ws := Weights(rows, [7, 9]);
    assert ws[0] == 3.0 / 4.0 && ws[1] == 1.0 / 4.0;
  }

  /**
   `pr_auc_macro` on the joined rows: `np.average(pr_aucs, weights=weights)` over the sorted
   distinct categories. An empty join leaves no weights, and `np.average` refuses their zero sum.
   Otherwise the metric succeeds exactly when no category is dropped, and then it is the sum of
   each category's value times its weight, because the weights sum to 1. A dropped category leaves
   one weight more than values, and `np.average` refuses the mismatched shapes.
   */
  function PrAucMacro(rows: seq<Row>, level: real, curve: CurveFn, area: AucFn): (r: Result<real, AverageError>)
    ensures |rows| == 0 ==> r == Failure(ZeroWeightSum)
    ensures |rows| > 0 ==>
      var cats := Unique(Categories(rows));
      var os := Tabulate(cats, ScoreOf(rows, level, curve, area));
      && (r.Success? <==> forall j :: 0 <= j < |cats| ==> os[j].Some?)
      && (r.Failure? ==> r.error == ShapeMismatch)
      && (r.Success? ==> r.value == Dot(Present(os), Weights(rows, cats)))
  {
    if |rows| == 0 then Average([], [])
    else
      var cats := Unique(Categories(rows));
      var acc := Collect(cats, WeightOf(rows), ScoreOf(rows, level, curve, area));
      WeightsSumToOne(rows);
      UnitWeightsAverage(acc.1, acc.0);
      Average(acc.1, acc.0)
  }
}
