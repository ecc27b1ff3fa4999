/** Correlation-derived subject weights and the weighted mark (spreadsheet2.py,
    `get_all_correlation`, `get_correlation_weights`, `weighted_corr_mark`). */
module Weighting {
  import opened Outcomes
  import opened Sums
  import opened Records
  import opened Statistics

  /** The three predictor subjects, in the order the sheet lists their correlations and weights. */
  const Subjects: seq<string> := ["English", "Math", "GA"]

  /** The outcome every subject is correlated against. */
  const ScoreField: string := "Selective Score"

  /** The four columns are extracted first (English, Math, GA, Selective Score, each lookup
      raising KeyError on a record without it); then the three correlations, in subject order. */
  function AllCorrelations(data: seq<Record>, root: real -> real): (r: Result<seq<real>>)
    ensures r.Ok? ==> |r.value| == 3
  {
    var english :- ColumnOf(data, "English");
    var math :- ColumnOf(data, "Math");
    var ga :- ColumnOf(data, "GA");
    var score :- ColumnOf(data, ScoreField);
    var englishCorr :- SampleCorrelation(english, score, root);
    var mathCorr :- SampleCorrelation(math, score, root);
    var gaCorr :- SampleCorrelation(ga, score, root);
    Ok([englishCorr, mathCorr, gaCorr])
  }

  /** Each correlation divided by their sum; a zero sum raises ZeroDivisionError. */
  function Normalise(corr: seq<real>): (r: Result<seq<real>>)
    ensures r.Ok? <==> Sum(corr) != 0.0
    ensures r.Err? ==> r.error == DivisionByZero
    ensures r.Ok? ==> |r.value| == |corr| && Sum(r.value) == 1.0
    ensures r.Ok? ==> forall i :: 0 <= i < |corr| ==> r.value[i] * Sum(corr) == corr[i]
  {
    var total := Sum(corr);
    if total == 0.0 then Err(DivisionByZero)
    else
      var w := seq(|corr|, i requires 0 <= i < |corr| => corr[i] / total);
      SumOfQuotients(corr, total);
      QuotientOfSelf(total);
      Ok(w)
  }

  /** The weights `get_correlation_weights` returns: three reals summing to 1, or the
      failure of the correlations or of the normalisation. */
  function CorrelationWeights(data: seq<Record>, root: real -> real): (r: Result<seq<real>>)
    ensures r.Ok? ==> |r.value| == 3 && Sum(r.value) == 1.0
  {
    var corr :- AllCorrelations(data, root);
    Normalise(corr)
  }

  /** `get_correlation_weights`: sums the correlations and appends corr[i] / total for the
      three subjects; the first division by a zero total raises. */
  method GetCorrelationWeights(data: seq<Record>, root: real -> real) returns (r: Result<seq<real>>)
    ensures r == CorrelationWeights(data, root)
    ensures r.Ok? ==> |r.value| == 3 && Sum(r.value) == 1.0
  {
    var listCorr :- AllCorrelations(data, root);
    var total := Sum(listCorr);
    var listWeight: seq<real> := [];
    for i := 0 to 3
      invariant |listWeight| == i
      invariant i > 0 ==> total != 0.0
      invariant forall k :: 0 <= k < i ==> listWeight[k] == listCorr[k] / total
    {
      if total == 0.0 {
        return Err(DivisionByZero);
      }
      listWeight := listWeight + [listCorr[i] / total];
    }
    assert listWeight == Normalise(listCorr).value;
    return Ok(listWeight);
  }

  /** english * w[0] + math * w[1] + ga * w[2] */
  function WeightedMark(w: seq<real>, english: real, math: real, ga: real): real
    requires |w| == 3
  {
    english * w[0] + math * w[1] + ga * w[2]
  }

  /** `weighted_corr_mark`: recomputes the weights from the data, then weighs the three marks. */
  function WeightedCorrMark(data: seq<Record>, root: real -> real, english: real, math: real, ga: real): (r: Result<real>)
    ensures r.Ok? <==> CorrelationWeights(data, root).Ok?
    ensures r.Err? ==> r.error == CorrelationWeights(data, root).error
    ensures r.Ok? && english == math == ga ==> r.value == english
  {
    var w :- CorrelationWeights(data, root);
    WeightedMarkOfEqualMarks(w, english);
    Ok(WeightedMark(w, english, math, ga))
  }

  // ---------------------------------------------------------------------------
  // Lemmas

  /** `get_all_correlation` returns three values, in the order English, Math, GA, each the
      correlation of that subject's column with the Selective Score column. It succeeds
      exactly when every record has the four fields and none of the four columns is constant;
      otherwise it reports the first missing field, in extraction order, or else the division by zero. */
  lemma AllCorrelationsFacts(data: seq<Record>, root: real -> real)
    requires IsSqrt(root)
    ensures var r := AllCorrelations(data, root);
      && (r.Ok? <==>
            && HasField(data, "English") && HasField(data, "Math") && HasField(data, "GA")
            && HasField(data, ScoreField)
            && !Constant(Column(data, "English")) && !Constant(Column(data, "Math"))
            && !Constant(Column(data, "GA")) && !Constant(Column(data, ScoreField)))
      && (r.Ok? ==>
            && |r.value| == 3
            && forall k :: 0 <= k < 3 ==>
                 SampleCorrelation(Column(data, Subjects[k]), Column(data, ScoreField), root) == Ok(r.value[k]))
      && (!HasField(data, "English") ==> r == Err(MissingField("English")))
      && (HasField(data, "English") && !HasField(data, "Math") ==> r == Err(MissingField("Math")))
      && (HasField(data, "English") && HasField(data, "Math") && !HasField(data, "GA") ==>
            r == Err(MissingField("GA")))
      && ((HasField(data, "English") && HasField(data, "Math") && HasField(data, "GA") &&
           !HasField(data, ScoreField)) ==> r == Err(MissingField(ScoreField)))
      && ((HasField(data, "English") && HasField(data, "Math") && HasField(data, "GA") &&
           HasField(data, ScoreField) && r.Err?) ==> r.error == DivisionByZero)
  {
    if HasField(data, "English") && HasField(data, "Math") && HasField(data, "GA") && HasField(data, ScoreField) {
      var score := Column(data, ScoreField);
      CorrelationFailsIffConstant(Column(data, "English"), score, root);
      CorrelationFailsIffConstant(Column(data, "Math"), score, root);
      CorrelationFailsIffConstant(Column(data, "GA"), score, root);
    }
  }

  /** Because the weights sum to 1, three equal marks c yield c. */
  lemma WeightedMarkOfEqualMarks(w: seq<real>, c: real)
    requires |w| == 3 && Sum(w) == 1.0
    ensures WeightedMark(w, c, c, c) == c
  {
    SumOfThree(w);
    ScaleByOne(c, w[0], w[1], w[2]);
  }

  /** With non-negative weights summing to 1 the weighted mark is a weighted average:
      it lies between the smallest and the largest of the three marks. */
  lemma WeightedMarkBetween(w: seq<real>, english: real, math: real, ga: real)
    requires |w| == 3 && Sum(w) == 1.0
    requires 0.0 <= w[0] && 0.0 <= w[1] && 0.0 <= w[2]
    ensures Min3(english, math, ga) <= WeightedMark(w, english, math, ga) <= Max3(english, math, ga)
  {
    SumOfThree(w);
    AboveLow(english, math, ga, w[0], w[1], w[2], Min3(english, math, ga));
    BelowHigh(english, math, ga, w[0], w[1], w[2], Max3(english, math, ga));
  }

  lemma AboveLow(e: real, m: real, g: real, w0: real, w1: real, w2: real, lo: real)
    requires lo <= e && lo <= m && lo <= g
    requires 0.0 <= w0 && 0.0 <= w1 && 0.0 <= w2 && w0 + w1 + w2 == 1.0
    ensures lo <= e * w0 + m * w1 + g * w2
  {
    ScaleMonotone(lo, e, w0);
    ScaleMonotone(lo, m, w1);
    ScaleMonotone(lo, g, w2);
    SumBelow(lo * w0, lo * w1, lo * w2, e * w0, m * w1, g * w2);
    ScaleByOne(lo, w0, w1, w2);
  }

  lemma BelowHigh(e: real, m: real, g: real, w0: real, w1: real, w2: real, hi: real)
    requires e <= hi && m <= hi && g <= hi
    requires 0.0 <= w0 && 0.0 <= w1 && 0.0 <= w2 && w0 + w1 + w2 == 1.0
    ensures e * w0 + m * w1 + g * w2 <= hi
  {
    ScaleMonotone(e, hi, w0);
    ScaleMonotone(m, hi, w1);
    ScaleMonotone(g, hi, w2);
    SumBelow(e * w0, m * w1, g * w2, hi * w0, hi * w1, hi * w2);
    ScaleByOne(hi, w0, w1, w2);
  }

  function Min3(a: real, b: real, c: real): real
  {
    if a <= b && a <= c then a else if b <= c then b else c
  }

  function Max3(a: real, b: real, c: real): real
  {
    if a >= b && a >= c then a else if b >= c then b else c
  }

  lemma ScaleByOne(c: real, w0: real, w1: real, w2: real)
    requires w0 + w1 + w2 == 1.0
    ensures c * w0 + c * w1 + c * w2 == c
  {
    assert c * w0 + c * w1 + c * w2 == c * (w0 + w1 + w2);
  }

  lemma SumBelow(a0: real, a1: real, a2: real, b0: real, b1: real, b2: real)
    requires a0 <= b0 && a1 <= b1 && a2 <= b2
    ensures a0 + a1 + a2 <= b0 + b1 + b2
  {
  }

  lemma ScaleMonotone(a: real, b: real, w: real)
    requires a <= b && 0.0 <= w
    ensures a * w <= b * w
  {
  }
}
