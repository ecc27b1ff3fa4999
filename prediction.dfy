/** The end-to-end prediction of spreadsheet2.py: `equation_best_fit` builds matrix a (rows [1, WAM])
    and matrix b (rows [Selective Score]) from two sheet columns and solves the normal equations;
    `update_expected_mark` evaluates the fitted line at the weighted mark of three input marks.

    A sheet column is a function from the row offset below its header cell to the cell's value:
    offset 0 is the header cell itself, offset i >= 1 is the i-th student. The header cell holds
    the column's label; the function gives it a number, like every other cell. */
module Prediction {
  import opened Outcomes
  import opened Sums
  import opened Records
  import opened Statistics
  import opened Weighting
  import opened Matrices
  import opened LineFit

  /** The n cells of a column read at offsets first, ..., first + n - 1 from its header cell. */
  function SheetColumn(cells: nat -> real, first: nat, n: nat): (c: seq<real>)
    ensures |c| == n && forall i :: 0 <= i < n ==> c[i] == cells(first + i)
  {
    seq(n, i requires 0 <= i < n => cells(first + i))
  }

  /** The line `equation_best_fit` computes when it reads its n rows from offset `first`:
      n is the length of the English column (a KeyError on a record without it), then the
      line fitted to n WAM and Selective Score cells. The code reads from offset 0, the
      header row; the students' rows start at offset 1. */
  function BestFit(data: seq<Record>, wam: nat -> real, score: nat -> real, first: nat): (r: Result<Line>)
    ensures !HasField(data, "English") ==> r == Err(MissingField("English"))
    ensures HasField(data, "English") ==>
              (r.Err? <==> Constant(SheetColumn(wam, first, |data|))) && (r.Err? ==> r.error == SingularMatrix)
    ensures r.Ok? ==> NormalEquations(SheetColumn(wam, first, |data|), SheetColumn(score, first, |data|), r.value)
  {
    if !HasField(data, "English") then Err(MissingField("English"))
    else FitLine(SheetColumn(wam, first, |data|), SheetColumn(score, first, |data|))
  }

  /** `equation_best_fit` as written: for i in 0 .. n-1 it reads the cells at offset i from
      the headers, appends [1, mark] to matrix a and the score to matrix b; then
      lhs = a^T a, rhs = a^T b and the solve. */
  method EquationBestFit(data: seq<Record>, wam: nat -> real, score: nat -> real) returns (r: Result<Line>)
    ensures r == BestFit(data, wam, score, 0)
  {
    var numStudents :- GetNumStudents(data);
    var marksList: Matrix := [];
    var selectiveScoreList: Matrix := [];
    for i := 0 to numStudents
      invariant marksList == DesignMatrix(SheetColumn(wam, 0, i))
      invariant selectiveScoreList == TargetVector(SheetColumn(score, 0, i))
    {
      var mark := wam(i);
      marksList := marksList + [[1.0, mark]];
      var selectiveMark := score(i);
      selectiveScoreList := selectiveScoreList + [[selectiveMark]];
      assert marksList == DesignMatrix(SheetColumn(wam, 0, i + 1));
      assert selectiveScoreList == TargetVector(SheetColumn(score, 0, i + 1));
    }
    var lhs := MatMul(Transpose(marksList, numStudents, 2), marksList, 2, numStudents, 2);
    var rhs := MatMul(Transpose(marksList, numStudents, 2), selectiveScoreList, 2, numStudents, 1);
    var result :- Solve(lhs, rhs);
    return Ok(Line(result[0][0], result[1][0]));
  }

  /** The expected Selective Score `update_expected_mark` is meant to give: the weighted mark
      of the English, Math and GA input marks, evaluated on the line fitted to the students'
      rows. The weights are computed first, so their failure is reported before that of the fit. */
  function ExpectedMark(data: seq<Record>, root: real -> real, wam: nat -> real, score: nat -> real,
                        inputs: seq<real>): (r: Result<real>)
    requires |inputs| == 3
    ensures r.Ok? <==> CorrelationWeights(data, root).Ok? && BestFit(data, wam, score, 1).Ok?
    ensures CorrelationWeights(data, root).Err? ==> r == Err(CorrelationWeights(data, root).error)
    ensures r.Ok? ==> r.value == Predict(BestFit(data, wam, score, 1).value,
                                         WeightedMark(CorrelationWeights(data, root).value, inputs[0], inputs[1], inputs[2]))
  {
    var weightedMark :- WeightedCorrMark(data, root, inputs[0], inputs[1], inputs[2]);
    var line :- BestFit(data, wam, score, 1);
    Ok(Predict(line, weightedMark))
  }

  /** `update_expected_mark` as written: it passes `input_marks[1]` (the Math mark) where the GA
      mark belongs, and takes the line `equation_best_fit` computes from offset 0. */
  function ExpectedMarkAsWritten(data: seq<Record>, root: real -> real, wam: nat -> real, score: nat -> real,
                                 inputs: seq<real>): (r: Result<real>)
    requires |inputs| == 3
    ensures r.Ok? <==> CorrelationWeights(data, root).Ok? && BestFit(data, wam, score, 0).Ok?
    ensures CorrelationWeights(data, root).Err? ==> r == Err(CorrelationWeights(data, root).error)
    ensures r.Ok? ==> r.value == Predict(BestFit(data, wam, score, 0).value,
                                         WeightedMark(CorrelationWeights(data, root).value, inputs[0], inputs[1], inputs[1]))
  {
    var weightedMark :- WeightedCorrMark(data, root, inputs[0], inputs[1], inputs[1]);
    var line :- BestFit(data, wam, score, 0);
    Ok(Predict(line, weightedMark))
  }

  // ---------------------------------------------------------------------------
  // Lemmas

  /** Three equal input marks c predict the fitted line's value at c, whatever the weights. */
  lemma ExpectedMarkOfEqualMarks(data: seq<Record>, root: real -> real, wam: nat -> real, score: nat -> real, c: real)
    requires ExpectedMark(data, root, wam, score, [c, c, c]).Ok?
    ensures ExpectedMark(data, root, wam, score, [c, c, c]).value == Predict(BestFit(data, wam, score, 1).value, c)
  {
    var w := CorrelationWeights(data, root).value;
    WeightedMarkOfEqualMarks(w, c);
  }

  /** As written, the GA input mark has no effect on the result. */
  lemma AsWrittenIgnoresGa(data: seq<Record>, root: real -> real, wam: nat -> real, score: nat -> real,
                           inputs: seq<real>, ga: real)
    requires |inputs| == 3
    ensures ExpectedMarkAsWritten(data, root, wam, score, inputs)
         == ExpectedMarkAsWritten(data, root, wam, score, [inputs[0], inputs[1], ga])
  {
  }

  /** With the GA mark passed, the GA mark matters: when its weight and the gradient are
      non-zero, two different GA marks give two different expected scores. */
  lemma ExpectedMarkUsesGa(data: seq<Record>, root: real -> real, wam: nat -> real, score: nat -> real,
                           inputs: seq<real>, ga: real)
    requires |inputs| == 3 && ExpectedMark(data, root, wam, score, inputs).Ok?
    requires CorrelationWeights(data, root).value[2] != 0.0
    requires BestFit(data, wam, score, 1).value.gradient != 0.0
    requires ga != inputs[2]
    ensures ExpectedMark(data, root, wam, score, [inputs[0], inputs[1], ga]).Ok?
    ensures ExpectedMark(data, root, wam, score, [inputs[0], inputs[1], ga]).value
         != ExpectedMark(data, root, wam, score, inputs).value
  {
    var w := CorrelationWeights(data, root).value;
    var line := BestFit(data, wam, score, 1).value;
    var other := [inputs[0], inputs[1], ga];
    assert other[0] == inputs[0] && other[1] == inputs[1] && other[2] == ga;
    PredictionsDiffer(line, w, inputs[0], inputs[1], ga, inputs[2]);
  }

  /** On a line with a non-zero gradient, with a non-zero GA weight, the weighted marks
      (e, m, g) and (e, m, g') predict different scores when g != g'. */
  lemma PredictionsDiffer(line: Line, w: seq<real>, e: real, m: real, g: real, g': real)
    requires |w| == 3 && w[2] != 0.0 && line.gradient != 0.0 && g != g'
    ensures Predict(line, WeightedMark(w, e, m, g)) != Predict(line, WeightedMark(w, e, m, g'))
  {
    MarksDiffer(line.intercept, line.gradient, w[0], w[1], w[2], e, m, g, g');
  }

  /** Predictions from (e, m, g) and (e, m, g') differ by gradient * w2 * (g - g'). */
  lemma MarksDiffer(b0: real, b1: real, w0: real, w1: real, w2: real, e: real, m: real, g: real, g': real)
    requires b1 != 0.0 && w2 != 0.0 && g != g'
    ensures b0 + b1 * (e * w0 + m * w1 + g * w2) != b0 + b1 * (e * w0 + m * w1 + g' * w2)
  {
    ProductZero(w2, g - g');
    ProductZero(b1, (g - g') * w2);
    assert (e * w0 + m * w1 + g * w2) - (e * w0 + m * w1 + g' * w2) == (g - g') * w2;
    assert b1 * (e * w0 + m * w1 + g * w2) - b1 * (e * w0 + m * w1 + g' * w2) == b1 * ((g - g') * w2);
  }

  /** The rows read from offset 0 are the header row followed by all students but the last. */
  lemma HeaderRowRead(cells: nat -> real, n: nat)
    requires n >= 1
    ensures SheetColumn(cells, 0, n) == [cells(0)] + SheetColumn(cells, 1, n - 1)
  {
    assert forall i :: 0 <= i < n ==>
      SheetColumn(cells, 0, n)[i] == ([cells(0)] + SheetColumn(cells, 1, n - 1))[i];
  }

  /** The fit from offset 0 reads only the cells at offsets 0 to n - 1, so the last student,
      at offset n, never takes part: other values there leave the result unchanged. */
  lemma LastStudentNeverRead(data: seq<Record>, wam: nat -> real, score: nat -> real,
                             wam': nat -> real, score': nat -> real)
    requires forall i :: 0 <= i < |data| ==> wam'(i) == wam(i) && score'(i) == score(i)
    ensures BestFit(data, wam', score', 0) == BestFit(data, wam, score, 0)
  {
    assert SheetColumn(wam', 0, |data|) == SheetColumn(wam, 0, |data|);
    assert SheetColumn(score', 0, |data|) == SheetColumn(score, 0, |data|);
  }

  /** The fit over the students' rows reads the last student: when it succeeds, another
      score for the student at offset n, all other students unchanged, gives another line. */
  lemma CorrectedFitReadsLastStudent(data: seq<Record>, wam: nat -> real, score: nat -> real, score': nat -> real)
    requires BestFit(data, wam, score, 1).Ok?
    requires forall i :: 1 <= i < |data| ==> score'(i) == score(i)
    requires score'(|data|) != score(|data|)
    ensures BestFit(data, wam, score', 1).Ok?
    ensures BestFit(data, wam, score', 1).value != BestFit(data, wam, score, 1).value
  {
    var xs := SheetColumn(wam, 1, |data|);
    var ys, ys' := SheetColumn(score, 1, |data|), SheetColumn(score', 1, |data|);
    assert |data| >= 1 by { if |data| == 0 { assert Constant(xs); } }
    var n := |data| - 1;
    assert ys[..n] == ys'[..n];
    LastSum(ys, n);
    LastSum(ys', n);
    SameLineSameSum(xs, ys, ys', BestFit(data, wam, score, 1).value, BestFit(data, wam, score', 1).value);
  }

  /** One line cannot solve the normal equations of the same marks for two score lists of
      different sums: the first equation fixes the sum of the scores. */
  lemma SameLineSameSum(xs: seq<real>, ys: seq<real>, ys': seq<real>, line: Line, line': Line)
    requires |xs| == |ys| == |ys'|
    requires NormalEquations(xs, ys, line) && NormalEquations(xs, ys', line')
    ensures line == line' ==> Sum(ys) == Sum(ys')
  {
    if line == line' {
      FirstRowFixesSum(|xs| as real, Sum(xs), SumSquares(xs), Sum(ys), SumProducts(xs, ys),
                       Sum(ys'), SumProducts(xs, ys'), line.intercept, line.gradient);
    }
  }

  lemma FirstRowFixesSum(n: real, s: real, t: real, u: real, v: real, u': real, v': real, p: real, q: real)
    requires SolvesNormalSystem(n, s, t, u, v, p, q) && SolvesNormalSystem(n, s, t, u', v', p, q)
    ensures u == u'
  {
  }

  /** When every student's score lies on one line and the students' WAM cells are not all
      equal, the fit over the students' rows returns that line, and a student's own WAM
      predicts that student's score. */
  lemma BestFitRecoversExactLine(data: seq<Record>, wam: nat -> real, score: nat -> real, line: Line, k: nat)
    requires HasField(data, "English") && 1 <= k <= |data|
    requires forall i :: 1 <= i <= |data| ==> score(i) == Predict(line, wam(i))
    requires !Constant(SheetColumn(wam, 1, |data|))
    ensures BestFit(data, wam, score, 1) == Ok(line)
    ensures Predict(BestFit(data, wam, score, 1).value, wam(k)) == score(k)
  {
    var xs, ys := SheetColumn(wam, 1, |data|), SheetColumn(score, 1, |data|);
    assert ys == Predictions(xs, line);
    FitLineRecoversExactLine(xs, ys, line);
  }

  /** The fitted line has the least squared error over the cells it was fitted to. */
  lemma BestFitIsLeastSquares(data: seq<Record>, wam: nat -> real, score: nat -> real, first: nat, other: Line)
    requires BestFit(data, wam, score, first).Ok?
    ensures SquaredError(SheetColumn(wam, first, |data|), SheetColumn(score, first, |data|), BestFit(data, wam, score, first).value)
         <= SquaredError(SheetColumn(wam, first, |data|), SheetColumn(score, first, |data|), other)
  {
    FitLineMinimisesSquaredError(SheetColumn(wam, first, |data|), SheetColumn(score, first, |data|), other);
  }
}
