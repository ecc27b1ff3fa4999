/** spreadsheet.py, the stand-alone least-squares script: it reads every record's Mark and
    Selective Score into matrix a (rows [1, Mark]) and matrix b (rows [Selective Score]), solves
    (a^T a) x = a^T b for the intercept and gradient, and predicts the score of one input mark. */
module LeastSquaresScript {
  import opened Outcomes
  import opened Records
  import opened Statistics
  import opened Matrices
  import opened LineFit

  const MarkField := "Mark"
  const ScoreField := "Selective Score"

  /** Both fields the script reads are present in the record. */
  predicate Complete(rec: Record)
  {
    MarkField in rec && ScoreField in rec
  }

  /** The KeyError for a record that is not complete: Mark is looked up first. */
  function Missing(rec: Record): Error
  {
    if MarkField !in rec then MissingField(MarkField) else MissingField(ScoreField)
  }

  /** The index of the first record that is not complete, or |data| when all are. */
  function FirstIncomplete(data: seq<Record>): (k: nat)
    ensures k <= |data| && forall i :: 0 <= i < k ==> Complete(data[i])
    ensures k < |data| ==> !Complete(data[k])
  {
    if |data| == 0 then 0
    else
      var n := |data| - 1;
      var k := FirstIncomplete(data[..n]);
      assert forall i :: 0 <= i < n ==> data[..n][i] == data[i];
      if k < n then k else if !Complete(data[n]) then n else n + 1
  }

  /** The first incomplete record is determined by its two properties. */
  lemma FirstIncompleteUnique(data: seq<Record>, k: nat)
    requires k < |data| && !Complete(data[k]) && forall i :: 0 <= i < k ==> Complete(data[i])
    ensures FirstIncomplete(data) == k
  {
  }

  /** The marks and scores of the records, in record order, or the KeyError of the first
      record that lacks one of them. */
  function ReadRows(data: seq<Record>): (r: Result<(seq<real>, seq<real>)>)
    ensures r.Ok? <==> HasField(data, MarkField) && HasField(data, ScoreField)
    ensures r.Ok? ==> r.value == (Column(data, MarkField), Column(data, ScoreField))
    ensures r.Err? ==> FirstIncomplete(data) < |data| && r.error == Missing(data[FirstIncomplete(data)])
    decreases |data|
  {
    if |data| == 0 then
      assert Column(data, MarkField) == [] && Column(data, ScoreField) == [];
      Ok(([], []))
    else
      var n := |data| - 1;
      assert forall i :: 0 <= i < n ==> data[..n][i] == data[i];
      var front :- ReadRows(data[..n]);
      if !Complete(data[n]) then
        Err(Missing(data[n]))
      else
        ColumnSnoc(data, MarkField, n);
        ColumnSnoc(data, ScoreField, n);
        Ok((front.0 + [data[n][MarkField]], front.1 + [data[n][ScoreField]]))
  }

  /** The column of a list is the column of its prefix followed by the last record's value. */
  lemma ColumnSnoc(data: seq<Record>, field: string, n: nat)
    requires |data| == n + 1 && HasField(data, field)
    ensures HasField(data[..n], field)
    ensures Column(data, field) == Column(data[..n], field) + [data[n][field]]
  {
    assert forall i :: 0 <= i < n ==> data[..n][i] == data[i];
  }

  /** The loop of lines 23-25: matrix a and matrix b, or the KeyError that ends the loop. */
  method BuildSystem(data: seq<Record>) returns (r: Result<(Matrix, Matrix)>)
    ensures r.Ok? <==> ReadRows(data).Ok?
    ensures r.Err? ==> r.error == ReadRows(data).error
    ensures r.Ok? ==> r.value == (DesignMatrix(ReadRows(data).value.0), TargetVector(ReadRows(data).value.1))
  {
    var marksList: Matrix := [];
    var selectiveResult: Matrix := [];
    ghost var marks: seq<real> := [];
    ghost var scores: seq<real> := [];
    for k := 0 to |data|
      invariant ReadRows(data[..k]) == Ok((marks, scores))
      invariant forall i :: 0 <= i < k ==> Complete(data[i])
      invariant marksList == DesignMatrix(marks) && selectiveResult == TargetVector(scores)
    {
      assert data[..k + 1][..k] == data[..k];
      if MarkField !in data[k] {
        FirstIncompleteUnique(data, k);
        return Err(MissingField(MarkField));
      }
      marksList := marksList + [[1.0, data[k][MarkField]]];
      if ScoreField !in data[k] {
        FirstIncompleteUnique(data, k);
        return Err(MissingField(ScoreField));
      }
      selectiveResult := selectiveResult + [[data[k][ScoreField]]];
      marks, scores := marks + [data[k][MarkField]], scores + [data[k][ScoreField]];
      assert marksList == DesignMatrix(marks);
      assert selectiveResult == TargetVector(scores);
    }
    assert data[..|data|] == data;
    return Ok((marksList, selectiveResult));
  }

  /** What the script writes back: F2 (intercept), F3 (gradient) and F6 (expected mark). */
  datatype Output = Output(intercept: real, gradient: real, expected: real)

  /** The script's computation: read the rows, fit the line, evaluate it at the input mark. */
  function Script(data: seq<Record>, inputMark: int): (r: Result<Output>)
    ensures r.Ok? <==> HasField(data, MarkField) && HasField(data, ScoreField) && !Constant(Column(data, MarkField))
    ensures r.Ok? ==> NormalEquations(Column(data, MarkField), Column(data, ScoreField),
                                      Line(r.value.intercept, r.value.gradient))
    ensures r.Ok? ==> r.value.expected == Predict(Line(r.value.intercept, r.value.gradient), inputMark as real)
    ensures HasField(data, MarkField) && HasField(data, ScoreField) && r.Err? ==> r.error == SingularMatrix
  {
    var cols :- ReadRows(data);
    var line :- FitLine(cols.0, cols.1);
    Ok(Output(line.intercept, line.gradient, Predict(line, inputMark as real)))
  }

  /** Lines 21-57: build the system, matmul, solve, and predict at the input mark. */
  method RunScript(data: seq<Record>, inputMark: int) returns (r: Result<Output>)
    ensures r == Script(data, inputMark)
  {
    var system :- BuildSystem(data);
    var matrixA, matrixB := system.0, system.1;
    var n := |data|;
    ghost var cols := ReadRows(data).value;
    assert matrixA == DesignMatrix(cols.0) && matrixB == TargetVector(cols.1) && |cols.0| == |cols.1| == n;
    var lhs := MatMul(Transpose(matrixA, n, 2), matrixA, 2, n, 2);
    var rhs := MatMul(Transpose(matrixA, n, 2), matrixB, 2, n, 1);
    assert lhs == NormalLhs(cols.0) && rhs == NormalRhs(cols.0, cols.1);
    var result :- Solve(lhs, rhs);
    assert FitLine(cols.0, cols.1) == Ok(Line(result[0][0], result[1][0]));
    var intercept := result[0][0];
    var gradient := result[1][0];
    var expectedSelectiveMark := Predict(Line(intercept, gradient), inputMark as real);
    return Ok(Output(intercept, gradient, expectedSelectiveMark));
  }

  // ---------------------------------------------------------------------------
  // Lemmas

  /** When every record's score lies on one line and the marks are not all equal, the script
      writes that line's intercept and gradient, and a recorded mark predicts its own score. */
  lemma ScriptRecoversExactLine(data: seq<Record>, line: Line, inputMark: int, k: nat)
    requires HasField(data, MarkField) && HasField(data, ScoreField) && k < |data|
    requires Column(data, ScoreField) == Predictions(Column(data, MarkField), line)
    requires !Constant(Column(data, MarkField))
    requires data[k][MarkField] == inputMark as real
    ensures Script(data, inputMark) == Ok(Output(line.intercept, line.gradient, data[k][ScoreField]))
  {
    var xs, ys := Column(data, MarkField), Column(data, ScoreField);
    FitLineRecoversExactLine(xs, ys, line);
    assert ys[k] == data[k][ScoreField] && xs[k] == data[k][MarkField];
  }

  /** The line the script writes has the least squared error over the recorded marks and scores. */
  lemma ScriptIsLeastSquares(data: seq<Record>, inputMark: int, other: Line)
    requires Script(data, inputMark).Ok?
    ensures SquaredError(Column(data, MarkField), Column(data, ScoreField),
                         Line(Script(data, inputMark).value.intercept, Script(data, inputMark).value.gradient))
         <= SquaredError(Column(data, MarkField), Column(data, ScoreField), other)
  {
    FitLineMinimisesSquaredError(Column(data, MarkField), Column(data, ScoreField), other);
  }
}
