# Selective score predictor: a verified model

This project models the statistics engine of a small spreadsheet tool that predicts a student's
Selective Score from their English, Math and GA marks (`spreadsheet2.py`). It also models the
stand-alone least-squares script that fits a line from Mark to Selective Score (`spreadsheet.py`).
All arithmetic is over Dafny's exact `real`.

The model has these parts:

- **Records** (`records.dfy`): a student record is a map from column header to value. It covers
  `get_subject_marks` and `get_num_students`. A lookup of a missing field raises a KeyError,
  which is modelled as `Err(MissingField(field))`.
- **Sums** (`sums.dfy`): sums, sums of squares and dot products over lists, with the algebra the
  proofs need.
- **Statistics** (`statistics.dfy`): `sample_covariance` and `sample_std` are loops over the
  deviation sums. Following the code, they do not divide by n or n - 1. `sample_correlation` is
  a function. `math.sqrt` is the parameter `root`, constrained by `IsSqrt` to return the
  non-negative square root.
- **Weighting** (`weighting.dfy`): `get_all_correlation`, `get_correlation_weights` (a loop) and
  `weighted_corr_mark`.
- **Matrices** (`matrices.dfy`): numpy's `transpose` and `matmul`, and `linalg.solve` for a 2x2
  system by Cramer's rule. The solve fails exactly when the determinant is 0.
- **LineFit** (`linefit.dfy`):
  - matrix a (rows `[1, x]`) and matrix b (rows `[y]`);
  - the shape of `a^T a` and `a^T b`;
  - the fit as the solution of the normal equations;
  - a proof that the fitted line minimises the squared error, and that it recovers exactly linear data.
- **Prediction** (`prediction.dfy`): `equation_best_fit` (a loop over the sheet's WAM and
  Selective Score columns) and the prediction of `update_expected_mark`.
- **LeastSquaresScript** (`script.dfy`): the `spreadsheet.py` script. Its record loop builds
  matrices a and b. It is followed by the products, the solve, and the prediction at the input
  mark.

Errors are values of `Outcomes.Result`:

- `LengthMismatch` for the assertion in `sample_covariance`;
- `DivisionByZero` for a zero divisor;
- `SingularMatrix` for `LinAlgError`.

At the edges the model follows the code rather than a tidier reading of it:

- `statistics.mean` raises on an empty list, but `sample_covariance([], [])` and `sample_std([])`
  never call it. They return 0 and `sqrt(0) = 0`, and the model does the same.
- The fit does not require at least two students up front. With fewer than two, the normal
  matrix is singular and the solve fails; see `LineFit.FitLineNeedsTwoStudents`.
- "Singular" means a determinant of exactly 0, because the model uses exact reals.

## Model

| member | source | states |
|---|---|---|
| Records.GetSubjectMarks | spreadsheet2.py:16-20 | Succeeds exactly when every record has the field. The result has one value per record, in record order, and entry i is `data[i][subject]`. Otherwise it fails with `MissingField(subject)`. |
| Records.GetNumStudents | spreadsheet2.py:121-123 | Succeeds exactly when every record has English, and then returns the number of records. Otherwise it fails with `MissingField("English")`. |
| Statistics.SampleCovariance | spreadsheet2.py:23-29 | Fails with `LengthMismatch` exactly when the lengths differ. Otherwise the accumulated total is the sum of (x_i - mean x)(y_i - mean y), which is 0 on empty lists. |
| Statistics.SampleStd | spreadsheet2.py:32-38 | Returns the root of the sum of squared deviations. The result is non-negative and its square is that sum. |
| Statistics.CovarianceSymmetric | spreadsheet2.py:23-29 | The covariance of (xs, ys) equals that of (ys, xs). |
| Statistics.SquaredDeviationIsSelfCovariance | spreadsheet2.py:32-38 | The sum under the root in `sample_std` equals `sample_covariance(xs, xs)`. |
| Statistics.SquaredDeviationNonNegative | spreadsheet2.py:35-38 | The sum under the root is never negative, so `math.sqrt` is never given a negative number. |
| Statistics.DeviationSquaresZero | spreadsheet2.py:33-36 | A sum of squared deviations from m is 0 if and only if every value equals m. |
| Statistics.SquaredDeviationZeroIffConstant | spreadsheet2.py:32-38 | The sum under the root is 0 if and only if all values are equal. |
| Statistics.StdFacts | spreadsheet2.py:32-38 | The std is non-negative, its square is the sum of squared deviations, and it is 0 if and only if the list is constant. |
| Statistics.CorrelationFailsIffConstant | spreadsheet2.py:41-47 | Lists of different lengths fail with `LengthMismatch`. Lists of equal length fail with `DivisionByZero` if and only if one of them is constant, and succeed otherwise. |
| Statistics.CorrelationSymmetric | spreadsheet2.py:41-47 | The correlation of (xs, ys) equals that of (ys, xs), including their failures. |
| Statistics.SelfCorrelationIsOne | spreadsheet2.py:41-47 | A non-constant list has correlation exactly 1 with itself. |
| Statistics.CorrelationSquared | spreadsheet2.py:41-47 | r^2 * Sxx * Syy == Sxy^2 for a returned correlation r. |
| Weighting.AllCorrelations | spreadsheet2.py:50-60 | A successful result has exactly three entries. |
| Weighting.AllCorrelationsFacts | spreadsheet2.py:50-60 | Succeeds if and only if all four fields are present and none of the four columns is constant. Entry k is the correlation of subject k (English, Math, GA) with Selective Score. Otherwise it reports the first missing field in extraction order, or else `DivisionByZero`. |
| Weighting.Normalise | spreadsheet2.py:75-79 | Fails with `DivisionByZero` if and only if the correlations sum to 0. Otherwise the weights sum to 1 and each weight times the total is its correlation. |
| Weighting.CorrelationWeights | spreadsheet2.py:73-81 | Successful weights are three numbers summing to 1. |
| Weighting.GetCorrelationWeights | spreadsheet2.py:73-81 | The loop's result is the normalised correlations, or the failure of the correlations or of the division. Successful weights are three numbers summing to 1. |
| Weighting.WeightedCorrMark | spreadsheet2.py:92-96 | Succeeds exactly when the weights do, and otherwise passes on their error. Three equal marks c give c. |
| Weighting.WeightedMarkOfEqualMarks | spreadsheet2.py:94 | For weights summing to 1, the weighted mark of (c, c, c) is c. |
| Weighting.WeightedMarkBetween | spreadsheet2.py:94 | With non-negative weights summing to 1, the weighted mark lies between the smallest and the largest of the three marks. |
| Matrices.Transpose | spreadsheet.py:35 | The transpose of a rows x cols matrix is cols x rows, and entry (i, j) is entry (j, i) of the input. |
| Matrices.Solve | spreadsheet.py:38 | Fails with `SingularMatrix` exactly when the determinant is 0. Otherwise it returns a 2x1 matrix that the 2x2 matrix maps to the right-hand side. |
| Matrices.SolveUnique | spreadsheet.py:38 | With a non-zero determinant, any solution of the system is what `Solve` returns. |
| Matrices.GramSymmetric | spreadsheet.py:35 | Entry (i, j) of `a^T a` is the dot product of columns i and j of a, and equals entry (j, i). |
| LineFit.DesignColumns | spreadsheet.py:27-28 | The columns of a are all ones and the marks. The column of b is the scores. |
| LineFit.NormalLhsShape | spreadsheet.py:35 | `a^T a == [[n, sum x], [sum x, sum x^2]]`. |
| LineFit.NormalRhsShape | spreadsheet.py:36 | `a^T b == [[sum y], [sum x*y]]`. |
| LineFit.NormalDeterminant | spreadsheet.py:38 | The determinant of `a^T a` is n times the sum of squared deviations of the marks, that is n * sum x^2 - (sum x)^2. |
| LineFit.NormalSingularIffConstant | spreadsheet.py:38 | The normal matrix is singular if and only if all marks are equal. |
| LineFit.FitLineNeedsTwoStudents | spreadsheet.py:38 | With fewer than two students the solve fails with `SingularMatrix`. |
| LineFit.FitLine | spreadsheet.py:33-42 | Fails with `SingularMatrix` exactly when all marks are equal. Otherwise the intercept and gradient satisfy both normal equations. |
| LineFit.SolvedNormalEquations | spreadsheet.py:38-42 | A solution of `(a^T a) beta == a^T b`, read as (`result[0, 0]`, `result[1, 0]`), satisfies both normal equations. |
| LineFit.NormalSystemFromEquations | spreadsheet.py:33 | A line satisfying the normal equations solves `(a^T a) beta == a^T b`. This is the converse of `SolvedNormalEquations`. |
| LineFit.ExactLineSolvesNormalEquations | spreadsheet.py:33 | Exactly linear data satisfies the normal equations for its own line. |
| LineFit.FitLineRecoversExactLine | spreadsheet.py:33-42 | If every score is p + q * mark and the marks are not all equal, the fit returns intercept p and gradient q. |
| LineFit.PredictReproducesRecordedScore | spreadsheet.py:57 | On exactly linear data, predicting at a recorded mark gives that record's score. |
| LineFit.ResidualsBalance | spreadsheet.py:33 | For a line satisfying the normal equations, the residuals sum to 0 and are orthogonal to the marks. |
| LineFit.FitLineMinimisesSquaredError | spreadsheet.py:19 | No line has a smaller sum of squared residuals than the fitted one. |
| LineFit.NormalEquationsMinimise | spreadsheet2.py:125-131 | Any line satisfying the normal equations minimises the squared error. |
| LineFit.DeviationSquaresExpand | spreadsheet2.py:35 | The sum of (x_i - m)^2 equals sum x^2 - 2 m sum x + n m^2. |
| Prediction.BestFit | spreadsheet2.py:132-159 | Fails with `MissingField("English")` when the student count cannot be taken. Fails with `SingularMatrix` exactly when the WAM cells read are all equal. Otherwise the line satisfies the normal equations of the cells read. |
| Prediction.EquationBestFit | spreadsheet2.py:132-159 | The loop, the products and the solve compute `BestFit` on the rows at offsets 0 to n - 1 from the headers, as the code reads them. |
| Prediction.ExpectedMark | spreadsheet2.py:161-167 | Corrected: succeeds exactly when the weights and the fit over the students' rows do. The weights' error comes first. The value is intercept + gradient * (weighted mark of English, Math and GA). |
| Prediction.ExpectedMarkAsWritten | spreadsheet2.py:163-167 | As written: the weighted mark of (English, Math, Math), evaluated on the line read from offset 0, with the same failure conditions. |
| Prediction.ExpectedMarkOfEqualMarks | spreadsheet2.py:164-167 | Three equal input marks c predict the fitted line's value at c. |
| Prediction.AsWrittenIgnoresGa | spreadsheet2.py:164 | As written, changing the GA input mark never changes the result. |
| Prediction.ExpectedMarkUsesGa | spreadsheet2.py:164 | Corrected, with a non-zero GA weight and gradient, two different GA marks give two different expected scores. |
| Prediction.PredictionsDiffer | spreadsheet2.py:167 | On a line with a non-zero gradient and a non-zero GA weight, the GA mark changes the prediction. |
| Prediction.HeaderRowRead | spreadsheet2.py:140-143 | The rows read from offset 0 are the header row followed by every student except the last. |
| Prediction.LastStudentNeverRead | spreadsheet2.py:140-143 | The fit as written reads only offsets 0 to n - 1. Whatever the cells at offset n (the last student) hold, it returns the same result. |
| Prediction.CorrectedFitReadsLastStudent | spreadsheet2.py:104-106 | The fit over the students' rows, offsets 1 to n as the writes use them, does read the last student. When it succeeds, another score for that student alone gives another line. |
| Prediction.BestFitRecoversExactLine | spreadsheet2.py:125-159 | Suppose the students' rows lie on one line and their WAM cells are not all equal. Then the corrected fit returns that line, and a student's own WAM predicts their score. |
| Prediction.BestFitIsLeastSquares | spreadsheet2.py:125-131 | The fitted line has the least squared error over the cells it was fitted to. |
| LeastSquaresScript.FirstIncomplete | spreadsheet.py:23-25 | The index of the first record lacking Mark or Selective Score: all earlier records are complete, and the one at that index is not. |
| LeastSquaresScript.ReadRows | spreadsheet.py:23-25 | Succeeds exactly when every record has both fields, and then gives the Mark and Selective Score columns in record order. Otherwise it gives the KeyError of the first incomplete record, checking Mark before Selective Score. |
| LeastSquaresScript.BuildSystem | spreadsheet.py:21-28 | The loop's matrices are `DesignMatrix` of the marks and `TargetVector` of the scores, or the KeyError of the first incomplete record. |
| LeastSquaresScript.Script | spreadsheet.py:21-57 | Succeeds exactly when both fields are present everywhere and the marks are not all equal. The intercept and gradient then satisfy the normal equations, and `expected == intercept + gradient * input_mark`. With both fields present, the only failure is `SingularMatrix`. |
| LeastSquaresScript.RunScript | spreadsheet.py:21-57 | The script's loop, products, solve and prediction compute `Script`. |
| LeastSquaresScript.ScriptRecoversExactLine | spreadsheet.py:57 | On exactly linear records with marks not all equal, the script writes the line's intercept and gradient. At a recorded mark, the expected mark is that record's score. |
| LeastSquaresScript.ScriptIsLeastSquares | spreadsheet.py:19 | The line the script writes has the least squared error over the records. |

## Left out

- Spreadsheet I/O is not modelled:
  - gspread and oauth2client authentication;
  - `get_all_records`, `worksheet.find`, `cell`, `acell`, `update_cell` and `update_acell`;
  - the `update_sheet_correlation`, `update_sheet_weight`, `update_weighted_corr_mark` and `read_input_marks` functions;
  - every `print`.

  The records are a parameter (`seq<Record>`). The sheet's WAM and Selective Score columns are
  parameters `nat -> real` indexed by the row offset from their header cell. The input marks are
  a parameter list.
- Cell values are always numbers: `worksheet.cell(...).value` returns text. The model does not
  represent its parsing, nor `int(...)` on cell F5 (the input mark is an `int` parameter).
  numpy's handling of text cells is not modelled either.
- Floating-point rounding and numpy internals are not modelled. Arithmetic is exact, and
  `linalg.solve` on a 2x2 system is Cramer's rule with exact-zero singularity.
- `math.sqrt` is the parameter `root`. The properties that need it assume `IsSqrt(root)`, because
  Dafny has no real square root to compute with.
- The following glue failures in `spreadsheet2.py` are not reproduced:
  - `read_input_marks` is defined without parameters but called with `data` (lines 110 and 163);
  - `interecept` is assigned but `intercept` is used (lines 166-167), a NameError;
  - `matrix_b` is one-dimensional (lines 144 and 147), so `result[0, 0]` would fail (line 156);
  - `read_input_marks` returns the `Cell` objects of lines 115-117, not their `.value`, so
    `english_mark * list_weight[0]` (line 94) would raise a TypeError.

  The prediction is modelled as evidently intended past these four.
- Prediction.EquationBestFit: the header cell at offset 0 holds the label text ("WAM (Python)",
  "Selective Score") that `worksheet.find` located, and the code puts that text into matrices a
  and b. The model gives that cell a number, like every other cell, and does not capture what
  numpy makes of the text.
- Statistics.CorrelationSquared: correlation within [-1, 1] (Cauchy-Schwarz) is not proved. Only
  the identity r^2 * Sxx * Syy == Sxy^2 is.
- The hand-written loops recompute `statistics.mean` on every iteration. The model computes the
  same value, and the number of recomputations is not observable.

## Findings

| source | as written | input that shows it | evidently intended | confidence | as-written member | corrected member |
|---|---|---|---|---|---|---|
| spreadsheet2.py:164 | `weighted_corr_mark(data, input_marks[0], input_marks[1], input_marks[1])` passes the Math mark in place of the GA mark | input marks (e, m, g) with g != m, a non-zero GA weight and a non-zero gradient: the result is that of (e, m, m) | pass `input_marks[2]` as the GA mark | not executed | Prediction.ExpectedMarkAsWritten, Prediction.AsWrittenIgnoresGa | Prediction.ExpectedMark, Prediction.ExpectedMarkUsesGa |
| spreadsheet2.py:141 | reads rows `mark_cell.row + i` and `sel_cell.row + i` for i from 0, so the header row is read and the last student is not | any sheet with at least one student: another WAM or Selective Score for the last student (offset n) gives the same fit, and the header row's label text is put into matrix a | read rows `row + i + 1`, as the writes at line 106 do | not executed | Prediction.EquationBestFit, Prediction.LastStudentNeverRead | Prediction.BestFit (from offset 1), Prediction.CorrectedFitReadsLastStudent |
