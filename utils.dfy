/**
 * `findBestMatches` from utils.py: the same per-cell arbitration between
 * sensor types as `detectSensors`, except that a cell is left unlabelled
 * only when its best score is exactly zero, not when it is at most zero.
 */
module Utils {
  import opened Wrappers
  import opened Python
  import opened Grids
  import opened DetectorResult
  import opened FindSensors

  /**
   * The label of one cell from the scores of every type there: -1 when the
   * best score is zero, otherwise the first type reaching the best score.
   */
  function BestMatchLabel(col: seq<real>): (kind: int)
    requires |col| > 0
    ensures kind == -1 <==>
      (forall k :: 0 <= k < |col| ==> col[k] <= 0.0) && (exists k :: 0 <= k < |col| && col[k] == 0.0)
    ensures kind != -1 ==> 0 <= kind < |col| && col[kind] != 0.0
    ensures kind != -1 ==> forall k :: 0 <= k < |col| ==> col[k] <= col[kind]
    ensures kind != -1 ==> forall k :: 0 <= k < kind ==> col[k] < col[kind]
  {
    var k := ArgMax(col);
    if col[k] != 0.0 then k else -1
  }

  /**
   * `findBestMatches(results)`: stacks the score grids of the results and
   * labels every cell. `np.stack` raises when there is no result or the
   * grids differ in shape.
   */
  function FindBestMatches(results: seq<SensorDetectorResult>): (r: Result<Grid<int>, Error>)
    ensures r == Failure(NothingToStack) <==> results == []
    ensures r.Success? <==> Stackable(ScoreGrids(results))
    ensures r.Failure? && results != [] ==> r.error == ShapesDiffer
    ensures r.Success? ==> IsGrid(r.value, |results[0].scores|, Width(results[0].scores))
    ensures r.Success? ==> forall row, c :: 0 <= row < |results[0].scores| && 0 <= c < Width(results[0].scores) ==>
      var kind := r.value[row][c];
      -1 <= kind < |results| &&
      (kind == -1 <==>
        (forall k :: 0 <= k < |results| ==> results[k].scores[row][c] <= 0.0) &&
        (exists k :: 0 <= k < |results| && results[k].scores[row][c] == 0.0)) &&
      (kind != -1 ==> results[kind].scores[row][c] != 0.0) &&
      (kind != -1 ==> forall k :: 0 <= k < |results| ==> results[k].scores[row][c] <= results[kind].scores[row][c]) &&
      (kind != -1 ==> forall k :: 0 <= k < kind ==> results[k].scores[row][c] < results[kind].scores[row][c])
  {
    var all := ScoreGrids(results);
    if all == [] then Failure(NothingToStack)
    else if !Stackable(all) then Failure(ShapesDiffer)
    else
      Success(seq(|all[0]|, row requires 0 <= row < |all[0]| =>
        seq(Width(all[0]), c requires 0 <= c < Width(all[0]) => BestMatchLabel(Column(all, row, c)))))
  }

  /** Where no score is negative, the two arbitration rules label a cell alike. */
  lemma LabelsAgreeOnNonNegativeScores(col: seq<real>)
    requires |col| > 0 && forall k :: 0 <= k < |col| ==> col[k] >= 0.0
    ensures BestMatchLabel(col) == CellLabel(col)
  {
    var k := ArgMax(col);
    assert col[k] >= 0.0;
  }

  /**
   * When no detector scored below zero, `findBestMatches` gives exactly the
   * grid `detectSensors` computes, failures included.
   */
  lemma AgreesWithDetectSensorsOnNonNegativeScores(results: seq<SensorDetectorResult>)
    requires forall k, row, c :: 0 <= k < |results| && 0 <= row < |results[k].scores| && 0 <= c < |results[k].scores[row]| ==>
      results[k].scores[row][c] >= 0.0
    ensures FindBestMatches(results) == BestSensorTypes(ScoreGrids(results))
  {
    var all := ScoreGrids(results);
    if Stackable(all) {
      var mine, theirs := FindBestMatches(results).value, BestSensorTypes(all).value;
      var rows, cols := |all[0]|, Width(all[0]);
      forall row, c | 0 <= row < rows && 0 <= c < cols
        ensures mine[row][c] == theirs[row][c]
      {
        var col := Column(all, row, c);
        forall k | 0 <= k < |col| ensures col[k] >= 0.0 {
          assert col[k] == results[k].scores[row][c];
        }
        LabelsAgreeOnNonNegativeScores(col);
      }
      GridExtensionality(mine, theirs, rows, cols);
    }
  }

  /**
   * A cell where every detector scored below zero is unlabelled by
   * `detectSensors` but gets a sensor type from `findBestMatches`.
   */
  lemma NegativeCellsDiverge(results: seq<SensorDetectorResult>, row: nat, c: nat)
    requires Stackable(ScoreGrids(results))
    requires row < |results[0].scores| && c < Width(results[0].scores)
    requires forall k :: 0 <= k < |results| ==> results[k].scores[row][c] < 0.0
    ensures FindBestMatches(results).value[row][c] != -1
    ensures BestSensorTypes(ScoreGrids(results)).value[row][c] == -1
  {
  }
}
