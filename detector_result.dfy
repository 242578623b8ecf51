/**
 * The records the two detectors return. Detectors index positions as
 * (y, x); these records turn them into (x, y). A result behaves as the
 * sequence of its `centers`: its length, iteration and indexing all go there.
 */
module DetectorResult {
  import opened Wrappers
  import opened Python
  import opened Grids
  import opened Tray

  /** `len(result)`: the number of items iteration yields. */
  function Len<T>(centers: seq<T>): (n: nat)
    ensures n == |Iter(centers)|
  {
    |centers|
  }

  /** `iter(result)`: the centres, each once, in order. */
  function Iter<T>(centers: seq<T>): (r: seq<T>)
    ensures |r| == |centers| && forall k :: 0 <= k < |r| ==> r[k] == centers[k]
  {
    centers
  }

  /**
   * `result[key]`: agrees with iteration, counts negative keys from the end
   * and raises IndexError outside -len..len-1.
   */
  function GetItem<T>(centers: seq<T>, key: int): (r: Result<T, Error>)
    ensures r.Success? <==> -(Len(centers) as int) <= key < Len(centers)
    ensures r.Success? ==> r.value == Iter(centers)[if key < 0 then key + Len(centers) else key]
    ensures r.Failure? ==> r.error == IndexOutOfRange
  {
    Index(centers, key)
  }

  /** `result[start:stop]`, e.g. the `result[:4]` that calibration uses. */
  function GetSlice<T>(centers: seq<T>, start: int, stop: int): (r: seq<T>)
    ensures 0 <= start <= stop <= Len(centers) ==> r == Iter(centers)[start..stop]
    ensures 0 <= start <= Len(centers) <= stop ==> r == Iter(centers)[start..]
    ensures var a, b := SliceBound(start, Len(centers)), SliceBound(stop, Len(centers));
      |r| == (if a < b then b - a else 0) &&
      forall k :: 0 <= k < |r| ==> a + k < Len(centers) && r[k] == Iter(centers)[a + k]
  {
    Slice(centers, start, stop)
  }

  /** Result of the calibration detector: one entry per cluster. */
  datatype CalibrationDetectorResult = CalibrationDetectorResult(
    positions: seq<(int, int)>,   // top-left of each match, (x, y)
    scores: seq<real>,            // match score at each match
    patternShape: (nat, nat),     // (h, w) of the pattern
    centers: seq<(int, int)>)     // centre of each match, (x, y)

  /**
   * `CalibrationDetectorResult(matches, match_map, pattern)` for matches given
   * as (y, x): positions are the matches as (x, y), each score is the match
   * surface at its match, and each centre is the match moved by half the
   * pattern size (rounded down), so that it lies inside the matched box.
   */
  function NewCalibrationResult(matches: seq<(int, int)>, matchMap: Grid<real>, patternShape: (nat, nat))
    : (res: CalibrationDetectorResult)
    requires forall i :: 0 <= i < |matches| ==>
      0 <= matches[i].0 < |matchMap| && 0 <= matches[i].1 < |matchMap[matches[i].0]|
    ensures res.patternShape == patternShape
    ensures |res.positions| == |res.scores| == |res.centers| == |matches|
    ensures forall i :: 0 <= i < |matches| ==>
      var (y, x) := matches[i];
      res.positions[i] == (x, y) &&
      res.scores[i] == matchMap[y][x] &&
      res.centers[i] == (x + patternShape.1 / 2, y + patternShape.0 / 2)
    ensures forall i :: 0 <= i < |matches| ==>
      res.positions[i].0 <= res.centers[i].0 <= res.positions[i].0 + patternShape.1 &&
      res.positions[i].1 <= res.centers[i].1 <= res.positions[i].1 + patternShape.0
  {
    var half := (patternShape.0 / 2, patternShape.1 / 2);
    CalibrationDetectorResult(
      seq(|matches|, i requires 0 <= i < |matches| => Flip(matches[i])),
      seq(|matches|, i requires 0 <= i < |matches| => matchMap[matches[i].0][matches[i].1]),
      patternShape,
      seq(|matches|, i requires 0 <= i < |matches| => Flip((matches[i].0 + half.0, matches[i].1 + half.1))))
  }

  /** Result of one sensor detector over a tray: one entry per cell. */
  datatype SensorDetectorResult = SensorDetectorResult(
    offsets: Grid<(int, int)>,    // offset of the peak inside each cell, (x, y), or (-1, -1)
    scores: Grid<real>,           // peak score of each cell, or 0
    matches: Grid<bool>,          // whether each cell's score is positive
    tray: TrayDefinition,
    patternShape: (nat, nat),     // (h, w) of the pattern
    centers: Grid<(int, int)>)    // centre of the pattern in each cell, (x, y), or -1 components

  /** One centre component: `offset + half`, except that the sentinel -1 stays -1. */
  function CenterComponent(offset: int, half: int): int {
    if offset != -1 then offset + half else -1
  }

  /**
   * `SensorDetectorResult(offsets, scores, pattern, tray)` for offsets given
   * as (y, x): offsets become (x, y); a cell matches exactly when its score is
   * positive; each centre component is the offset plus half the pattern size,
   * except that a -1 component stays -1.
   */
  function NewSensorResult(offsets: Grid<(int, int)>, scores: Grid<real>, patternShape: (nat, nat), tray: TrayDefinition)
    : (res: SensorDetectorResult)
    requires |scores| == |offsets| && forall r :: 0 <= r < |offsets| ==> |scores[r]| == |offsets[r]|
    ensures res.tray == tray && res.patternShape == patternShape && res.scores == scores
    ensures |res.offsets| == |res.matches| == |res.centers| == |offsets|
    ensures forall r :: 0 <= r < |offsets| ==>
      |res.offsets[r]| == |res.matches[r]| == |res.centers[r]| == |offsets[r]|
    ensures forall r, c :: 0 <= r < |offsets| && 0 <= c < |offsets[r]| ==>
      var (y, x) := offsets[r][c];
      res.offsets[r][c] == (x, y) &&
      (res.matches[r][c] <==> scores[r][c] > 0.0) &&
      (x == -1 ==> res.centers[r][c].0 == -1) &&
      (y == -1 ==> res.centers[r][c].1 == -1) &&
      (x != -1 ==> res.centers[r][c].0 == x + patternShape.1 / 2) &&
      (y != -1 ==> res.centers[r][c].1 == y + patternShape.0 / 2)
  {
    var half := (patternShape.0 / 2, patternShape.1 / 2);
    SensorDetectorResult(
      seq(|offsets|, r requires 0 <= r < |offsets| =>
        seq(|offsets[r]|, c requires 0 <= c < |offsets[r]| => Flip(offsets[r][c]))),
      scores,
      seq(|offsets|, r requires 0 <= r < |offsets| =>
        seq(|offsets[r]|, c requires 0 <= c < |offsets[r]| => scores[r][c] > 0.0)),
      tray,
      patternShape,
      seq(|offsets|, r requires 0 <= r < |offsets| =>
        seq(|offsets[r]|, c requires 0 <= c < |offsets[r]| =>
          Flip((CenterComponent(offsets[r][c].0, half.0), CenterComponent(offsets[r][c].1, half.1))))))
  }

  /** `[result.scores for result in results]`. */
  function ScoreGrids(results: seq<SensorDetectorResult>): (all: seq<Grid<real>>)
    ensures |all| == |results| && forall j :: 0 <= j < |results| ==> all[j] == results[j].scores
  {
    seq(|results|, j requires 0 <= j < |results| => results[j].scores)
  }
}
