/**
 * The two uses of template matching. The calibration detector thresholds one
 * match surface, lets a clustering step group the surviving positions and
 * keeps the best position of each group; the sensor detector keeps the single
 * best position of every tray cell. Positions here are (y, x).
 *
 * `cv2.matchTemplate` is the parameter `matcher` and sklearn's MeanShift is the
 * parameter `cluster`; both are foreign and only their outputs are modelled.
 */
module Detector {
  import opened Wrappers
  import opened Python
  import opened Grids
  import opened Params
  import opened Tray
  import opened DetectorResult

  /** The value of `cv2.TM_CCOEFF_NORMED`, the default `match_method`. */
  const TM_CCOEFF_NORMED: real := 5.0

  /** `cv2.matchTemplate(img, pattern, method)`: the score of every placement of the pattern. */
  type Matcher = (Image, Image, real) -> Grid<real>

  /** `MeanShift(bandwidth).fit(candidates).labels_`: a cluster label per candidate. */
  type Clusterer = (seq<(int, int)>, real) -> seq<int>

  /** The attribute names each constructor accepts as parameters. */
  const CalibrationParameters: set<string> := {"match_method", "match_threshold", "clustering_bandwidth"}
  const SensorParameters: set<string> := {"match_method", "match_threshold"}

  /** The matcher always yields a non-empty rectangular surface. */
  ghost predicate ProducesSurfaces(matcher: Matcher) {
    forall img, pattern, mm :: IsSurface(matcher(img, pattern, mm))
  }

  // ---------------------------------------------------------------------
  // Thresholding: `np.transpose(np.where(match_map > threshold))`

  /** Positions (r, c) with c < k of one row whose score is above the threshold, left to right. */
  function RowCandidates(row: seq<real>, r: nat, threshold: real, k: nat): (cs: seq<(int, int)>)
    requires k <= |row|
    ensures forall i :: 0 <= i < |cs| ==> cs[i].0 == r && 0 <= cs[i].1 < k && row[cs[i].1] > threshold
    ensures forall c :: 0 <= c < k && row[c] > threshold ==> (r, c) in cs
    ensures forall i, j :: 0 <= i < j < |cs| ==> cs[i].1 < cs[j].1
  {
    if k == 0 then []
    else
      var before := RowCandidates(row, r, threshold, k - 1);
      var last := if row[k - 1] > threshold then [(r, k - 1)] else [];
      AppendCellCandidate(row, r, threshold, k - 1, before, last);
      before + last
  }

  /** Appending cell k of a row, when it is above the threshold, keeps the three properties. */
  lemma AppendCellCandidate(row: seq<real>, r: nat, threshold: real, k: nat, before: seq<(int, int)>, last: seq<(int, int)>)
    requires k < |row|
    requires forall i :: 0 <= i < |before| ==> before[i].0 == r && 0 <= before[i].1 < k && row[before[i].1] > threshold
    requires forall c :: 0 <= c < k && row[c] > threshold ==> (r, c) in before
    requires forall i, j :: 0 <= i < j < |before| ==> before[i].1 < before[j].1
    requires last == if row[k] > threshold then [(r, k)] else []
    ensures var cs := before + last;
      forall i :: 0 <= i < |cs| ==> cs[i].0 == r && 0 <= cs[i].1 < k + 1 && row[cs[i].1] > threshold
    ensures forall c :: 0 <= c < k + 1 && row[c] > threshold ==> (r, c) in before + last
    ensures var cs := before + last;
      forall i, j :: 0 <= i < j < |cs| ==> cs[i].1 < cs[j].1
  {
    var cs := before + last;
    forall i | 0 <= i < |cs| ensures cs[i].0 == r && 0 <= cs[i].1 < k + 1 && row[cs[i].1] > threshold {
      if i >= |before| { assert cs[i] == (r, k); } else { assert cs[i] == before[i]; }
    }
    forall c | 0 <= c < k + 1 && row[c] > threshold ensures (r, c) in cs {
      if c == k { assert cs[|before|] == (r, k); } else { assert (r, c) in before; }
    }
    forall i, j | 0 <= i < j < |cs| ensures cs[i].1 < cs[j].1 {
      if j >= |before| { assert cs[i] == before[i]; } else { assert cs[i] == before[i] && cs[j] == before[j]; }
    }
  }

  /** Positions above the threshold in the first n rows, in row-major order. */
  function CandidatesUpTo(m: Grid<real>, threshold: real, n: nat): (cs: seq<(int, int)>)
    requires n <= |m|
    ensures forall i :: 0 <= i < |cs| ==>
      0 <= cs[i].0 < n && 0 <= cs[i].1 < |m[cs[i].0]| && m[cs[i].0][cs[i].1] > threshold
    ensures forall r, c :: 0 <= r < n && 0 <= c < |m[r]| && m[r][c] > threshold ==> (r, c) in cs
    ensures forall i, j :: 0 <= i < j < |cs| ==> RowMajorBefore(cs[i], cs[j])
  {
    if n == 0 then []
    else
      var before := CandidatesUpTo(m, threshold, n - 1);
      var last := RowCandidates(m[n - 1], n - 1, threshold, |m[n - 1]|);
      AppendRowCandidates(m, threshold, n - 1, before, last);
      before + last
  }

  /** Appending the candidates of row k to those of the rows above keeps the three properties. */
  lemma AppendRowCandidates(m: Grid<real>, threshold: real, k: nat, before: seq<(int, int)>, last: seq<(int, int)>)
    requires k < |m|
    requires forall i :: 0 <= i < |before| ==>
      0 <= before[i].0 < k && 0 <= before[i].1 < |m[before[i].0]| && m[before[i].0][before[i].1] > threshold
    requires forall r, c :: 0 <= r < k && 0 <= c < |m[r]| && m[r][c] > threshold ==> (r, c) in before
    requires forall i, j :: 0 <= i < j < |before| ==> RowMajorBefore(before[i], before[j])
    requires forall i :: 0 <= i < |last| ==>
      last[i].0 == k && 0 <= last[i].1 < |m[k]| && m[k][last[i].1] > threshold
    requires forall c :: 0 <= c < |m[k]| && m[k][c] > threshold ==> (k, c) in last
    requires forall i, j :: 0 <= i < j < |last| ==> last[i].1 < last[j].1
    ensures var cs := before + last;
      forall i :: 0 <= i < |cs| ==>
        0 <= cs[i].0 <= k && 0 <= cs[i].1 < |m[cs[i].0]| && m[cs[i].0][cs[i].1] > threshold
    ensures forall r, c :: 0 <= r <= k && 0 <= c < |m[r]| && m[r][c] > threshold ==> (r, c) in before + last
    ensures var cs := before + last;
      forall i, j :: 0 <= i < j < |cs| ==> RowMajorBefore(cs[i], cs[j])
  {
    var cs := before + last;
    forall i | 0 <= i < |cs|
      ensures 0 <= cs[i].0 <= k && 0 <= cs[i].1 < |m[cs[i].0]| && m[cs[i].0][cs[i].1] > threshold
    {
      if i >= |before| {
        assert cs[i] == last[i - |before|];
      }
    }
    forall i, j | 0 <= i < j < |cs|
      ensures RowMajorBefore(cs[i], cs[j])
    {
      if j < |before| {
        assert cs[i] == before[i] && cs[j] == before[j];
      } else if i < |before| {
        assert cs[i] == before[i] && cs[j] == last[j - |before|];
      } else {
        assert cs[i] == last[i - |before|] && cs[j] == last[j - |before|];
      }
    }
  }

  /**
   * The candidates of a match surface: exactly the positions whose score is
   * strictly above the threshold, each once, in row-major order.
   */
  function Candidates(m: Grid<real>, threshold: real): (cs: seq<(int, int)>)
    ensures forall i :: 0 <= i < |cs| ==>
      0 <= cs[i].0 < |m| && 0 <= cs[i].1 < |m[cs[i].0]| && m[cs[i].0][cs[i].1] > threshold
    ensures forall r, c :: (r, c) in cs <==> 0 <= r < |m| && 0 <= c < |m[r]| && m[r][c] > threshold
    ensures forall i, j :: 0 <= i < j < |cs| ==> RowMajorBefore(cs[i], cs[j])
  {
    CandidatesUpTo(m, threshold, |m|)
  }

  predicate AllInGrid(m: Grid<real>, ps: seq<(int, int)>) {
    forall i :: 0 <= i < |ps| ==> 0 <= ps[i].0 < |m| && 0 <= ps[i].1 < |m[ps[i].0]|
  }

  // ---------------------------------------------------------------------
  // One representative per cluster: `CalibrationDetector._bestMatches`

  /** The distinct labels, `np.unique(labels)`. */
  function LabelSet(labels: seq<int>): set<int> {
    set i | 0 <= i < |labels| :: labels[i]
  }

  /** One label per candidate, each in 0..k-1 where k is the number of distinct labels. */
  predicate IsLabeling(labels: seq<int>, n: nat) {
    |labels| == n && forall i :: 0 <= i < n ==> 0 <= labels[i] < |LabelSet(labels)|
  }

  /** The score of candidate i. */
  function ScoreAt(m: Grid<real>, cands: seq<(int, int)>, i: nat): real
    requires AllInGrid(m, cands) && i < |cands|
  {
    m[cands[i].0][cands[i].1]
  }

  /** The running best score of a group: 0 until some candidate replaced it. */
  function RunningScore(m: Grid<real>, cands: seq<(int, int)>, w: Option<nat>): real
    requires AllInGrid(m, cands) && (w.Some? ==> w.value < |cands|)
  {
    if w.None? then 0.0 else ScoreAt(m, cands, w.value)
  }

  /** The running best position of a group: (0, 0) until some candidate replaced it. */
  function RunningPosition(cands: seq<(int, int)>, w: Option<nat>): (int, int)
    requires w.Some? ==> w.value < |cands|
  {
    if w.None? then (0, 0) else cands[w.value]
  }

  /**
   * The candidate that a scan of the first n candidates keeps for `group`:
   * it replaces the running best only when strictly better, starting from 0.
   */
  function Winner(m: Grid<real>, cands: seq<(int, int)>, labels: seq<int>, group: int, n: nat): (w: Option<nat>)
    requires AllInGrid(m, cands) && |labels| == |cands| && n <= |cands|
    ensures w.Some? ==> w.value < n && labels[w.value] == group && ScoreAt(m, cands, w.value) > 0.0
  {
    if n == 0 then None
    else
      var w := Winner(m, cands, labels, group, n - 1);
      if labels[n - 1] == group && ScoreAt(m, cands, n - 1) > RunningScore(m, cands, w) then Some(n - 1) else w
  }

  /**
   * The scan keeps no candidate exactly when no candidate of the group scores
   * above 0, and otherwise a candidate of the group with the largest score,
   * the first such one in scan order.
   */
  lemma {:induction false} WinnerIsGroupBest(m: Grid<real>, cands: seq<(int, int)>, labels: seq<int>, group: int, n: nat)
    requires AllInGrid(m, cands) && |labels| == |cands| && n <= |cands|
    ensures var w := Winner(m, cands, labels, group, n);
      (w.None? <==> forall i :: 0 <= i < n && labels[i] == group ==> ScoreAt(m, cands, i) <= 0.0) &&
      (w.Some? ==> labels[w.value] == group && ScoreAt(m, cands, w.value) > 0.0) &&
      (w.Some? ==> forall i :: 0 <= i < n && labels[i] == group ==> ScoreAt(m, cands, i) <= ScoreAt(m, cands, w.value)) &&
      (w.Some? ==> forall i :: 0 <= i < w.value && labels[i] == group ==> ScoreAt(m, cands, i) < ScoreAt(m, cands, w.value))
  {
    if n > 0 {
      WinnerIsGroupBest(m, cands, labels, group, n - 1);
    }
  }

  /** The representative position `_bestMatches` reports for cluster `group`. */
  function BestPosition(m: Grid<real>, cands: seq<(int, int)>, labels: seq<int>, group: int): (int, int)
    requires AllInGrid(m, cands) && |labels| == |cands|
  {
    RunningPosition(cands, Winner(m, cands, labels, group, |cands|))
  }

  /** One representative per distinct group, indexed by group. */
  function BestPositions(m: Grid<real>, cands: seq<(int, int)>, labels: seq<int>): (best: seq<(int, int)>)
    requires AllInGrid(m, cands) && |labels| == |cands|
    ensures |best| == |LabelSet(labels)|
  {
    seq(|LabelSet(labels)|, l requires 0 <= l < |LabelSet(labels)| => BestPosition(m, cands, labels, l))
  }

  /** No candidate survives exactly when no position scores above the threshold. */
  lemma NoCandidates(m: Grid<real>, threshold: real)
    ensures Candidates(m, threshold) == [] <==>
      forall i, j :: 0 <= i < |m| && 0 <= j < |m[i]| ==> m[i][j] <= threshold
  {
    var cs := Candidates(m, threshold);
    if cs == [] {
      forall i, j | 0 <= i < |m| && 0 <= j < |m[i]|
        ensures m[i][j] <= threshold
      {
        assert (i, j) !in cs;
      }
    } else {
      assert m[cs[0].0][cs[0].1] > threshold;
    }
  }

  /**
   * `cv2.matchTemplate` followed by `CalibrationDetector.detect`: None when no
   * position scores above the threshold; otherwise one detection per cluster.
   */
  function Detection(m: Grid<real>, threshold: real, bandwidth: real, cluster: Clusterer, patternShape: (nat, nat))
    : (r: Option<CalibrationDetectorResult>)
    requires IsRectangular(m)
    requires IsLabeling(cluster(Candidates(m, threshold), bandwidth), |Candidates(m, threshold)|)
    ensures r.None? <==> forall i, j :: 0 <= i < |m| && 0 <= j < |m[i]| ==> m[i][j] <= threshold
    ensures r.Some? ==> r.value.patternShape == patternShape
    ensures r.Some? ==> var k := |LabelSet(cluster(Candidates(m, threshold), bandwidth))|;
      |r.value.centers| == k && |r.value.positions| == k && |r.value.scores| == k
  {
    NoCandidates(m, threshold);
    var cs := Candidates(m, threshold);
    if cs == [] then None
    else
      var labels := cluster(cs, bandwidth);
      BestPositionsInGrid(m, cs, labels);
      Some(NewCalibrationResult(BestPositions(m, cs, labels), m, patternShape))
  }

  /**
   * Detection l sits at the best candidate of cluster l and reports its
   * score: the largest score among the cluster's candidates when that is
   * positive, and otherwise position (0, 0) with score m[0][0].
   */
  lemma DetectionIsClusterBest(m: Grid<real>, threshold: real, bandwidth: real, cluster: Clusterer, patternShape: (nat, nat), l: nat)
    requires IsRectangular(m)
    requires IsLabeling(cluster(Candidates(m, threshold), bandwidth), |Candidates(m, threshold)|)
    requires Detection(m, threshold, bandwidth, cluster, patternShape).Some?
    requires l < |LabelSet(cluster(Candidates(m, threshold), bandwidth))|
    ensures var cs := Candidates(m, threshold);
      var labels := cluster(cs, bandwidth);
      var res := Detection(m, threshold, bandwidth, cluster, patternShape).value;
      var w := Winner(m, cs, labels, l, |cs|);
      Flip(res.positions[l]) == RunningPosition(cs, w) &&
      (w.Some? ==> res.scores[l] == RunningScore(m, cs, w)) &&
      (w.None? ==> res.scores[l] == m[0][0])
  {
    var cs := Candidates(m, threshold);
    var labels := cluster(cs, bandwidth);
    BestPositionsInGrid(m, cs, labels);
    var best := BestPositions(m, cs, labels);
    assert best[l] == BestPosition(m, cs, labels, l);
  }

  /** When some candidate exists, every representative is a position of the surface. */
  lemma BestPositionsInGrid(m: Grid<real>, cands: seq<(int, int)>, labels: seq<int>)
    requires IsRectangular(m) && AllInGrid(m, cands) && |labels| == |cands| && |cands| > 0
    ensures var best := BestPositions(m, cands, labels);
      forall i :: 0 <= i < |best| ==> 0 <= best[i].0 < |m| && 0 <= best[i].1 < |m[best[i].0]|
  {
    assert |m[cands[0].0]| > 0;
    assert |m[0]| == Width(m);
  }

  // ---------------------------------------------------------------------
  // One peak per cell: the body of `SensorDetector.detect`

  /**
   * The outcome of one cell: the first row-major position of the largest
   * score and that score when it is strictly above the threshold, and the
   * sentinel offset (-1, -1) with score 0 otherwise.
   */
  function PeakOf(m: Grid<real>, threshold: real): (o: ((int, int), real))
    requires IsSurface(m)
    ensures o.0 == (-1, -1) <==> forall r, c :: 0 <= r < |m| && 0 <= c < |m[r]| ==> m[r][c] <= threshold
    ensures o.0 == (-1, -1) ==> o.1 == 0.0
    ensures o.0 != (-1, -1) ==> InGrid(m, o.0) && o.1 == m[o.0.0][o.0.1] && o.1 > threshold
    ensures o.0 != (-1, -1) ==> forall r, c :: 0 <= r < |m| && 0 <= c < |m[r]| ==> m[r][c] <= o.1
    ensures o.0 != (-1, -1) ==> forall r, c :: 0 <= r < |m| && 0 <= c < |m[r]| && RowMajorBefore((r, c), o.0) ==> m[r][c] < o.1
  {
    var best: (int, int) := ArgMax2(m);
    if m[best.0][best.1] > threshold then (best, m[best.0][best.1]) else ((-1, -1), 0.0)
  }

  /** Every cell of the tray yields a match surface. */
  predicate CellsMatchable(img: Image, pattern: Image, tray: TrayDefinition, matchMethod: real, matcher: Matcher) {
    forall r, c :: 0 <= r < tray.rows && 0 <= c < tray.cols ==>
      IsSurface(matcher(tray.GetCell(img, r, c), pattern, matchMethod))
  }

  /** The peak outcome of cell (r, c). */
  function CellPeak(img: Image, pattern: Image, tray: TrayDefinition, threshold: real, matchMethod: real, matcher: Matcher, r: nat, c: nat)
    : ((int, int), real)
    requires CellsMatchable(img, pattern, tray, matchMethod, matcher) && r < tray.rows && c < tray.cols
  {
    PeakOf(matcher(tray.GetCell(img, r, c), pattern, matchMethod), threshold)
  }

  /** The peak offsets (y, x) of all cells, as a rows x cols grid. */
  function PeakOffsets(img: Image, pattern: Image, tray: TrayDefinition, threshold: real, matchMethod: real, matcher: Matcher)
    : (g: Grid<(int, int)>)
    requires CellsMatchable(img, pattern, tray, matchMethod, matcher)
    ensures IsGrid(g, tray.rows, tray.cols)
    ensures forall r, c :: 0 <= r < tray.rows && 0 <= c < tray.cols ==>
      g[r][c] == CellPeak(img, pattern, tray, threshold, matchMethod, matcher, r, c).0
  {
    seq(tray.rows, r requires 0 <= r < tray.rows =>
      seq(tray.cols, c requires 0 <= c < tray.cols => CellPeak(img, pattern, tray, threshold, matchMethod, matcher, r, c).0))
  }

  /** The peak scores of all cells, as a rows x cols grid. */
  function PeakScores(img: Image, pattern: Image, tray: TrayDefinition, threshold: real, matchMethod: real, matcher: Matcher)
    : (g: Grid<real>)
    requires CellsMatchable(img, pattern, tray, matchMethod, matcher)
    ensures IsGrid(g, tray.rows, tray.cols)
    ensures forall r, c :: 0 <= r < tray.rows && 0 <= c < tray.cols ==>
      g[r][c] == CellPeak(img, pattern, tray, threshold, matchMethod, matcher, r, c).1
  {
    seq(tray.rows, r requires 0 <= r < tray.rows =>
      seq(tray.cols, c requires 0 <= c < tray.cols => CellPeak(img, pattern, tray, threshold, matchMethod, matcher, r, c).1))
  }

  /**
   * What `SensorDetector.detect` returns: a rows x cols result whose offset
   * (as (x, y)) and score at each cell are that cell's peak outcome, so each
   * score is 0 or above the threshold.
   */
  function SensorDetection(img: Image, pattern: Image, tray: TrayDefinition, threshold: real, matchMethod: real, matcher: Matcher)
    : (res: SensorDetectorResult)
    requires CellsMatchable(img, pattern, tray, matchMethod, matcher)
    ensures res.tray == tray && res.patternShape == ShapeOf(pattern)
    ensures IsGrid(res.scores, tray.rows, tray.cols) && IsGrid(res.offsets, tray.rows, tray.cols)
    ensures IsGrid(res.matches, tray.rows, tray.cols) && IsGrid(res.centers, tray.rows, tray.cols)
    ensures forall r, c :: 0 <= r < tray.rows && 0 <= c < tray.cols ==>
      var o := PeakOf(matcher(tray.GetCell(img, r, c), pattern, matchMethod), threshold);
      res.offsets[r][c] == Flip(o.0) && res.scores[r][c] == o.1
    ensures forall r, c :: 0 <= r < tray.rows && 0 <= c < tray.cols ==>
      res.scores[r][c] == 0.0 || res.scores[r][c] > threshold
  {
    NewSensorResult(
      PeakOffsets(img, pattern, tray, threshold, matchMethod, matcher),
      PeakScores(img, pattern, tray, threshold, matchMethod, matcher),
      ShapeOf(pattern), tray)
  }

  /**
   * With a non-negative threshold a sensor result is consistent: a cell
   * counts as a match exactly when it holds a peak offset, and then its
   * centre is a real position rather than the sentinel.
   */
  lemma MatchesAgreeWithOffsets(img: Image, pattern: Image, tray: TrayDefinition, threshold: real, matchMethod: real, matcher: Matcher, r: nat, c: nat)
    requires CellsMatchable(img, pattern, tray, matchMethod, matcher)
    requires 0.0 <= threshold && r < tray.rows && c < tray.cols
    ensures var res := SensorDetection(img, pattern, tray, threshold, matchMethod, matcher);
      (res.matches[r][c] <==> res.offsets[r][c] != (-1, -1)) &&
      (res.matches[r][c] ==> res.centers[r][c].0 >= 0 && res.centers[r][c].1 >= 0) &&
      (!res.matches[r][c] ==> res.centers[r][c] == (-1, -1))
  {
    var res := SensorDetection(img, pattern, tray, threshold, matchMethod, matcher);
    var m := matcher(tray.GetCell(img, r, c), pattern, matchMethod);
    var o := PeakOf(m, threshold);
    assert res.offsets[r][c] == Flip(o.0) && res.scores[r][c] == o.1;
    if o.0 != (-1, -1) {
      assert InGrid(m, o.0);
    }
  }

  /**
   * The body of the loop of `SensorDetector.detect` for cell (row, col),
   * which still holds the initial (-1, -1) offset and 0 score: the cell's
   * match surface is searched for its first highest point, which is written
   * only when its score is above the threshold. Afterwards the cell holds its
   * peak outcome and no other cell has changed.
   */
  method DetectCell(img: Image, pattern: Image, tray: TrayDefinition, threshold: real, matchMethod: real, matcher: Matcher,
                    row: nat, col: nat, offsets: array2<(int, int)>, scores: array2<real>)
    requires CellsMatchable(img, pattern, tray, matchMethod, matcher) && row < tray.rows && col < tray.cols
    requires offsets.Length0 == scores.Length0 == tray.rows && offsets.Length1 == scores.Length1 == tray.cols
    requires offsets[row, col] == (-1, -1) && scores[row, col] == 0.0
    modifies offsets, scores
    ensures forall r, c :: 0 <= r < tray.rows && 0 <= c < tray.cols && (r, c) != (row, col) ==>
      offsets[r, c] == old(offsets[r, c]) && scores[r, c] == old(scores[r, c])
    ensures (offsets[row, col], scores[row, col]) == CellPeak(img, pattern, tray, threshold, matchMethod, matcher, row, col)
  {
    var cell := tray.GetCell(img, row, col);
    var matchMap := matcher(cell, pattern, matchMethod);
    var bestMatch := ArgMax2(matchMap);
    var score := matchMap[bestMatch.0][bestMatch.1];
    if score > threshold {
      offsets[row, col] := bestMatch;
      scores[row, col] := score;
    }
  }

  /**
   * The loop of `SensorDetector.detect`: rows x cols arrays of offsets
   * (initially (-1, -1)) and of scores (initially 0), filled cell by cell in
   * row-major order. Afterwards every cell holds its peak outcome.
   */
  method FindPeaks(img: Image, pattern: Image, tray: TrayDefinition, threshold: real, matchMethod: real, matcher: Matcher)
    returns (offsets: array2<(int, int)>, scores: array2<real>)
    requires CellsMatchable(img, pattern, tray, matchMethod, matcher)
    ensures fresh(offsets) && fresh(scores)
    ensures offsets.Length0 == scores.Length0 == tray.rows && offsets.Length1 == scores.Length1 == tray.cols
    ensures forall r, c :: 0 <= r < tray.rows && 0 <= c < tray.cols ==>
      (offsets[r, c], scores[r, c]) == CellPeak(img, pattern, tray, threshold, matchMethod, matcher, r, c)
  {
    offsets := new (int, int)[tray.rows, tray.cols]((_, _) => (-1, -1));
    scores := new real[tray.rows, tray.cols]((_, _) => 0.0);
    var cells := tray.Iter();
    for k := 0 to |cells|
      invariant forall r, c :: 0 <= r < tray.rows && 0 <= c < tray.cols ==>
        (offsets[r, c], scores[r, c]) ==
        if (r, c) in cells[..k] then CellPeak(img, pattern, tray, threshold, matchMethod, matcher, r, c) else ((-1, -1), 0.0)
    {
      var (row, col) := cells[k];
      assert cells[..k + 1] == cells[..k] + [cells[k]];
      forall i | 0 <= i < k
        ensures cells[i] != cells[k]
      {
        assert RowMajorBefore(cells[i], cells[k]);
      }
      DetectCell(img, pattern, tray, threshold, matchMethod, matcher, row, col, offsets, scores);
    }
    assert cells[..|cells|] == cells;
  }

  // ---------------------------------------------------------------------
  // The detectors

  class CalibrationDetector {
    var matchMethod: real
    var matchThreshold: real
    var clusteringBandwidth: real

    /** The attribute defaults set before parameters are applied. */
    constructor ()
      ensures matchMethod == TM_CCOEFF_NORMED && matchThreshold == 0.8 && clusteringBandwidth == 40.0
    {
      matchMethod, matchThreshold, clusteringBandwidth := TM_CCOEFF_NORMED, 0.8, 40.0;
    }

    /** `self.__dict__[name] = value` for one of the attribute names. */
    method SetAttribute(name: string, value: real)
      requires name in CalibrationParameters
      modifies this
      ensures matchMethod == if name == "match_method" then value else old(matchMethod)
      ensures matchThreshold == if name == "match_threshold" then value else old(matchThreshold)
      ensures clusteringBandwidth == if name == "clustering_bandwidth" then value else old(clusteringBandwidth)
    {
      if name == "match_method" {
        matchMethod := value;
      } else if name == "match_threshold" {
        matchThreshold := value;
      } else {
        clusteringBandwidth := value;
      }
    }

    /**
     * `CalibrationDetector(params, **kwargs)`: `kwargs` are merged into the
     * shared `params` dictionary, which keeps them; then every entry of it
     * must name an attribute. The first one that does not raises; otherwise
     * each attribute takes its entry's value or keeps its default.
     */
    static method New(params: ParamDict, kwargs: Items) returns (r: Result<CalibrationDetector, Error>)
      requires params.Valid()
      modifies params
      ensures params.Valid() && params.items == Updated(old(params.items), kwargs)
      ensures var k := FirstUnknown(params.items, CalibrationParameters);
        (r.Failure? <==> k < |params.items|) &&
        (r.Failure? ==> r.error == UnknownParameter(params.items[k].0))
      ensures r.Success? ==> fresh(r.value)
      ensures r.Success? ==>
        r.value.matchMethod == Lookup(params.items, "match_method", TM_CCOEFF_NORMED) &&
        r.value.matchThreshold == Lookup(params.items, "match_threshold", 0.8) &&
        r.value.clusteringBandwidth == Lookup(params.items, "clustering_bandwidth", 40.0)
    {
      params.Update(kwargs);
      var detector := new CalibrationDetector();
      var items := params.items;
      for i := 0 to |items|
        invariant params.items == items && params.Valid()
        invariant forall j :: 0 <= j < i ==> items[j].0 in CalibrationParameters
        invariant detector.matchMethod == Lookup(items[..i], "match_method", TM_CCOEFF_NORMED)
        invariant detector.matchThreshold == Lookup(items[..i], "match_threshold", 0.8)
        invariant detector.clusteringBandwidth == Lookup(items[..i], "clustering_bandwidth", 40.0)
      {
        LookupExtend(items, i, "match_method", TM_CCOEFF_NORMED);
        LookupExtend(items, i, "match_threshold", 0.8);
        LookupExtend(items, i, "clustering_bandwidth", 40.0);
        var (name, value) := items[i];
        if name in CalibrationParameters {
          detector.SetAttribute(name, value);
        } else {
          FirstUnknownIs(items, CalibrationParameters, i);
          return Failure(UnknownParameter(name));
        }
      }
      assert items[..|items|] == items;
      FirstUnknownIs(items, CalibrationParameters, |items|);
      return Success(detector);
    }

    /**
     * `_bestMatches`: scans the candidates once, keeping for each group the
     * best score so far (starting at 0) and its position (starting at (0, 0)),
     * replaced only by a strictly greater score.
     */
    method BestMatches(matchMap: Grid<real>, candidates: seq<(int, int)>, labels: seq<int>)
      returns (best: seq<(int, int)>)
      requires AllInGrid(matchMap, candidates)
      requires IsLabeling(labels, |candidates|)
      ensures best == BestPositions(matchMap, candidates, labels)
    {
      var numMatches := |LabelSet(labels)|;
      var minErrors := new real[numMatches](_ => 0.0);
      var bestMatches := new (int, int)[numMatches](_ => (0, 0));
      for i := 0 to |candidates|
        invariant forall l :: 0 <= l < numMatches ==>
          var w := Winner(matchMap, candidates, labels, l, i);
          minErrors[l] == RunningScore(matchMap, candidates, w) && bestMatches[l] == RunningPosition(candidates, w)
      {
        var candidate, group := candidates[i], labels[i];
        var error := matchMap[candidate.0][candidate.1];
        if error > minErrors[group] {
          minErrors[group] := error;
          bestMatches[group] := candidate;
        }
      }
      best := bestMatches[..];
    }

    /**
     * `detect(img, pattern)`: None when no position of the match surface
     * scores above `match_threshold`; otherwise the result built from the best
     * candidate of each cluster.
     */
    method Detect(img: Image, pattern: Image, matcher: Matcher, cluster: Clusterer)
      returns (r: Option<CalibrationDetectorResult>)
      requires IsRectangular(matcher(img, pattern, matchMethod))
      requires var cs := Candidates(matcher(img, pattern, matchMethod), matchThreshold);
        IsLabeling(cluster(cs, clusteringBandwidth), |cs|)
      ensures r == Detection(matcher(img, pattern, matchMethod), matchThreshold, clusteringBandwidth, cluster, ShapeOf(pattern))
    {
      var matchMap := matcher(img, pattern, matchMethod);
      var candidates := Candidates(matchMap, matchThreshold);
      if |candidates| == 0 {
        return None;
      }
      var labels := cluster(candidates, clusteringBandwidth);
      var matches := BestMatches(matchMap, candidates, labels);
      BestPositionsInGrid(matchMap, candidates, labels);
      return Some(NewCalibrationResult(matches, matchMap, ShapeOf(pattern)));
    }
  }

  class SensorDetector {
    var matchMethod: real
    var matchThreshold: real

    /** The attribute defaults set before parameters are applied. */
    constructor ()
      ensures matchMethod == TM_CCOEFF_NORMED && matchThreshold == 0.8
    {
      matchMethod, matchThreshold := TM_CCOEFF_NORMED, 0.8;
    }

    /** `self.__dict__[name] = value` for one of the attribute names. */
    method SetAttribute(name: string, value: real)
      requires name in SensorParameters
      modifies this
      ensures matchMethod == if name == "match_method" then value else old(matchMethod)
      ensures matchThreshold == if name == "match_threshold" then value else old(matchThreshold)
    {
      if name == "match_method" {
        matchMethod := value;
      } else {
        matchThreshold := value;
      }
    }

    /** `SensorDetector(params, **kwargs)`, with the same shared-dictionary behaviour. */
    static method New(params: ParamDict, kwargs: Items) returns (r: Result<SensorDetector, Error>)
      requires params.Valid()
      modifies params
      ensures params.Valid() && params.items == Updated(old(params.items), kwargs)
      ensures var k := FirstUnknown(params.items, SensorParameters);
        (r.Failure? <==> k < |params.items|) &&
        (r.Failure? ==> r.error == UnknownParameter(params.items[k].0))
      ensures r.Success? ==> fresh(r.value)
      ensures r.Success? ==>
        r.value.matchMethod == Lookup(params.items, "match_method", TM_CCOEFF_NORMED) &&
        r.value.matchThreshold == Lookup(params.items, "match_threshold", 0.8)
    {
      params.Update(kwargs);
      var detector := new SensorDetector();
      var items := params.items;
      for i := 0 to |items|
        invariant params.items == items && params.Valid()
        invariant forall j :: 0 <= j < i ==> items[j].0 in SensorParameters
        invariant detector.matchMethod == Lookup(items[..i], "match_method", TM_CCOEFF_NORMED)
        invariant detector.matchThreshold == Lookup(items[..i], "match_threshold", 0.8)
      {
        LookupExtend(items, i, "match_method", TM_CCOEFF_NORMED);
        LookupExtend(items, i, "match_threshold", 0.8);
        var (name, value) := items[i];
        if name in SensorParameters {
          detector.SetAttribute(name, value);
        } else {
          FirstUnknownIs(items, SensorParameters, i);
          return Failure(UnknownParameter(name));
        }
      }
      assert items[..|items|] == items;
      FirstUnknownIs(items, SensorParameters, |items|);
      return Success(detector);
    }

    /**
     * `detect(img, pattern, tray)`: the peak arrays of every cell, handed to
     * the sensor result.
     */
    method Detect(img: Image, pattern: Image, tray: TrayDefinition, matcher: Matcher)
      returns (res: SensorDetectorResult)
      requires CellsMatchable(img, pattern, tray, matchMethod, matcher)
      ensures res == SensorDetection(img, pattern, tray, matchThreshold, matchMethod, matcher)
    {
      var offsets, scores := FindPeaks(img, pattern, tray, matchThreshold, matchMethod, matcher);
      var offsetGrid, scoreGrid := Contents(offsets), Contents(scores);
      GridExtensionality(offsetGrid, PeakOffsets(img, pattern, tray, matchThreshold, matchMethod, matcher), tray.rows, tray.cols);
      GridExtensionality(scoreGrid, PeakScores(img, pattern, tray, matchThreshold, matchMethod, matcher), tray.rows, tray.cols);
      res := NewSensorResult(offsetGrid, scoreGrid, ShapeOf(pattern), tray);
    }
  }

  /**
   * Because the default `params` dictionary is shared, a threshold passed to
   * one construction is still in force in a later construction that passes
   * no parameters at all.
   */
  method SharedDefaultLeaks() returns (first: real, second: real)
    ensures first == 0.5 && second == 0.5
  {
    var shared := new ParamDict();
    var a := CalibrationDetector.New(shared, [("match_threshold", 0.5)]);
    assert shared.items == [("match_threshold", 0.5)];
    var b := CalibrationDetector.New(shared, []);
    assert shared.items == [("match_threshold", 0.5)];
    first, second := a.value.matchThreshold, b.value.matchThreshold;
  }

  /**
   * Because the default `params` dictionary keeps every name it was given,
   * one construction with an unknown name makes every later construction
   * without parameters fail too.
   */
  method UnknownNamePoisonsDefault() returns (first: Result<SensorDetector, Error>, second: Result<SensorDetector, Error>)
    ensures first == Failure(UnknownParameter("threshold"))
    ensures second == Failure(UnknownParameter("threshold"))
  {
    var shared := new ParamDict();
    first := SensorDetector.New(shared, [("threshold", 0.5)]);
    assert shared.items == [("threshold", 0.5)];
    second := SensorDetector.New(shared, []);
    assert shared.items == [("threshold", 0.5)];
  }
}
