/**
 * The two pipeline steps: calibration (detect the four calibration points and
 * rectify the image onto the tray) and sensor detection (run one sensor
 * detector per configured sensor type over the tray and keep, per cell, the
 * best-scoring type).
 *
 * Loading the pattern images and `adaptiveThreshold` are outside the model:
 * patterns are given, and the preprocessing filter is the parameter
 * `preprocess`.
 */
module FindSensors {
  import opened Wrappers
  import opened Python
  import opened Grids
  import opened Params
  import opened Tray
  import opened DetectorResult
  import opened Detector
  import opened Transform

  // ---------------------------------------------------------------------
  // Arbitration: `np.where(np.amax(all) > 0, np.argmax(all), -1)`

  /**
   * The kind of one cell from its per-type scores: -1 when no score is
   * positive, otherwise the type with the highest score, the lowest such
   * index on ties.
   */
  function CellLabel(col: seq<real>): (kind: int)
    requires |col| > 0
    ensures kind == -1 <==> forall k :: 0 <= k < |col| ==> col[k] <= 0.0
    ensures kind != -1 ==> 0 <= kind < |col| && col[kind] > 0.0
    ensures kind != -1 ==> forall k :: 0 <= k < |col| ==> col[k] <= col[kind]
    ensures kind != -1 ==> forall k :: 0 <= k < kind ==> col[k] < col[kind]
  {
    var k := ArgMax(col);
    if col[k] > 0.0 then k else -1
  }

  /**
   * The kind grid computed from the stacked per-type score grids.
   * `np.stack` raises when there is no grid or the grids differ in shape;
   * otherwise the grid has the common shape and every cell holds the
   * kind of its column of scores, so it lies in [-1, K).
   */
  function BestSensorTypes(all: seq<Grid<real>>): (r: Result<Grid<int>, Error>)
    ensures r == Failure(NothingToStack) <==> all == []
    ensures r.Success? <==> Stackable(all)
    ensures r.Failure? && all != [] ==> r.error == ShapesDiffer
    ensures r.Success? ==> IsGrid(r.value, |all[0]|, Width(all[0]))
    ensures r.Success? ==> forall row, c :: 0 <= row < |all[0]| && 0 <= c < Width(all[0]) ==>
      var kind := r.value[row][c];
      -1 <= kind < |all| &&
      (kind == -1 <==> forall k :: 0 <= k < |all| ==> all[k][row][c] <= 0.0) &&
      (kind != -1 ==> forall k :: 0 <= k < |all| ==> all[k][row][c] <= all[kind][row][c]) &&
      (kind != -1 ==> forall k :: 0 <= k < kind ==> all[k][row][c] < all[kind][row][c])
  {
    if all == [] then Failure(NothingToStack)
    else if !Stackable(all) then Failure(ShapesDiffer)
    else
      Success(seq(|all[0]|, row requires 0 <= row < |all[0]| =>
        seq(Width(all[0]), c requires 0 <= c < Width(all[0]) => CellLabel(Column(all, row, c)))))
  }

  // ---------------------------------------------------------------------
  // Sensor detection

  /** One entry of the sensor list: its pattern and its detector's keyword parameters. */
  datatype SensorConfig = SensorConfig(pattern: Image, kwargs: Items)

  /** The shared parameter dictionary after the constructions for the first n configurations, in order. */
  function ItemsAfter(items: Items, configs: seq<SensorConfig>, n: nat): Items
    requires n <= |configs|
  {
    if n == 0 then items else Updated(ItemsAfter(items, configs, n - 1), configs[n - 1].kwargs)
  }

  /** The shared dictionary right after construction j. */
  function ItemsThrough(items: Items, configs: seq<SensorConfig>, j: nat): Items
    requires j < |configs|
  {
    ItemsAfter(items, configs, j + 1)
  }

  /** Every name in the dictionary is a sensor detector parameter. */
  predicate AllKnown(items: Items) {
    FirstUnknown(items, SensorParameters) == |items|
  }

  /** Each of the first n constructions left only sensor detector parameters in the dictionary. */
  predicate KnownThrough(items: Items, configs: seq<SensorConfig>, n: nat)
    requires n <= |configs|
  {
    n == 0 || (KnownThrough(items, configs, n - 1) && AllKnown(ItemsThrough(items, configs, n - 1)))
  }

  /** Once a construction has failed, every longer run of constructions has failed too. */
  lemma {:induction false} KnownThroughPrefix(items: Items, configs: seq<SensorConfig>, m: nat, n: nat)
    requires m <= n <= |configs|
    requires KnownThrough(items, configs, n)
    ensures KnownThrough(items, configs, m)
    decreases n
  {
    if m < n {
      KnownThroughPrefix(items, configs, m, n - 1);
    }
  }

  /** The error a sensor detector construction raises: it names the first unknown name in the dictionary. */
  function RaisedFor(items: Items): (e: Error)
    requires !AllKnown(items)
    ensures e.UnknownParameter? && e.name !in SensorParameters
    ensures exists k :: 0 <= k < |items| && items[k].0 == e.name
  {
    var k := FirstUnknown(items, SensorParameters);
    UnknownParameter(items[k].0)
  }

  /** The construction, among the first n, that is the first to meet an unknown name. */
  function FirstFailing(items: Items, configs: seq<SensorConfig>, n: nat): (j: nat)
    requires n <= |configs| && !KnownThrough(items, configs, n)
    ensures j < n
    ensures KnownThrough(items, configs, j) && !AllKnown(ItemsThrough(items, configs, j))
  {
    if KnownThrough(items, configs, n - 1) then n - 1 else FirstFailing(items, configs, n - 1)
  }

  /** No other construction is the first to fail: every earlier one succeeded, and it did not. */
  lemma {:induction false} FirstFailingUnique(items: Items, configs: seq<SensorConfig>, n: nat, j: nat)
    requires j < n <= |configs|
    requires KnownThrough(items, configs, j) && !AllKnown(ItemsThrough(items, configs, j))
    ensures !KnownThrough(items, configs, n)
    ensures FirstFailing(items, configs, n) == j
  {
    if KnownThrough(items, configs, n) {
      KnownThroughAt(items, configs, j, n);
      assert false;
    }
    var f := FirstFailing(items, configs, n);
    if f < j {
      KnownThroughAt(items, configs, f, j);
      assert false;
    } else if j < f {
      KnownThroughAt(items, configs, j, f);
      assert false;
    }
  }

  /** When the first n constructions all succeed, construction j < n left only known names. */
  lemma KnownThroughAt(items: Items, configs: seq<SensorConfig>, j: nat, n: nat)
    requires j < n <= |configs| && KnownThrough(items, configs, n)
    ensures AllKnown(ItemsThrough(items, configs, j))
  {
    KnownThroughPrefix(items, configs, j + 1, n);
  }

  /** The result detector j produces, given the dictionary its construction left behind. */
  function SensorResultFor(img: Image, tray: TrayDefinition, matcher: Matcher, config: SensorConfig, items: Items)
    : (res: SensorDetectorResult)
    requires ProducesSurfaces(matcher)
    ensures IsGrid(res.scores, tray.rows, tray.cols)
  {
    SensorDetection(img, config.pattern, tray,
      Lookup(items, "match_threshold", 0.8), Lookup(items, "match_method", TM_CCOEFF_NORMED), matcher)
  }

  /** The results of the first n detectors, in configuration order. */
  function SensorResults(img: Image, tray: TrayDefinition, matcher: Matcher, configs: seq<SensorConfig>, items: Items, n: nat)
    : (results: seq<SensorDetectorResult>)
    requires ProducesSurfaces(matcher) && n <= |configs|
    ensures |results| == n
    ensures forall j :: 0 <= j < n ==>
      results[j] == SensorResultFor(img, tray, matcher, configs[j], ItemsThrough(items, configs, j))
    ensures forall j :: 0 <= j < n ==> IsGrid(results[j].scores, tray.rows, tray.cols)
  {
    if n == 0 then []
    else
      var last := SensorResultFor(img, tray, matcher, configs[n - 1], ItemsThrough(items, configs, n - 1));
      SensorResults(img, tray, matcher, configs, items, n - 1) + [last]
  }

  /** Score grids of results over one tray always stack. */
  lemma TrayResultsStack(img: Image, tray: TrayDefinition, matcher: Matcher, results: seq<SensorDetectorResult>)
    requires |results| > 0
    requires forall j :: 0 <= j < |results| ==> IsGrid(results[j].scores, tray.rows, tray.cols)
    ensures Stackable(ScoreGrids(results))
    ensures BestSensorTypes(ScoreGrids(results)).Success?
  {
    var all := ScoreGrids(results);
    if tray.rows > 0 {
      assert Width(all[0]) == tray.cols;
    }
  }

  /**
   * One iteration of the loop in `detectSensors`: construct the detector for
   * one sensor type through the shared dictionary, then run it over the tray.
   */
  method DetectOneType(img: Image, config: SensorConfig, tray: TrayDefinition, shared: ParamDict, matcher: Matcher)
    returns (r: Result<SensorDetectorResult, Error>)
    requires shared.Valid() && ProducesSurfaces(matcher)
    modifies shared
    ensures shared.Valid() && shared.items == Updated(old(shared.items), config.kwargs)
    ensures r.Success? <==> AllKnown(shared.items)
    ensures r.Failure? ==> r.error == RaisedFor(shared.items)
    ensures r.Success? ==> r.value == SensorResultFor(img, tray, matcher, config, shared.items)
  {
    var made := SensorDetector.New(shared, config.kwargs);
    if made.Failure? {
      return Failure(made.error);
    }
    var detector := made.value;
    var result := detector.Detect(img, config.pattern, tray, matcher);
    return Success(result);
  }

  /**
   * The loop of `detectSensors`: one detector per configured type, in order,
   * each constructed through the shared dictionary and run over the tray,
   * stopping at the first construction that meets an unknown name.
   */
  method DetectAllTypes(img: Image, configs: seq<SensorConfig>, tray: TrayDefinition, shared: ParamDict, matcher: Matcher)
    returns (r: Result<seq<SensorDetectorResult>, Error>)
    requires shared.Valid() && ProducesSurfaces(matcher)
    modifies shared
    ensures shared.Valid()
    ensures r.Success? <==> KnownThrough(old(shared.items), configs, |configs|)
    ensures r.Failure? ==>
      var items := ItemsThrough(old(shared.items), configs, FirstFailing(old(shared.items), configs, |configs|));
      shared.items == items && r.error == RaisedFor(items)
    ensures r.Success? ==> shared.items == ItemsAfter(old(shared.items), configs, |configs|)
    ensures r.Success? ==> r.value == SensorResults(img, tray, matcher, configs, old(shared.items), |configs|)
  {
    var results: seq<SensorDetectorResult> := [];
    for j := 0 to |configs|
      invariant shared.Valid() && shared.items == ItemsAfter(old(shared.items), configs, j)
      invariant KnownThrough(old(shared.items), configs, j)
      invariant results == SensorResults(img, tray, matcher, configs, old(shared.items), j)
    {
      var result := DetectOneType(img, configs[j], tray, shared, matcher);
      assert shared.items == ItemsThrough(old(shared.items), configs, j);
      if result.Failure? {
        FirstFailingUnique(old(shared.items), configs, |configs|, j);
        return Failure(result.error);
      }
      results := results + [result.value];
    }
    return Success(results);
  }

  /**
   * `detectSensors(img, params, tray)`: runs the detectors of all configured
   * types and arbitrates their stacked scores. It returns the label grid and
   * one result per type in configuration order; it raises when a
   * construction meets an unknown name or there is no type at all.
   */
  method DetectSensors(img: Image, configs: seq<SensorConfig>, tray: TrayDefinition, shared: ParamDict, matcher: Matcher)
    returns (r: Result<(Grid<int>, seq<SensorDetectorResult>), Error>)
    requires shared.Valid() && ProducesSurfaces(matcher)
    modifies shared
    ensures shared.Valid()
    ensures r.Success? <==> configs != [] && KnownThrough(old(shared.items), configs, |configs|)
    ensures r.Failure? && configs == [] ==> r.error == NothingToStack
    ensures r.Failure? && configs != [] ==>
      var items := ItemsThrough(old(shared.items), configs, FirstFailing(old(shared.items), configs, |configs|));
      shared.items == items && r.error == RaisedFor(items)
    ensures r.Success? ==> shared.items == ItemsAfter(old(shared.items), configs, |configs|)
    ensures r.Success? ==>
      var (labels, results) := r.value;
      results == SensorResults(img, tray, matcher, configs, old(shared.items), |configs|) &&
      BestSensorTypes(ScoreGrids(results)) == Success(labels)
  {
    var detected := DetectAllTypes(img, configs, tray, shared, matcher);
    if detected.Failure? {
      return Failure(detected.error);
    }
    var results := detected.value;
    if results != [] {
      TrayResultsStack(img, tray, matcher, results);
    }
    var labels := BestSensorTypes(ScoreGrids(results));
    if labels.Failure? {
      return Failure(labels.error);
    }
    return Success((labels.value, results));
  }

  // ---------------------------------------------------------------------
  // Calibration

  /** The clusterer labels any candidates 0..k-1 with k the number of distinct labels. */
  ghost predicate ProducesLabelings(cluster: Clusterer) {
    forall cs, bandwidth :: IsLabeling(cluster(cs, bandwidth), |cs|)
  }

  /** The array shape of a colour image: rows, columns, channels. */
  function ColourShape(img: Image): (shape: seq<nat>)
    ensures |shape| == 3 && shape[0] == |img| && shape[1] == Width(img)
  {
    [|img|, Width(img), if |img| > 0 && |img[0]| > 0 then |img[0][0]| else 0]
  }

  /** `result[:4]` as float points. */
  function FirstFour(res: CalibrationDetectorResult): (points: seq<Point>)
    ensures |points| == if Len(res.centers) < 4 then Len(res.centers) else 4
    ensures forall i :: 0 <= i < |points| ==>
      points[i] == (res.centers[i].0 as real, res.centers[i].1 as real)
  {
    var centers := GetSlice(res.centers, 0, 4);
    seq(|centers|, i requires 0 <= i < |centers| => (centers[i].0 as real, centers[i].1 as real))
  }

  /**
   * The rest of `calibrate` once detection has run, with the absent result
   * handled: no image unless at least four calibration points were found;
   * then the first four points are matched to the image corners and the
   * image is warped to the tray's (width, height).
   */
  function Calibration(detected: Option<CalibrationDetectorResult>, img: Image, tray: TrayDefinition, solve: Solver)
    : (r: Result<Option<Applied<Image>>, Error>)
    ensures detected.None? ==> r == Success(None)
    ensures detected.Some? && Len(detected.value.centers) < 4 ==> r == Success(None)
    ensures detected.Some? && Len(detected.value.centers) >= 4 ==>
      var t := GetPerspectiveTransform(ShapeOf(img), FirstFour(detected.value), (tray.height, tray.width), solve);
      (r.Success? <==> t.Success?) &&
      (r.Failure? ==> r.error == t.error) &&
      (r.Success? ==> r.value == Some(ImageWarped(t.value.matrix, (tray.width, tray.height), img)))
  {
    if detected.None? || Len(detected.value.centers) < 4 then Success(None)
    else
      var t :- GetPerspectiveTransform(ShapeOf(img), FirstFour(detected.value), (tray.height, tray.width), solve);
      // a colour image has three axes, so the transform always warps it
      Success(Some(t.Call(img, ColourShape(img)).value))
  }

  /**
   * The same step as written: `len()` is applied to the detection result
   * before anything else, so when detection found no candidate at all the
   * call raises instead of returning no image.
   */
  function CalibrationAsWritten(detected: Option<CalibrationDetectorResult>, img: Image, tray: TrayDefinition, solve: Solver)
    : (r: Result<Option<Applied<Image>>, Error>)
    ensures detected.None? <==> r == Failure(NoneHasNoLength)
    ensures detected.Some? ==> r == Calibration(detected, img, tray, solve)
  {
    if detected.None? then Failure(NoneHasNoLength)
    else
      var res := detected.value;
      if Len(res.centers) < 4 then Success(None)
      else
        var t :- GetPerspectiveTransform(ShapeOf(img), FirstFour(res), (tray.height, tray.width), solve);
        Success(Some(t.Call(img, ColourShape(img)).value))
  }

  /** Only the first four detected centres affect the calibrated image. */
  lemma OnlyFirstFourCentresMatter(a: CalibrationDetectorResult, b: CalibrationDetectorResult, img: Image, tray: TrayDefinition, solve: Solver)
    requires |a.centers| >= 4 && |b.centers| >= 4 && a.centers[..4] == b.centers[..4]
    ensures Calibration(Some(a), img, tray, solve) == Calibration(Some(b), img, tray, solve)
  {
    assert FirstFour(a) == FirstFour(b) by {
      forall i | 0 <= i < 4 ensures a.centers[i] == b.centers[i] {
        assert a.centers[..4][i] == a.centers[i] && b.centers[..4][i] == b.centers[i];
      }
    }
  }

  /**
   * `calibrate(img, params, tray)`: constructs the calibration detector
   * through the shared parameter dictionary (raising on an unknown name),
   * detects the calibration points on the preprocessed image and pattern,
   * and finishes as written, with `CalibrationAsWritten`: an empty detection
   * raises rather than returning no image.
   */
  method Calibrate(img: Image, pattern: Image, shared: ParamDict, kwargs: Items, tray: TrayDefinition,
                   preprocess: Image -> Image, matcher: Matcher, cluster: Clusterer, solve: Solver)
    returns (r: Result<Option<Applied<Image>>, Error>)
    requires shared.Valid() && ProducesSurfaces(matcher) && ProducesLabelings(cluster)
    modifies shared
    ensures shared.Valid() && shared.items == Updated(old(shared.items), kwargs)
    ensures var k := FirstUnknown(shared.items, CalibrationParameters);
      k < |shared.items| ==> r == Failure(UnknownParameter(shared.items[k].0))
    ensures var items := shared.items;
      FirstUnknown(items, CalibrationParameters) == |items| ==>
      var m := matcher(preprocess(img), preprocess(pattern), Lookup(items, "match_method", TM_CCOEFF_NORMED));
      var detected := Detection(m, Lookup(items, "match_threshold", 0.8), Lookup(items, "clustering_bandwidth", 40.0),
        cluster, ShapeOf(preprocess(pattern)));
      r == CalibrationAsWritten(detected, img, tray, solve)
  {
    var detectorImg := preprocess(img);
    var thresholdedPattern := preprocess(pattern);
    var made := CalibrationDetector.New(shared, kwargs);
    if made.Failure? {
      return Failure(made.error);
    }
    var detector := made.value;
    var result := detector.Detect(detectorImg, thresholdedPattern, matcher, cluster);
    if result.None? {
      // `len(None)` raises before the count is compared
      return Failure(NoneHasNoLength);
    }
    if Len(result.value.centers) < 4 {
      return Success(None);
    }
    var transform := GetPerspectiveTransform(ShapeOf(img), FirstFour(result.value), (tray.height, tray.width), solve);
    if transform.Failure? {
      return Failure(transform.error);
    }
    var transformed := transform.value.Call(img, ColourShape(img));
    return Success(Some(transformed.value));
  }
}
