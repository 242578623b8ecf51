# Tray sensor detector — a Dafny model

The system photographs a tray of sensors, rectifies the photo and finds which kind of sensor sits in each tray cell. It works in two steps:

- **Calibration.** Template matching finds the four calibration marks. The candidate positions are clustered and the best match of each cluster is kept. The first four mark centres are matched to the image corners, and the image is warped onto a plane of the tray's size.
- **Sensor detection.** For each configured sensor type, template matching runs in every tray cell. The peak score above a threshold is kept per cell. Each cell is then labelled with the best-scoring type, or -1 when no type scored.

The model covers these pieces:

- the detectors and their parameter handling;
- the tray geometry;
- the records the detectors return;
- the corner correspondence and transform dispatch;
- the two pipeline steps;
- the stand-alone arbitration helper.

Template matching, clustering, the perspective solver and warping are library calls. They become function parameters or symbolic results:

- `Matcher` gives a score surface;
- `Clusterer` gives a labelling;
- `Solver` gives a matrix;
- `Applied` records which matrix and shape are applied to which argument.

Modules follow the source files:

| module | source |
|---|---|
| `Detector` | detector.py |
| `DetectorResult` | detector_result.py |
| `Tray` | tray.py |
| `Transform` | transform.py |
| `CvUtil` | cvutil.py |
| `FindSensors` | find_sensors.py |
| `Utils` | utils.py |

Four modules support them:

- `Wrappers`: Option and Result;
- `Python`: the raised errors, `int()` truncation, slicing and indexing;
- `Grids`: numpy 2-D arrays as rectangular sequences, `argmax`, `argmin` and `stack`;
- `Params`: the insertion-ordered parameter dictionary.

Python exceptions are `Failure` values of the `Error` datatype.

The detector constructors take `params={}` as a default argument and call `params.update(kwargs)` on it. So every construction that passes no `params` shares one dictionary. That dictionary is the class `Params.ParamDict`, which callers pass explicitly. `Detector.SharedDefaultLeaks` and `Detector.UnknownNamePoisonsDefault` show the consequences:

- a threshold given to one construction becomes the default for the next one;
- one unknown name makes every later construction raise.

Three places where the model follows the code literally:

- `PerspectiveTransform.__call__` reads `arg.shape[1]` before `arg.ndim`. A 1-D or 0-D argument therefore raises IndexError before the branch that raises TypeError is reached (`Transform.PerspectiveTransform.Call`).
- `getPerspectiveTransform` builds its anchor corners from `src_img.shape[:2]`, which is (height, width). The source points are (x, y). The model keeps this literally. `Transform.WideImageCornersCollide` shows that for a 100×1000 image whose marks sit exactly at its corners, two anchors pick the same mark and the transform is refused.
- `calibrate` guards with `len(result) < 4` and returns no image when fewer than four points are found. The guard applies `len()` to the detection result, which is `None` when nothing matched, so `FindSensors.Calibrate` fails with `NoneHasNoLength` in that case (see Findings).

## Model

| member | source | states |
|---|---|---|
| Python.Trunc | tray.py:58-59 | `int(x)` truncates toward zero: the result is within one of `x` and not further from zero than `x` |
| Python.TruncMonotonic | tray.py:58-59 | `int()` is monotonic, which orders cell edges |
| Python.Slice | tray.py:88 | slicing never fails: with both bounds normalised (negative from the end, clipped to 0..len), the result has length stop - start when start < stop and is empty otherwise, and item k is the item at start + k |
| Python.Index | detector_result.py:14-15 | indexing accepts keys -len..len-1, counts negative keys from the end, and raises IndexError otherwise |
| Grids.ArgMax | find_sensors.py:83 | `np.argmax` over a vector: an index of a maximum, the first one on ties |
| Grids.ArgMin | transform.py:47 | `np.argmin`: an index of a minimum, the first one on ties |
| Grids.ArgMax2 | detector.py:88-89 | `argmax` + `unravel_index` on a 2-D surface: the first maximal position in row-major order |
| Grids.FirstMaxUnique | detector.py:88-89 | a surface has only one first maximal position, so the peak is determined by the surface alone |
| Grids.Column | find_sensors.py:80 | `np.stack` then indexing a cell gives the k-th grid's value at that cell, for every k |
| Params.Lookup | detector.py:27-29 | the value an attribute ends with: the default when the name is absent, otherwise the value of the last entry with that name |
| Params.Put | detector.py:25 | `d[name] = value`: an existing key keeps its place, a new key goes last, the key is present afterwards |
| Params.PutDistinct | detector.py:25 | a put keeps the keys distinct |
| Params.PutLookup | detector.py:25 | after a put, the name reads the new value and every other name reads its old value |
| Params.Updated | detector.py:25 | `update(kwargs)` adds at most one name per entry of `kwargs` |
| Params.TailLacksHead | detector.py:25 | in a dictionary, the first name does not occur again |
| Params.UpdatedLookup | detector.py:25 | after `update(kwargs)`, a name reads its last value in `kwargs` if present there, else its old value; keys stay distinct |
| Params.UpdatedKeepsOrder | detector.py:25 | `update` keeps existing names in place, only appends, and every `kwargs` name is present afterwards |
| Params.FirstUnknown | detector.py:27-31 | the index of the first name that is not a known attribute, or the length when all are known |
| Params.FirstUnknownIs | detector.py:27-31 | an index whose earlier names are all known and whose own name is not (or the length, when all are known) is the first unknown one |
| Params.LookupExtend | detector.py:27-29 | reading a prefix one entry longer: the new entry wins for its own name, every other name reads as before |
| Params.ParamDict.constructor | detector.py:18 | the `params={}` default is one dictionary object, empty when the class is defined |
| Params.ParamDict.Update | detector.py:25 | the shared dictionary becomes `Updated(old items, kwargs)` and keeps distinct keys |
| Detector.RowCandidates | detector.py:50 | one row's candidates: exactly its columns scoring above the threshold, in increasing order |
| Detector.Candidates | detector.py:50 | `transpose(where(m > threshold))`: (r, c) is a candidate iff it is in the grid and scores strictly above the threshold; candidates are in row-major order |
| Detector.NoCandidates | detector.py:50-54 | there are no candidates exactly when no score exceeds the threshold |
| Detector.Winner | detector.py:40-44 | the candidate a scan of the first n keeps, if any, is one of them, carries the group's label and scores above the initial 0 |
| Detector.WinnerIsGroupBest | detector.py:40-44 | for one label, no winner iff all its candidate scores are ≤ 0; otherwise a candidate of that label with a maximal, positive score, the first in scan order on ties |
| Detector.BestPositions | detector.py:36-38 | one entry per distinct label |
| Detector.BestPositionsInGrid | detector.py:37-44 | when some candidate exists, every chosen position lies in the score surface |
| Detector.Detection | detector.py:48-62 | `detect` returns None iff no score exceeds the threshold; otherwise a result with the pattern's shape and one entry per cluster |
| Detector.DetectionIsClusterBest | detector.py:37-62 | entry l of the result is the best candidate of cluster l, with its score; a cluster whose candidates all score ≤ 0 keeps (0, 0) and its surface value there |
| Detector.PeakOf | detector.py:88-95 | a cell's peak: the first row-major maximum and its score when the maximum exceeds the threshold; otherwise (-1, -1) and score 0 |
| Detector.PeakOffsets | detector.py:81-93 | the offset grid has the tray's shape, and each cell holds that cell's peak offset or the sentinel |
| Detector.PeakScores | detector.py:82-95 | the score grid has the tray's shape, and each cell holds its peak score or 0 |
| Detector.SensorDetection | detector.py:80-97 | each cell holds its peak offset as (x, y) and its peak score; every score is 0 or above the threshold; all grids have the tray's shape |
| Detector.DetectCell | detector.py:85-95 | one loop step: the cell (row, col) ends with its peak outcome and no other cell of either array changes |
| Detector.FindPeaks | detector.py:81-95 | after the loop over the tray, every cell of the fresh offset and score arrays holds that cell's peak outcome |
| Detector.MatchesAgreeWithOffsets | detector.py:92-95 | with a non-negative threshold, a cell matches iff its offset is not the sentinel |
| Detector.CalibrationDetector.constructor | detector.py:20-22 | defaults: method TM_CCOEFF_NORMED (5), threshold 0.8, bandwidth 40 |
| Detector.CalibrationDetector.SetAttribute | detector.py:28-29 | setting a known attribute changes that attribute alone |
| Detector.CalibrationDetector.New | detector.py:18-33 | the shared dictionary is updated with kwargs; construction raises for the first unknown name and otherwise takes each attribute's last dictionary value or its default |
| Detector.CalibrationDetector.BestMatches | detector.py:35-46 | the imperative scan over candidates computes `BestPositions` |
| Detector.CalibrationDetector.Detect | detector.py:48-62 | the method computes `Detection` on the matcher's surface with the detector's own parameters |
| Detector.SensorDetector.constructor | detector.py:68-69 | defaults: method TM_CCOEFF_NORMED (5), threshold 0.8 |
| Detector.SensorDetector.SetAttribute | detector.py:75-76 | setting a known attribute changes that attribute alone |
| Detector.SensorDetector.New | detector.py:66-78 | as for the calibration detector, with only the two sensor parameters known |
| Detector.SensorDetector.Detect | detector.py:80-97 | the arrays filled by the loop over the tray, handed to the result, give `SensorDetection` |
| Detector.SharedDefaultLeaks | detector.py:18-29 | a threshold passed to one construction is seen by the next construction that passes none |
| Detector.UnknownNamePoisonsDefault | detector.py:66-78 | after one unknown name, a later construction with no arguments raises for that name too |
| DetectorResult.Len | detector_result.py:20-21 | `len(result)` is the number of items iteration yields |
| DetectorResult.Iter | detector_result.py:17-18 | iteration yields the centres, each once, in order |
| DetectorResult.GetItem | detector_result.py:14-21 | `result[key]` agrees with iteration over the centres, counts negative keys from the end, and raises outside -len..len-1 |
| DetectorResult.GetSlice | detector_result.py:14-15 | `result[start:stop]`, for any bounds, is the run of iterated centres between the normalised bounds (empty when they cross) |
| DetectorResult.NewCalibrationResult | detector_result.py:31-39 | positions are the matches with coordinates swapped; each score is the surface value at its match; each centre is the match plus half the pattern size, swapped |
| DetectorResult.NewSensorResult | detector_result.py:55-65 | offsets are swapped; a cell matches iff its score is positive; centre components stay -1 where the offset is -1, else offset plus half the pattern size, swapped |
| DetectorResult.ScoreGrids | find_sensors.py:80 | one score grid per result, in order |
| Tray.TrayDefinition.GetPos | tray.py:48-60 | each corner coordinate is `int(margin + size × index)`, x from the column alone and y from the row alone |
| Tray.TrayDefinition.GetBounds | tray.py:62-74 | the bottom-right corner is `getPos(row+1, col+1)` |
| Tray.CutColumns | tray.py:88 | each row of the band, cut to columns x1..x2 |
| Tray.Crop | tray.py:88 | for any bounds, the crop has one row per row of the clipped range y1..y2, row i being image row (clipped y1) + i cut to columns x1..x2 |
| Tray.TrayDefinition.GetCell | tray.py:76-89 | for any cell, even one whose bounds leave the image, the cell is the crop of the image to the cell's bounds as numpy clips them |
| Tray.CropRow | tray.py:88 | with in-image bounds, row i of the crop is row y1 + i cut to columns x1..x2 |
| Tray.CropShape | tray.py:88 | with in-image bounds, the crop has y2 - y1 rows of x2 - x1 pixels |
| Tray.CropPixels | tray.py:88 | with in-image bounds, crop pixel (i, j) is image pixel (y1 + i, x1 + j) |
| Tray.CropPixel | tray.py:88 | with in-image bounds, one crop pixel (i, j) is image pixel (y1 + i, x1 + j) |
| Tray.CropIsBlock | tray.py:88 | `img[y1:y2, x1:x2, :]` with in-image bounds is exactly the block of rows y1..y2 and columns x1..x2 |
| Tray.CellIsBlock | tray.py:76-89 | with in-image bounds, `getCell` is exactly the block of rows y1..y2 and columns x1..x2 of the cell's bounds |
| Tray.TrayDefinition.Iter | tray.py:115-125 | all rows × cols pairs, each once, in row-major order |
| Tray.TrayDefinition.RowOfCells | tray.py:124-125 | the inner loop: the cells of one row, left to right |
| Tray.NewTray | tray.py:33-46 | lengths are scaled and counts are not; the margins centre the cells |
| Tray.CellsShareEdges | tray.py:72-74 | neighbouring cells share their common edge: no gap and no overlap |
| Tray.CellWidthWithinOnePixel | tray.py:58-73 | with a non-negative margin and cell width, a cell's pixel width is within one pixel of the scaled cell width |
| Tray.CellHeightWithinOnePixel | tray.py:59-73 | with a non-negative margin and cell height, a cell's pixel height is within one pixel of the scaled cell height |
| Tray.CellSizeWithinOnePixel | tray.py:58-73 | with non-negative margins and sizes, a cell's pixel size is within one pixel of the scaled cell size |
| Tray.EdgesInOrder | tray.py:58-59 | with a non-negative cell size, a truncated edge grows with its index |
| Tray.ColumnsInOrder | tray.py:58 | cells further right start no further left |
| Tray.RowsInOrder | tray.py:59 | lower rows start no higher |
| Tray.CellsDoNotOverlap | tray.py:58-73 | a cell ends at or before any cell to its right or below it begins |
| Tray.ColumnEdgeInsideTray | tray.py:45-58 | in a horizontally centred tray, every column edge up to `cols` lies within the tray's width |
| Tray.RowEdgeInsideTray | tray.py:46-59 | in a vertically centred tray, every row edge up to `rows` lies within the tray's height |
| Tray.CellsInsideTray | tray.py:45-73 | in a centred tray with non-negative margins every cell lies inside the tray |
| Tray.FirstNamed | tray.py:142-144 | the index of the first tray with the name, or the length when there is none |
| Tray.TrayCatalog.constructor | tray.py:9 | the module-level cache `_trays_data` starts as None, with the tray file not yet read |
| Tray.TrayCatalog.GetTrayDef | tray.py:128-144 | the tray file is read at most once and only while the cache is empty; the result is the first tray with that name, scaled, or none |
| Transform.FourCorners | transform.py:58-80 | one argument gives a box from (0, 0); two arguments give a box between them; any other count raises TypeError; with a the first argument (or (0, 0)) and b the last, the corners are (a0,a1), (a0,b1), (b0,b1), (b0,a1), which go round the box |
| Transform.Anchors | transform.py:45 | the image corners are `_fourCorners` of the image's (height, width) |
| Transform.Nearest | transform.py:46-47 | the index of a source point nearest the corner, the first on ties |
| Transform.Correspondences | transform.py:46-47 | `correspondences[i]` is the nearest point to corner i |
| Transform.UniqueCount | transform.py:48 | `unique(c)` has at most `len(c)` entries, and exactly that many iff the entries are distinct |
| Transform.CorrespondenceIsBijection | transform.py:48 | four distinct correspondences among four points use every point |
| Transform.SourceQuad | transform.py:50 | the matched points, in corner order |
| Transform.GetPerspectiveTransform | transform.py:31-55 | no points raises; otherwise the transform exists iff the correspondences are distinct, and it maps the matched points onto the corners of the output plane with (height, width) swapped to (width, height) |
| Transform.PerspectiveTransform.Call | transform.py:5-22 | an (N, 2) array maps points; any other 2-D or 3-D array warps an image with the stored matrix and shape; fewer than 2 axes raise IndexError; more than 3 raise TypeError |
| Transform.WideImageCornersCollide | transform.py:42-48 | for a 100×1000 image with its marks at its corners, correspondences are [0, 3, 3, 0] and the transform is refused |
| Transform.NearestIsUniqueMinimum | transform.py:47 | a point strictly nearer than every other is the one chosen |
| CvUtil.FourCorners | cvutil.py:39-61 | the same box and argument rules as `_fourCorners`, with a the first argument (or (0, 0)) and b the last, the corners are (a0,a1), (a0,b1), (b0,a1), (b0,b1) |
| CvUtil.LastTwoSwapped | cvutil.py:56-61 | it agrees with `_fourCorners` except that the last two corners are swapped |
| CvUtil.MiddleCornersOpposite | cvutil.py:56-61 | for a proper box, the middle two corners are opposite corners here but adjacent in `_fourCorners` |
| FindSensors.CellLabel | find_sensors.py:82-87 | -1 iff no type scores above 0; otherwise the highest-scoring type, the lowest index on ties |
| FindSensors.BestSensorTypes | find_sensors.py:80-87 | stacking raises on no grid or on differing shapes; otherwise the labels have the common shape and each lies in [-1, K) with the per-cell rule of `CellLabel` |
| FindSensors.RaisedFor | detector.py:73-78 | the error a construction raises names a dictionary entry that is not a sensor parameter |
| FindSensors.FirstFailing | find_sensors.py:71-74 | when some construction fails, the first failing one: every earlier construction met only known names and it did not |
| FindSensors.FirstFailingUnique | find_sensors.py:71-74 | any construction that succeeds after only successes and then fails is `FirstFailing`, and the loop as a whole fails |
| FindSensors.KnownThroughPrefix | find_sensors.py:72-74 | if every construction up to n succeeds, so does every construction up to m ≤ n |
| FindSensors.SensorResults | find_sensors.py:71-77 | one result per configured type, in order, each from a detector built on the dictionary as updated by all earlier constructions |
| FindSensors.TrayResultsStack | find_sensors.py:80 | results over one tray always stack, so arbitration cannot fail |
| FindSensors.DetectOneType | find_sensors.py:73-77 | one loop step: the dictionary is updated with the type's kwargs, and the result is that detector's run, or the error naming the first unknown name in the updated dictionary |
| FindSensors.DetectAllTypes | find_sensors.py:71-77 | the loop succeeds iff every construction meets only known names, and then returns `SensorResults`; on failure the dictionary is as left by the first failing construction and the error names that dictionary's first unknown name |
| FindSensors.DetectSensors | find_sensors.py:57-89 | success iff some type is configured and every construction succeeds; raises on an empty list, or at the first failing construction with the dictionary it left and its first unknown name; the labels are `BestSensorTypes` of the result scores |
| FindSensors.FirstFour | find_sensors.py:51 | `result[:4]`: the first four centres (fewer if there are fewer) |
| FindSensors.Calibration | find_sensors.py:46-54 | no image below four points (including none detected); otherwise the outcome of the transform on the first four centres with target (tray.height, tray.width), applied to the image |
| FindSensors.CalibrationAsWritten | find_sensors.py:43-54 | `len(None)` raises exactly when nothing was detected; otherwise the same as `Calibration` |
| FindSensors.OnlyFirstFourCentresMatter | find_sensors.py:51 | results agreeing on their first four centres calibrate identically |
| FindSensors.Calibrate | find_sensors.py:24-54 | the dictionary is updated; construction raises on an unknown name; otherwise the result is `CalibrationAsWritten` of `Detection` on the preprocessed image and pattern, so an empty detection raises (`len(None)`) and fewer than four points give no image |
| Utils.BestMatchLabel | utils.py:30-32 | -1 iff the best score is exactly 0; otherwise the best type, the lowest index on ties |
| Utils.FindBestMatches | utils.py:28-33 | stacking raises on no result or differing shapes; otherwise the labels have the common shape and lie in [-1, K); a cell is -1 iff no score is above 0 and some score is 0, and otherwise holds the type with the highest (non-zero) score, the lowest index on ties |
| Utils.LabelsAgreeOnNonNegativeScores | utils.py:32 | with no negative score, the `!= 0` rule and the `> 0` rule label a cell alike |
| Utils.AgreesWithDetectSensorsOnNonNegativeScores | utils.py:28-33 | with no negative score, `findBestMatches` gives exactly the `detectSensors` labels, failures included |
| Utils.NegativeCellsDiverge | utils.py:32 | a cell where every type scores below 0 gets a type index here but -1 in `detectSensors` |

## Left out

- `cv2.matchTemplate`, `cv2.getPerspectiveTransform`, `cv2.warpPerspective` and `cv2.perspectiveTransform` are library code. They are parameters (`Matcher`, `Solver`) or symbolic results (`Applied`). The matcher is assumed to return a non-empty rectangular surface.
- sklearn `MeanShift` is a library call. Its labelling is the parameter `Clusterer`, assumed to label n candidates with 0..k-1. Its `bandwidth` is passed along but has no modelled effect.
- `adaptiveThreshold` and the other cv2 preprocessing wrappers are the parameter `preprocess` of `FindSensors.Calibrate`.
- `loadImage` and `loadYAML` do file I/O. Pattern images and configurations are parameters. The tray file contents are the `file` parameter of `Tray.TrayCatalog.GetTrayDef`.
- `logging` calls, the matplotlib drawing (`axPaint`, `drawGrid`, `axShowImage`, colour gradients), `__repr__`/`__str__`, the Tk GUI and the `main` entry points are output and user interface.
- Scores are exact `real`s. float32 rounding, NaN and infinities are not modelled.
- `Transform.Nearest` compares squared distances instead of `np.linalg.norm`. The order is the same for exact reals.
- Image pixel values are abstract. A colour image is assumed to have three axes, which is what `cv2.imread(..., IMREAD_COLOR)` gives.
- Tray row and column counts are `nat`; numpy would raise when allocating negative shapes.
- `match_method` is kept as a number and passed to the matcher; the eight cv2 method constants are not distinguished.
- `FindSensors.Calibrate` covers the step with its keyword dictionary given explicitly. The nested YAML attribute access (`params.calibration_detector.detector`) is a trivial attribute-access shim.
- `Detector.CalibrationDetector.New` and `Detector.SensorDetector.New` fix parameter values to `real`. A non-numeric value would be stored by Python and fail later inside a library call.
- `Transform.SquaredDistance`: its contract states only non-negativity; that it is zero exactly at equal points is not proved (nonlinear real arithmetic).

## Findings

| source | as written | input that shows it | evidently intended | confidence | as-written member | corrected member |
|---|---|---|---|---|---|---|
| find_sensors.py:43-48 | `len(result)` is taken on the detection result, which `detect` returns as `None` when no score exceeds the threshold, so `calibrate` raises TypeError | an image in which no match score exceeds `match_threshold` | return no image, as the `< 4` guard does for fewer than four points | not executed | FindSensors.CalibrationAsWritten | FindSensors.Calibration |
