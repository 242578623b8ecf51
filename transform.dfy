/**
 * Rectification support: the corners of an axis-aligned box, the matching of
 * each image corner to its nearest calibration point, and the dispatch of a
 * perspective transform on the shape of its argument.
 *
 * `cv2.getPerspectiveTransform` is the parameter `solve`; warping an image and
 * mapping points are recorded symbolically (which matrix, which argument).
 */
module Transform {
  import opened Wrappers
  import opened Python
  import opened Grids

  /** A point (x, y) as a float32 pair. */
  type Point = (real, real)

  /** The opaque 3x3 homography returned by `cv2.getPerspectiveTransform`. */
  type Matrix = seq<seq<real>>

  /** `cv2.getPerspectiveTransform(src, dst)`. */
  type Solver = (seq<Point>, seq<Point>) -> Matrix

  /** Two corners of a box are joined by one of its edges: they agree in one coordinate. */
  predicate OnSameEdge(p: Point, q: Point) {
    p.0 == q.0 || p.1 == q.1
  }

  /**
   * `_fourCorners(*args)`: with one argument b the box from (0, 0) to b, with
   * two arguments a, b the box from a to b. The corners are listed a,
   * (a.x, b.y), b, (b.x, a.y), so consecutive corners (cyclically) share an
   * edge and corners 0 and 2 are the two given opposite corners. Any other
   * number of arguments raises.
   */
  function FourCorners(args: seq<Point>): (r: Result<seq<Point>, Error>)
    ensures r.Failure? <==> |args| != 1 && |args| != 2
    ensures r.Failure? ==> r.error == WrongArgumentCount(|args|)
    ensures r.Success? ==> |r.value| == 4
    ensures r.Success? ==> r.value[0] == (if |args| == 1 then (0.0, 0.0) else args[0])
    ensures r.Success? ==> r.value[2] == args[|args| - 1]
    ensures r.Success? ==>
      r.value[1] == (r.value[0].0, r.value[2].1) && r.value[3] == (r.value[2].0, r.value[0].1)
    ensures r.Success? ==>
      OnSameEdge(r.value[0], r.value[1]) && OnSameEdge(r.value[1], r.value[2]) &&
      OnSameEdge(r.value[2], r.value[3]) && OnSameEdge(r.value[3], r.value[0])
    ensures r.Success? ==> r.value[1] != r.value[3] || r.value[0].0 == r.value[2].0 || r.value[0].1 == r.value[2].1
  {
    if |args| == 1 || |args| == 2 then
      var a := if |args| == 1 then (0.0, 0.0) else args[0];
      var b := args[|args| - 1];
      Success([(a.0, a.1), (a.0, b.1), (b.0, b.1), (b.0, a.1)])
    else
      Failure(WrongArgumentCount(|args|))
  }

  /**
   * The anchors `_fourCorners(src_img.shape[:2])`: the image shape is
   * (height, width), and it is used as the far corner (x, y) as it stands.
   */
  function Anchors(srcShape: (nat, nat)): (corners: seq<Point>)
    ensures |corners| == 4
    ensures Success(corners) == FourCorners([(srcShape.0 as real, srcShape.1 as real)])
  {
    var h, w := srcShape.0 as real, srcShape.1 as real;
    [(0.0, 0.0), (0.0, w), (h, w), (h, 0.0)]
  }

  /**
   * The squared Euclidean distance. It orders pairs of points exactly as the
   * distance `np.linalg.norm` computes does, so the argmin is the same.
   */
  function SquaredDistance(p: Point, q: Point): (d: real)
    ensures d >= 0.0
  {
    var dx, dy := p.0 - q.0, p.1 - q.1;
    SquareNonNegative(dx);
    SquareNonNegative(dy);
    dx * dx + dy * dy
  }

  lemma SquareNonNegative(x: real)
    ensures x * x >= 0.0
  {
    if x < 0.0 {
      assert x * x == (-x) * (-x);
    }
  }

  /**
   * `np.argmin` over the distances from `corner` to each point: the index
   * of a nearest point, the first one on ties.
   */
  function Nearest(corner: Point, points: seq<Point>): (k: nat)
    requires |points| > 0
    ensures k < |points|
    ensures forall i :: 0 <= i < |points| ==> SquaredDistance(corner, points[k]) <= SquaredDistance(corner, points[i])
    ensures forall i :: 0 <= i < k ==> SquaredDistance(corner, points[k]) < SquaredDistance(corner, points[i])
  {
    var dists := seq(|points|, i requires 0 <= i < |points| => SquaredDistance(corner, points[i]));
    assert forall i :: 0 <= i < |points| ==> dists[i] == SquaredDistance(corner, points[i]);
    ArgMin(dists)
  }

  /** `correspondences`: corner i goes to the point at index `c[i]`. */
  function Correspondences(corners: seq<Point>, points: seq<Point>): (c: seq<nat>)
    requires |points| > 0
    ensures |c| == |corners|
    ensures forall i :: 0 <= i < |c| ==> c[i] == Nearest(corners[i], points) && c[i] < |points|
  {
    seq(|corners|, i requires 0 <= i < |corners| => Nearest(corners[i], points))
  }

  /** The values of a sequence, `np.unique` without the order. */
  function ValueSet(c: seq<nat>): set<nat> {
    set i | 0 <= i < |c| :: c[i]
  }

  predicate Distinct(c: seq<nat>) {
    forall i, j :: 0 <= i < j < |c| ==> c[i] != c[j]
  }

  /** A sequence has as many distinct values as elements exactly when its elements are pairwise distinct. */
  lemma {:induction false} UniqueCount(c: seq<nat>)
    ensures |ValueSet(c)| <= |c|
    ensures |ValueSet(c)| == |c| <==> Distinct(c)
  {
    if c != [] {
      var front := c[..|c| - 1];
      var last := c[|c| - 1];
      UniqueCount(front);
      assert ValueSet(c) == ValueSet(front) + {last} by {
        forall x | x in ValueSet(c) ensures x in ValueSet(front) + {last} {
          var i :| 0 <= i < |c| && c[i] == x;
          if i < |c| - 1 {
            assert front[i] == x;
          }
        }
        forall x | x in ValueSet(front) ensures x in ValueSet(c) {
          var i :| 0 <= i < |front| && front[i] == x;
          assert c[i] == x;
        }
      }
      if last in ValueSet(front) {
        var i :| 0 <= i < |front| && front[i] == last;
        assert c[i] == c[|c| - 1];
        assert !Distinct(c);
      } else {
        assert Distinct(c) <==> Distinct(front) by {
          if Distinct(front) {
            forall i, j | 0 <= i < j < |c| ensures c[i] != c[j] {
              if j < |c| - 1 {
                assert front[i] == c[i] && front[j] == c[j];
              } else {
                assert front[i] == c[i];
              }
            }
          }
          if Distinct(c) {
            forall i, j | 0 <= i < j < |front| ensures front[i] != front[j] {
              assert front[i] == c[i] && front[j] == c[j];
            }
          }
        }
      }
    }
  }

  /**
   * When the four corners go to four distinct points among exactly four,
   * every point is some corner's: the correspondence is a bijection.
   */
  lemma CorrespondenceIsBijection(c: seq<nat>)
    requires |c| == 4 && Distinct(c) && forall i :: 0 <= i < 4 ==> c[i] < 4
    ensures forall k :: 0 <= k < 4 ==> k in c
  {
    UniqueCount(c);
    forall k | 0 <= k < 4 ensures k in c {
      if k !in c {
        var others := {0, 1, 2, 3} - {k};
        assert ValueSet(c) <= others;
        SubsetCardinality(ValueSet(c), others);
        assert false;
      }
    }
  }

  lemma {:induction false} SubsetCardinality(a: set<nat>, b: set<nat>)
    requires a <= b
    ensures |a| <= |b|
    decreases |b|
  {
    if a != {} {
      var x :| x in a;
      SubsetCardinality(a - {x}, b - {x});
    }
  }

  /** The result of applying a transform: the warp or the point mapping that was requested. */
  datatype Applied<A> =
    | PointsMapped(matrix: Matrix, points: A)                          // cv2.perspectiveTransform(points, matrix)
    | ImageWarped(matrix: Matrix, shape: (real, real), image: A)       // cv2.warpPerspective(img, matrix, shape)

  /** A transform keeps the matrix and the (width, height) shape it was built with. */
  datatype PerspectiveTransform = PerspectiveTransform(matrix: Matrix, shape: (real, real))
  {
    /**
     * `transform(arg)` for an array whose shape is `argShape`: an (N, 2)
     * array is a point set and is mapped; any other 2-D or 3-D array is an
     * image and is warped to `shape`; more axes raise TypeError. The second
     * axis is read first, so an array with fewer than two axes raises
     * IndexError.
     */
    function Call<A>(arg: A, argShape: seq<nat>): (r: Result<Applied<A>, Error>)
      ensures r == Failure(IndexOutOfRange) <==> |argShape| < 2
      ensures r.Success? && r.value.PointsMapped? <==> |argShape| == 2 && argShape[1] == 2
      ensures r.Success? && r.value.ImageWarped? <==>
        |argShape| == 3 || (|argShape| == 2 && argShape[1] != 2)
      ensures r == Failure(NotImageOrPoints) <==> |argShape| > 3
      ensures r.Success? ==> r.value.matrix == matrix
      ensures r.Success? && r.value.PointsMapped? ==> r.value.points == arg
      ensures r.Success? && r.value.ImageWarped? ==> r.value.shape == shape && r.value.image == arg
    {
      if |argShape| < 2 then Failure(IndexOutOfRange)
      else if argShape[1] == 2 && |argShape| == 2 then Success(PointsMapped(matrix, arg))
      else if |argShape| == 2 || |argShape| == 3 then Success(ImageWarped(matrix, shape, arg))
      else Failure(NotImageOrPoints)
    }
  }

  /**
   * `getPerspectiveTransform(src_img, src_points, output_shape)` for an image
   * of shape `srcShape`: each anchor corner takes its nearest source point;
   * the transform is built only when the four chosen points are distinct,
   * from those points in anchor order to the corners of the output plane,
   * whose (height, width) is swapped to (width, height).
   */
  function GetPerspectiveTransform(srcShape: (nat, nat), srcPoints: seq<Point>, outputShape: (real, real), solve: Solver)
    : (r: Result<PerspectiveTransform, Error>)
    ensures srcPoints == [] ==> r == Failure(EmptyArgMin)
    ensures srcPoints != [] ==>
      var c := Correspondences(Anchors(srcShape), srcPoints);
      (r.Success? <==> Distinct(c)) && (r.Failure? ==> r.error == CornersNotDistinct)
    ensures r.Success? ==>
      var c := Correspondences(Anchors(srcShape), srcPoints);
      var dst := FourCorners([(outputShape.1, outputShape.0)]);
      dst.Success? &&
      r.value == PerspectiveTransform(solve(SourceQuad(srcPoints, c), dst.value), (outputShape.1, outputShape.0))
  {
    var shape := (outputShape.1, outputShape.0);
    if srcPoints == [] then Failure(EmptyArgMin)
    else
      var c := Correspondences(Anchors(srcShape), srcPoints);
      UniqueCount(c);
      if |ValueSet(c)| != 4 then Failure(CornersNotDistinct)
      else
        var dst := FourCorners([shape]);
        Success(PerspectiveTransform(solve(SourceQuad(srcPoints, c), dst.value), shape))
  }

  /** `src`: the matched source points in anchor order. */
  function SourceQuad(points: seq<Point>, c: seq<nat>): (src: seq<Point>)
    requires forall i :: 0 <= i < |c| ==> c[i] < |points|
    ensures |src| == |c| && forall i :: 0 <= i < |c| ==> src[i] == points[c[i]]
  {
    seq(|c|, i requires 0 <= i < |c| => points[c[i]])
  }

  /**
   * Because the anchors are built from (height, width), for a wide image
   * (100 rows, 1000 columns) whose calibration points sit exactly at its
   * four corners (x, y), two anchors pick the same point and the
   * correspondence check fails.
   */
  lemma WideImageCornersCollide(outputShape: (real, real), solve: Solver)
    ensures var points := [(0.0, 0.0), (1000.0, 0.0), (1000.0, 100.0), (0.0, 100.0)];
      Correspondences(Anchors((100, 1000)), points) == [0, 3, 3, 0] &&
      GetPerspectiveTransform((100, 1000), points, outputShape, solve) == Failure(CornersNotDistinct)
  {
    var points := [(0.0, 0.0), (1000.0, 0.0), (1000.0, 100.0), (0.0, 100.0)];
    WideImageCorrespondences(points);
    var c := Correspondences(Anchors((100, 1000)), points);
    assert !Distinct(c) by {
      assert c[1] == c[2];
    }
  }

  /** The nearest of the four corner points to each anchor of the 100 x 1000 image. */
  lemma WideImageCorrespondences(points: seq<Point>)
    requires points == [(0.0, 0.0), (1000.0, 0.0), (1000.0, 100.0), (0.0, 100.0)]
    ensures Correspondences(Anchors((100, 1000)), points) == [0, 3, 3, 0]
  {
    var anchors := Anchors((100, 1000));
    assert anchors == [(0.0, 0.0), (0.0, 1000.0), (100.0, 1000.0), (100.0, 0.0)];
    WideImageNearest(anchors[0], points, 0);
    WideImageNearest(anchors[1], points, 3);
    WideImageNearest(anchors[2], points, 3);
    WideImageNearest(anchors[3], points, 0);
    var c := Correspondences(anchors, points);
    assert c == [0, 3, 3, 0];
  }

  /** The squared distances from one anchor to the four points single out its nearest point. */
  lemma WideImageNearest(corner: Point, points: seq<Point>, j: nat)
    requires points == [(0.0, 0.0), (1000.0, 0.0), (1000.0, 100.0), (0.0, 100.0)]
    requires (corner, j) in {((0.0, 0.0), 0), ((0.0, 1000.0), 3), ((100.0, 1000.0), 3), ((100.0, 0.0), 0)}
    ensures Nearest(corner, points) == j
  {
    if corner == (0.0, 1000.0) {
      assert SquaredDistance(corner, points[0]) == 1000000.0;
      assert SquaredDistance(corner, points[1]) == 2000000.0;
      assert SquaredDistance(corner, points[2]) == 1810000.0;
      assert SquaredDistance(corner, points[3]) == 810000.0;
    } else if corner == (100.0, 1000.0) {
      assert SquaredDistance(corner, points[0]) == 1010000.0;
      assert SquaredDistance(corner, points[1]) == 1810000.0;
      assert SquaredDistance(corner, points[2]) == 1620000.0;
      assert SquaredDistance(corner, points[3]) == 820000.0;
    } else if corner == (100.0, 0.0) {
      assert SquaredDistance(corner, points[0]) == 10000.0;
      assert SquaredDistance(corner, points[1]) == 810000.0;
      assert SquaredDistance(corner, points[2]) == 820000.0;
      assert SquaredDistance(corner, points[3]) == 20000.0;
    }
    NearestIsUniqueMinimum(corner, points, j);
  }

  /** A point strictly closer than every other is the nearest one. */
  lemma NearestIsUniqueMinimum(corner: Point, points: seq<Point>, j: nat)
    requires j < |points|
    requires forall i :: 0 <= i < |points| && i != j ==> SquaredDistance(corner, points[j]) < SquaredDistance(corner, points[i])
    ensures Nearest(corner, points) == j
  {
  }
}
