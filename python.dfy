/**
 * The few pieces of Python and numpy semantics the detector relies on:
 * the exceptions it can raise, `int()` on a float, and sequence indexing
 * and slicing with negative and out-of-range bounds.
 */
module Python {
  import opened Wrappers

  /** The exceptions the modelled code raises, one constructor per raise site. */
  datatype Error =
    | UnknownParameter(name: string)   // AttributeError naming a parameter a detector does not have
    | NoneHasNoLength                  // TypeError from len(None) when calibration found no candidate
    | WrongArgumentCount(given: nat)   // TypeError when a corner box is given neither 1 nor 2 arguments
    | NotImageOrPoints                 // TypeError when a transform is applied to an array of 4 or more axes
    | IndexOutOfRange                  // IndexError from an index past the end of a sequence or shape
    | CornersNotDistinct               // AssertionError: the corner correspondence is not a bijection
    | EmptyArgMin                      // ValueError from np.argmin over no source points
    | NothingToStack                   // ValueError from np.stack([]) with no sensor detector configured
    | ShapesDiffer                     // ValueError from np.stack over score grids of different shapes

  /** `n` is `x` with its fractional part dropped: `x` rounded toward zero. */
  predicate TruncOf(n: int, x: real) {
    (0.0 <= x ==> 0 <= n && n as real <= x < n as real + 1.0) &&
    (x < 0.0 ==> n <= 0 && n as real - 1.0 < x <= n as real)
  }

  /** Every real has an integer that is it rounded toward zero. */
  lemma TruncExists(x: real)
    ensures exists n :: TruncOf(n, x)
  {
    var n := if x >= 0.0 then x.Floor else -((-x).Floor);
    assert TruncOf(n, x);
  }

  /** Python's `int(x)` for a float: truncation toward zero. */
  function Trunc(x: real): (n: int)
    ensures TruncOf(n, x)
  {
    TruncExists(x);
    var n :| TruncOf(n, x); n
  }

  /** `int()` never decreases when its argument grows. */
  lemma TruncMonotonic(x: real, y: real)
    requires x <= y
    ensures Trunc(x) <= Trunc(y)
  {
  }

  /** A slice bound as Python normalises it for a sequence of length n. */
  function SliceBound(i: int, n: nat): (b: nat)
    ensures b <= n
    ensures 0 <= i <= n ==> b == i
    ensures n < i ==> b == n
    ensures i < 0 && 0 <= n + i ==> b == n + i
    ensures n + i < 0 ==> b == 0
  {
    if i < 0 then (if i + n < 0 then 0 else i + n) else if i > n then n else i
  }

  /** `s[start:stop]`: never fails; bounds are normalised and an inverted range is empty. */
  function Slice<T>(s: seq<T>, start: int, stop: int): (r: seq<T>)
    ensures 0 <= start <= stop <= |s| ==> r == s[start..stop]
    ensures 0 <= start <= |s| <= stop ==> r == s[start..]
    ensures |r| <= |s|
    ensures var a, b := SliceBound(start, |s|), SliceBound(stop, |s|);
      |r| == if a < b then b - a else 0
    ensures forall k :: 0 <= k < |r| ==> SliceBound(start, |s|) + k < |s| && r[k] == s[SliceBound(start, |s|) + k]
  {
    var a, b := SliceBound(start, |s|), SliceBound(stop, |s|);
    if a < b then s[a..b] else []
  }

  /** `s[key]`: negative keys count from the end; anything else outside raises IndexError. */
  function Index<T>(s: seq<T>, key: int): (r: Result<T, Error>)
    ensures r.Success? <==> -|s| <= key < |s|
    ensures 0 <= key < |s| ==> r == Success(s[key])
    ensures -|s| <= key < 0 ==> r == Success(s[|s| + key])
    ensures r.Failure? ==> r.error == IndexOutOfRange
  {
    if 0 <= key < |s| then Success(s[key])
    else if -|s| <= key < 0 then Success(s[|s| + key])
    else Failure(IndexOutOfRange)
  }
}
