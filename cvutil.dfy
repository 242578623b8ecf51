/**
 * The second corner-box helper, `cvutil.fourCorners`, which lists the same
 * four corners as `transform._fourCorners` but in a different order.
 */
module CvUtil {
  import opened Wrappers
  import opened Python
  import Transform

  /**
   * `fourCorners(*args)`: with one argument b the box from (0, 0) to b, with
   * two arguments a, b the box from a to b, listed a, (a.x, b.y), (b.x, a.y),
   * b: the given corners come first and last. Any other number of arguments
   * raises.
   */
  function FourCorners(args: seq<Transform.Point>): (r: Result<seq<Transform.Point>, Error>)
    ensures r.Failure? <==> |args| != 1 && |args| != 2
    ensures r.Failure? ==> r.error == WrongArgumentCount(|args|)
    ensures r.Success? ==> |r.value| == 4
    ensures r.Success? ==> r.value[0] == (if |args| == 1 then (0.0, 0.0) else args[0])
    ensures r.Success? ==> r.value[3] == args[|args| - 1]
    ensures r.Success? ==>
      r.value[1] == (r.value[0].0, r.value[3].1) && r.value[2] == (r.value[3].0, r.value[0].1)
    ensures r.Success? ==>
      Transform.OnSameEdge(r.value[0], r.value[1]) && Transform.OnSameEdge(r.value[0], r.value[2]) &&
      Transform.OnSameEdge(r.value[1], r.value[3]) && Transform.OnSameEdge(r.value[2], r.value[3])
  {
    if |args| == 1 || |args| == 2 then
      var a := if |args| == 1 then (0.0, 0.0) else args[0];
      var b := args[|args| - 1];
      Success([(a.0, a.1), (a.0, b.1), (b.0, a.1), (b.0, b.1)])
    else
      Failure(WrongArgumentCount(|args|))
  }

  /**
   * Both helpers accept the same arguments and return the same corners; only
   * the last two are swapped.
   */
  lemma LastTwoSwapped(args: seq<Transform.Point>)
    ensures FourCorners(args).Success? <==> Transform.FourCorners(args).Success?
    ensures FourCorners(args).Failure? ==> FourCorners(args) == Transform.FourCorners(args)
    ensures FourCorners(args).Success? ==>
      var mine, theirs := FourCorners(args).value, Transform.FourCorners(args).value;
      mine[0] == theirs[0] && mine[1] == theirs[1] && mine[2] == theirs[3] && mine[3] == theirs[2]
  {
  }

  /**
   * So unlike the transform helper's list, this one does not walk around the
   * box: its second and third corners are diagonally opposite.
   */
  lemma MiddleCornersOpposite(a: Transform.Point, b: Transform.Point)
    requires a.0 != b.0 && a.1 != b.1
    ensures var r := FourCorners([a, b]).value;
      !Transform.OnSameEdge(r[1], r[2]) && r[1].0 != r[2].0 && r[1].1 != r[2].1
    ensures var t := Transform.FourCorners([a, b]).value;
      Transform.OnSameEdge(t[1], t[2])
  {
  }
}
