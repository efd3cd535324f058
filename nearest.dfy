/**
 * Nearest-grid-index selection: `min(range(n), key=lambda i: abs(axis[i] - v))`,
 * the rule that picks the altitude level, the longitude column and the latitude row.
 */
module Nearest {
  import opened Results

  /** The key of the `min` call: the absolute difference between a grid value and the request. */
  function Distance(x: real, v: real): (r: real)
    ensures r >= 0.0
    ensures r == 0.0 <==> x == v
  {
    if x >= v then x - v else v - x
  }

  /**
   * Index i is the one `min` returns: no index of a is nearer to v, and every earlier index
   * is strictly farther (on a tie the first minimal index wins).
   */
  ghost predicate IsFirstNearest(a: seq<real>, v: real, i: int)
  {
    0 <= i < |a| &&
    (forall j :: 0 <= j < |a| ==> Distance(a[i], v) <= Distance(a[j], v)) &&
    (forall j :: 0 <= j < i ==> Distance(a[i], v) < Distance(a[j], v))
  }

  /**
   * `min` scans the indices left to right and replaces the running best only by an index
   * whose key is strictly smaller: the best of a is the best of all but its last element,
   * unless the last element is strictly nearer.
   */
  function NearestIndex(a: seq<real>, v: real): (i: nat)
    requires |a| > 0
    ensures i < |a|
    ensures forall j :: 0 <= j < |a| ==> Distance(a[i], v) <= Distance(a[j], v)
    ensures forall j :: 0 <= j < i ==> Distance(a[i], v) < Distance(a[j], v)
    decreases |a|
  {
    if |a| == 1 then 0
    else
      var best := NearestIndex(a[..|a| - 1], v);
      if Distance(a[|a| - 1], v) < Distance(a[best], v) then |a| - 1 else best
  }

  /** The first-nearest index exists and is unique: it is exactly what NearestIndex returns. */
  lemma NearestIndexCharacterized(a: seq<real>, v: real, i: int)
    requires |a| > 0
    ensures IsFirstNearest(a, v, i) <==> i == NearestIndex(a, v)
  {
  }

  /**
   * The whole search `min(range(n), key=lambda i: abs(axis[i] - v))`: an empty range raises
   * ValueError, a range reaching past the end of the axis raises IndexError when the key reads
   * axis[|axis|], and otherwise the first nearest of the first n grid values is chosen.
   */
  function NearestInRange(axis: seq<real>, n: nat, v: real): (r: Result<nat>)
    ensures n == 0 ==> r == Err(EmptySequence)
    ensures 0 < n && |axis| < n ==> r == Err(IndexOutOfRange)
    ensures r.Ok? <==> 0 < n <= |axis|
    ensures r.Ok? ==> r.value < n && IsFirstNearest(axis[..n], v, r.value)
  {
    if n == 0 then Err(EmptySequence)
    else if |axis| < n then Err(IndexOutOfRange)
    else Ok(NearestIndex(axis[..n], v))
  }

  /**
   * The altitude request 250 against levels 100, 150, 200, 300: levels 200 and 300 are both
   * 50 away, and the lower index, level 200, is chosen.
   */
  lemma AltitudeTieGoesToFirst()
    ensures NearestIndex([100.0, 150.0, 200.0, 300.0], 250.0) == 2
  {
  }
}
