/**
 * The graticule of the TEC map: parallels at `lat[0:nlat:int(nlat / 5)]` and meridians at
 * `lon[0:nlon:int(nlon / 6)]`, i.e. every step-th grid value with the step chosen so that
 * the axis is cut into about five (six) parts.
 */
module Ticks {
  import opened Results

  /** Parts the latitude axis is cut into for parallels. */
  const ParallelParts: nat := 5
  /** Parts the longitude axis is cut into for meridians. */
  const MeridianParts: nat := 6

  /** The index of the k-th element of `xs[::step]`: k steps of `step` from the start. */
  function Offset(k: nat, step: nat): nat
  {
    if k == 0 then 0 else Offset(k - 1, step) + step
  }

  /** k steps of `step` reach index k · step. */
  lemma {:induction false} OffsetIsProduct(k: nat, step: nat)
    ensures Offset(k, step) == k * step
  {
    if k > 0 {
      OffsetIsProduct(k - 1, step);
      assert (k - 1) * step + step == k * step;
    }
  }

  /**
   * Python's `xs[::step]`: the first element, then the same taken from `xs[step:]`. It holds
   * the elements at offsets 0, step, 2·step, … below |xs|, and as many as it takes to pass the end.
   */
  function Decimate(xs: seq<real>, step: nat): (r: seq<real>)
    requires step > 0
    ensures |r| == 0 <==> |xs| == 0
    ensures |xs| > 0 ==> Offset(|r| - 1, step) < |xs| <= Offset(|r|, step)
    ensures forall k {:trigger r[k]} :: 0 <= k < |r| ==> Offset(k, step) < |xs| && r[k] == xs[Offset(k, step)]
    decreases |xs|
  {
    if |xs| == 0 then []
    else if |xs| <= step then
      assert Offset(1, step) == step;
      [xs[0]]
    else
      var rest := Decimate(xs[step..], step);
      var r := [xs[0]] + rest;
      assert Offset(|r| - 1, step) == Offset(|rest| - 1, step) + step;
      assert Offset(|r|, step) == Offset(|rest|, step) + step;
      assert forall k :: 0 <= k < |r| ==> Offset(k, step) < |xs| && r[k] == xs[Offset(k, step)] by {
        forall k | 0 <= k < |r| ensures Offset(k, step) < |xs| && r[k] == xs[Offset(k, step)] {
          if k > 0 {
            assert r[k] == rest[k - 1];
          }
        }
      }
      r
  }

  /** A positive stride n / parts exists exactly when the axis has at least `parts` points. */
  lemma StrideBounds(n: nat, parts: nat)
    requires parts > 0
    ensures (n / parts) * parts <= n < (n / parts) * parts + parts
    ensures n / parts == 0 <==> n < parts
  {
  }

  /**
   * `axis[0:n:int(n / parts)]`: a stride of 0 (fewer than `parts` grid points) makes Python
   * raise ValueError; otherwise every stride-th value of the axis below index n (NumPy clamps
   * the stop n to the axis length).
   */
  function TickValues(axis: seq<real>, n: nat, parts: nat): (r: Result<seq<real>>)
    requires parts > 0
    ensures r.Err? <==> n < parts
    ensures r.Err? ==> r.error == ZeroSliceStep
    ensures r.Ok? ==> forall k :: 0 <= k < |r.value| ==>
      Offset(k, n / parts) < n && Offset(k, n / parts) < |axis| && r.value[k] == axis[Offset(k, n / parts)]
    ensures r.Ok? && 0 < |axis| ==> |r.value| > 0 && r.value[0] == axis[0]
    ensures r.Ok? ==> r.value == Decimate(axis[..if n < |axis| then n else |axis|], n / parts)
  {
    StrideBounds(n, parts);
    var step := n / parts;
    if step == 0 then Err(ZeroSliceStep)
    else
      var m := if n < |axis| then n else |axis|;
      DecimatePrefix(axis, m, step);
      Ok(Decimate(axis[..m], step))
  }

  /** Decimating the first m values of an axis picks axis values at offsets below m. */
  lemma DecimatePrefix(axis: seq<real>, m: nat, step: nat)
    requires step > 0 && m <= |axis|
    ensures forall k {:trigger Decimate(axis[..m], step)[k]} {:trigger Offset(k, step)} ::
      0 <= k < |Decimate(axis[..m], step)| ==>
      Offset(k, step) < m && Decimate(axis[..m], step)[k] == axis[Offset(k, step)]
  {
    var ticks := Decimate(axis[..m], step);
    forall k | 0 <= k < |ticks| ensures Offset(k, step) < m && ticks[k] == axis[Offset(k, step)] {
      var t := ticks[k];
    }
  }

  /** Multiplying by a non-negative factor keeps order: the monotonicity step of StrideCount. */
  lemma MulMono(a: int, b: int, s: int)
    requires a <= b && s >= 0
    ensures a * s <= b * s
  {
  }

  /** c strides of s cover n for the first time, and s = n / parts: then parts <= c < 2·parts. */
  lemma StrideCount(n: nat, parts: nat, s: nat, c: nat)
    requires parts > 0 && s > 0 && c > 0
    requires s * parts <= n < s * parts + parts
    requires (c - 1) * s < n <= c * s
    ensures parts <= c <= 2 * parts - 1
  {
    if c < parts {
      MulMono(c + 1, parts, s);
    }
    if c > 2 * parts - 1 {
      MulMono(2 * parts - 1, c - 1, s);
      MulMono(1, s, parts - 1);
    }
  }

  /**
   * On an axis with at least n grid values and n >= parts, the graticule has at least `parts`
   * and at most 2·parts − 1 lines: five to nine parallels, six to eleven meridians.
   */
  lemma TickCount(axis: seq<real>, n: nat, parts: nat)
    requires 0 < parts <= n <= |axis|
    ensures TickValues(axis, n, parts).Ok?
    ensures parts <= |TickValues(axis, n, parts).value| <= 2 * parts - 1
  {
    StrideBounds(n, parts);
    var s := n / parts;
    var ticks := Decimate(axis[..n], s);
    assert TickValues(axis, n, parts) == Ok(ticks);
    var c := |ticks|;
    OffsetIsProduct(c - 1, s);
    OffsetIsProduct(c, s);
    StrideCount(n, parts, s, c);
  }
}
