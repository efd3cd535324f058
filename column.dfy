/**
 * The total-electron-content map: every latitude × longitude cell holds the electron density
 * of its column summed over all altitude levels, each level a 50 km layer, in TEC units.
 */
module Column {

  /**
   * The contribution of one altitude level of density e to its column,
   * `e * 1E6 * 50 * 1E3 / 1E16`: exactly 5 × 10**-6 per unit of density.
   */
  function LayerContent(e: real): (c: real)
    ensures c == e * 0.000005
  {
    e * 1000000.0 * 50.0 * 1000.0 / 10000000000000000.0
  }

  /** The content of cell (i, j) accumulated over its lowest n altitude levels, in level order. */
  function ColumnContent(d: array3<real>, i: nat, j: nat, n: nat): real
    reads d
    requires i < d.Length1 && j < d.Length2 && n <= d.Length0
  {
    if n == 0 then 0.0 else ColumnContent(d, i, j, n - 1) + LayerContent(d[n - 1, i, j])
  }

  /** The raw density of cell (i, j) summed over its lowest n altitude levels. */
  function ColumnDensity(d: array3<real>, i: nat, j: nat, n: nat): real
    reads d
    requires i < d.Length1 && j < d.Length2 && n <= d.Length0
  {
    if n == 0 then 0.0 else ColumnDensity(d, i, j, n - 1) + d[n - 1, i, j]
  }

  /** The unit conversion factors out of the sum: the content is 5 × 10**-6 times the column's total density. */
  lemma {:induction false} ColumnContentIsScaledDensity(d: array3<real>, i: nat, j: nat, n: nat)
    requires i < d.Length1 && j < d.Length2 && n <= d.Length0
    ensures ColumnContent(d, i, j, n) == ColumnDensity(d, i, j, n) * 0.000005
  {
    if n > 0 {
      ColumnContentIsScaledDensity(d, i, j, n - 1);
    }
  }

  /** A column of uniform density x over n levels has content x · n · 5 × 10**-6. */
  lemma {:induction false} UniformColumn(d: array3<real>, i: nat, j: nat, n: nat, x: real)
    requires i < d.Length1 && j < d.Length2 && n <= d.Length0
    requires forall k :: 0 <= k < n ==> d[k, i, j] == x
    ensures ColumnContent(d, i, j, n) == x * (n as real) * 0.000005
  {
    if n > 0 {
      UniformColumn(d, i, j, n - 1, x);
    }
  }

  /** Non-negative densities give a content that never decreases as levels are added. */
  lemma {:induction false} ColumnContentMonotone(d: array3<real>, i: nat, j: nat, m: nat, n: nat)
    requires i < d.Length1 && j < d.Length2 && m <= n <= d.Length0
    requires forall k :: 0 <= k < n ==> d[k, i, j] >= 0.0
    ensures 0.0 <= ColumnContent(d, i, j, m) <= ColumnContent(d, i, j, n)
  {
    if m < n {
      ColumnContentMonotone(d, i, j, m, n - 1);
    } else if m > 0 {
      ColumnContentMonotone(d, i, j, m - 1, m - 1);
    }
  }

  /**
   * The integration loop of the TEC plot: a zero-filled nlat × nlon map, then for every cell,
   * in row-major order, the contributions of all altitude levels added in place. Each inner
   * step writes only its own cell, and the density volume is only read.
   */
  method VtecMap(d: array3<real>) returns (m: array2<real>)
    ensures fresh(m)
    ensures m.Length0 == d.Length1 && m.Length1 == d.Length2
    ensures forall i, j :: 0 <= i < m.Length0 && 0 <= j < m.Length1 ==>
      m[i, j] == ColumnContent(d, i, j, d.Length0)
    ensures unchanged(d)
  {
    var nalt, nlat, nlon := d.Length0, d.Length1, d.Length2;
    m := new real[nlat, nlon]((_, _) => 0.0);
    for i := 0 to nlat
      invariant forall p, q :: 0 <= p < i && 0 <= q < nlon ==> m[p, q] == ColumnContent(d, p, q, nalt)
      invariant forall p, q :: i <= p < nlat && 0 <= q < nlon ==> m[p, q] == 0.0
    {
      for j := 0 to nlon
        invariant forall p, q :: 0 <= p < i && 0 <= q < nlon ==> m[p, q] == ColumnContent(d, p, q, nalt)
        invariant forall q :: 0 <= q < j ==> m[i, q] == ColumnContent(d, i, q, nalt)
        invariant forall q :: j <= q < nlon ==> m[i, q] == 0.0
        invariant forall p, q :: i < p < nlat && 0 <= q < nlon ==> m[p, q] == 0.0
      {
        for k := 0 to nalt
          invariant m[i, j] == ColumnContent(d, i, j, k)
          invariant forall p, q :: 0 <= p < i && 0 <= q < nlon ==> m[p, q] == ColumnContent(d, p, q, nalt)
          invariant forall q :: 0 <= q < j ==> m[i, q] == ColumnContent(d, i, q, nalt)
          invariant forall q :: j < q < nlon ==> m[i, q] == 0.0
          invariant forall p, q :: i < p < nlat && 0 <= q < nlon ==> m[p, q] == 0.0
        {
          m[i, j] := m[i, j] + LayerContent(d[k, i, j]);
        }
      }
    }
  }
}
