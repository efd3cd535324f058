/**
 * The 2-D slices of the electron-density volume that the horizontal-slice plot and the
 * cross-section plot hand to the renderer. The volume is indexed [altitude, latitude,
 * longitude], so its lengths are nalt, nlat and nlon.
 */
module Sections {
  import opened Results
  import opened Nearest

  /** A slice chosen by a nearest-grid-index search: the index, the grid value there, the data. */
  datatype Section = Section(index: nat, coordinate: real, rows: seq<seq<real>>)

  /** s is a rows × cols table. */
  ghost predicate IsTable(s: seq<seq<real>>, rows: nat, cols: nat)
  {
    |s| == rows && forall r :: 0 <= r < |s| ==> |s[r]| == cols
  }

  /** The latitude × longitude plane at altitude level k, `elec_dens[k]`. */
  function AltitudePlane(d: array3<real>, k: nat): (s: seq<seq<real>>)
    reads d
    requires k < d.Length0
    ensures IsTable(s, d.Length1, d.Length2)
    ensures forall i, j :: 0 <= i < d.Length1 && 0 <= j < d.Length2 ==> s[i][j] == d[k, i, j]
  {
    seq(d.Length1, i reads d requires 0 <= i < d.Length1 =>
      seq(d.Length2, j reads d requires 0 <= j < d.Length2 => d[k, i, j]))
  }

  /** The altitude × latitude section at longitude column c, scaled: `elec_dens[:, :, c] / 10**6`. */
  function LongitudeSection(d: array3<real>, c: nat): (s: seq<seq<real>>)
    reads d
    requires c < d.Length2
    ensures IsTable(s, d.Length0, d.Length1)
    ensures forall k, i :: 0 <= k < d.Length0 && 0 <= i < d.Length1 ==> s[k][i] * 1000000.0 == d[k, i, c]
  {
    seq(d.Length0, k reads d requires 0 <= k < d.Length0 =>
      seq(d.Length1, i reads d requires 0 <= i < d.Length1 => d[k, i, c] / 1000000.0))
  }

  /** The altitude × longitude section at latitude row r, unscaled: `elec_dens[:, r, :]`. */
  function LatitudeSection(d: array3<real>, r: nat): (s: seq<seq<real>>)
    reads d
    requires r < d.Length1
    ensures IsTable(s, d.Length0, d.Length2)
    ensures forall k, j :: 0 <= k < d.Length0 && 0 <= j < d.Length2 ==> s[k][j] == d[k, r, j]
  {
    seq(d.Length0, k reads d requires 0 <= k < d.Length0 =>
      seq(d.Length2, j reads d requires 0 <= j < d.Length2 => d[k, r, j]))
  }

  /**
   * The data of the horizontal-slice plot before resampling: the altitude level nearest the
   * request over `range(len(alt))`, then `elec_dens[ind]`, which fails when the altitude axis
   * is longer than the volume's first dimension and the chosen level lies beyond it.
   */
  function HorizontalSlice(d: array3<real>, alt: seq<real>, altitude: real): (r: Result<Section>)
    reads d
    ensures |alt| == 0 ==> r == Err(EmptySequence)
    ensures |alt| > 0 ==> (r.Ok? <==> NearestIndex(alt, altitude) < d.Length0)
    ensures |alt| > 0 && r.Err? ==> r.error == IndexOutOfRange
    ensures r.Ok? ==>
      var s := r.value;
      IsFirstNearest(alt, altitude, s.index) && s.index < d.Length0 && s.coordinate == alt[s.index] &&
      IsTable(s.rows, d.Length1, d.Length2) &&
      forall i, j :: 0 <= i < d.Length1 && 0 <= j < d.Length2 ==> s.rows[i][j] == d[s.index, i, j]
  {
    match NearestInRange(alt, |alt|, altitude)
    case Err(e) => Err(e)
    case Ok(k) =>
      assert alt[..|alt|] == alt;
      if k < d.Length0 then Ok(Section(k, alt[k], AltitudePlane(d, k))) else Err(IndexOutOfRange)
  }

  /**
   * The data of the cross-section plot: flag 0 searches the longitude axis over `range(nlon)`
   * and takes the scaled altitude × latitude section there; flag 1 searches the latitude axis
   * over `range(nlat)` and takes the raw altitude × longitude section; any other flag leaves
   * the section as None.
   */
  function CrossSection(d: array3<real>, lon: seq<real>, lat: seq<real>, value: real, flag: int)
    : (r: Result<Option<Section>>)
    reads d
    ensures flag != 0 && flag != 1 ==> r == Ok(None)
    ensures flag == 0 && d.Length2 == 0 ==> r == Err(EmptySequence)
    ensures flag == 0 && 0 < d.Length2 && |lon| < d.Length2 ==> r == Err(IndexOutOfRange)
    ensures flag == 0 && 0 < d.Length2 <= |lon| ==>
      r.Ok? && r.value.Some? &&
      var s := r.value.value;
      IsFirstNearest(lon[..d.Length2], value, s.index) && s.coordinate == lon[s.index] &&
      IsTable(s.rows, d.Length0, d.Length1) &&
      forall k, i :: 0 <= k < d.Length0 && 0 <= i < d.Length1 ==> s.rows[k][i] * 1000000.0 == d[k, i, s.index]
    ensures flag == 1 && d.Length1 == 0 ==> r == Err(EmptySequence)
    ensures flag == 1 && 0 < d.Length1 && |lat| < d.Length1 ==> r == Err(IndexOutOfRange)
    ensures flag == 1 && 0 < d.Length1 <= |lat| ==>
      r.Ok? && r.value.Some? &&
      var s := r.value.value;
      IsFirstNearest(lat[..d.Length1], value, s.index) && s.coordinate == lat[s.index] &&
      IsTable(s.rows, d.Length0, d.Length2) &&
      forall k, j :: 0 <= k < d.Length0 && 0 <= j < d.Length2 ==> s.rows[k][j] == d[k, s.index, j]
  {
    if flag == 0 then
      match NearestInRange(lon, d.Length2, value)
      case Err(e) => Err(e)
      case Ok(c) => Ok(Some(Section(c, lon[c], LongitudeSection(d, c))))
    else if flag == 1 then
      match NearestInRange(lat, d.Length1, value)
      case Err(e) => Err(e)
      case Ok(row) => Ok(Some(Section(row, lat[row], LatitudeSection(d, row))))
    else
      Ok(None)
  }

  /**
   * Where the fixed-longitude and the fixed-latitude sections cross, at every altitude level
   * both show the same grid point, which is also the point of that level's horizontal plane;
   * only the fixed-longitude section is scaled by 10**-6.
   */
  lemma SectionsMeetOnVerticalLine(d: array3<real>, lon: seq<real>, lat: seq<real>, lonValue: real, latValue: real)
    requires 0 < d.Length2 <= |lon| && 0 < d.Length1 <= |lat|
    ensures
      var r0 := CrossSection(d, lon, lat, lonValue, 0);
      var r1 := CrossSection(d, lon, lat, latValue, 1);
      r0.Ok? && r0.value.Some? && r1.Ok? && r1.value.Some? &&
      var byLon, byLat := r0.value.value, r1.value.value;
      byLon.index < d.Length2 && byLat.index < d.Length1 &&
      forall k :: 0 <= k < d.Length0 ==>
        byLon.rows[k][byLat.index] * 1000000.0 == byLat.rows[k][byLon.index] &&
        byLat.rows[k][byLon.index] == AltitudePlane(d, k)[byLat.index][byLon.index]
  {
  }
}
