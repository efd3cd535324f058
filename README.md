# EDMap selection and integration core, in Dafny

EDMap plots ionospheric electron-density soundings: a gridded volume of electron density
indexed by altitude level, latitude and longitude, with one coordinate axis per dimension.
Around its file reading, interpolation and drawing, the script holds a small computational
core, which this project models and verifies:

- **nearest-grid-index selection** (`Nearest`): `min(range(n), key=lambda i: abs(axis[i] - v))`,
  which picks the altitude level for the horizontal-slice plot and the longitude column or
  latitude row for the cross-section plot. It is modelled as Python's left-to-right `min`
  (a later index replaces the running best only when strictly nearer), with the two ways it
  fails: an empty range (ValueError) and a range longer than the axis (IndexError);
- **the slices handed to the renderer** (`Sections`): `elec_dens[ind]` for the horizontal
  slice, `elec_dens[:, :, ind] / 10**6` for a fixed longitude (flag 0),
  `elec_dens[:, ind, :]` for a fixed latitude (flag 1), and nothing for any other flag;
- **the total-electron-content map** (`Column`): a zero-filled `nlat × nlon` array that a
  triple loop fills in place, adding `elec_dens[k, i, j] * 1E6 * 50 * 1E3 / 1E16` for every
  altitude level `k` (a 50 km layer) to cell `(i, j)`;
- **the graticule strides** (`Ticks`): parallels at `lat[0:nlat:int(nlat / 5)]` and meridians
  at `lon[0:nlon:int(nlon / 6)]`;
- **the plot-type dispatch** (`Dispatch`): `ied`, `tec`, `lon`, `lat`, anything else.

The density volume is an `array3<real>` whose lengths are the NumPy shape
`(nalt, nlat, nlon)`; the coordinate axes are `seq<real>`. All values are exact `real`s,
an idealisation of the script's floating-point numbers: the properties proved concern index
choice, shape and summation structure, not rounding. Python exceptions that escape are
modelled as `Err` values of `Results.Result`.

The cross-section search runs over `range(nlon)` (respectively `range(nlat)`), the volume's own
dimension, not over the length of the coordinate axis, so an axis shorter than the volume
raises IndexError and an axis longer than it is searched only up to the volume's size.

## Model

| member | source | states |
|---|---|---|
| `Nearest.Distance` | edmap.py:53 | the `min` key is never negative and is zero exactly when the grid value equals the request |
| `Nearest.NearestIndex` | edmap.py:53 | on a non-empty axis the chosen index is in range, no index is nearer to the request, and every earlier index is strictly farther (ties go to the first minimal index) |
| `Nearest.NearestIndexCharacterized` | edmap.py:53 | an index is first-nearest if and only if it is the one chosen: the selection is uniquely determined |
| `Nearest.NearestInRange` | edmap.py:81-85 | searching `range(n)` over an axis fails with ValueError when n is 0, with IndexError when n exceeds the axis, and otherwise yields the first nearest index among the first n grid values |
| `Nearest.AltitudeTieGoesToFirst` | edmap.py:53 | levels 100, 150, 200, 300 and request 250 select index 2 (level 200), not the equally near level 300 |
| `Sections.AltitudePlane` | edmap.py:54 | `elec_dens[k]` is an nlat × nlon table whose cell (i, j) is the density at (k, i, j) |
| `Sections.LongitudeSection` | edmap.py:82 | `elec_dens[:, :, c] / 10**6` is an nalt × nlat table that, multiplied back by 10**6, is the density in column c |
| `Sections.LatitudeSection` | edmap.py:86 | `elec_dens[:, r, :]` is an nalt × nlon table equal to the unscaled density in row r |
| `Sections.HorizontalSlice` | edmap.py:53-54 | an empty altitude axis fails with ValueError; otherwise the chosen level is the first nearest to the request, the result fails, always with IndexError, exactly when that level lies beyond the volume, and on success carries the chosen altitude value and that level's plane |
| `Sections.CrossSection` | edmap.py:77-87 | flag 0 searches longitude over `range(nlon)` and yields the 10**-6-scaled altitude × latitude section there; flag 1 searches latitude over `range(nlat)` and yields the raw altitude × longitude section; other flags yield None; an empty or too-short axis yields ValueError or IndexError |
| `Sections.SectionsMeetOnVerticalLine` | edmap.py:80-86 | on the vertical line where the fixed-longitude and fixed-latitude sections cross, both show the same grid point as each level's horizontal plane, the fixed-longitude one 10**6 times smaller |
| `Column.LayerContent` | edmap.py:109 | one level of density e adds exactly e · 5 × 10**-6 to its column |
| `Column.ColumnContentIsScaledDensity` | edmap.py:106-109 | a cell's accumulated content is 5 × 10**-6 times the total density of its column |
| `Column.UniformColumn` | edmap.py:106-109 | a column of uniform density x over n levels accumulates x · n · 5 × 10**-6 |
| `Column.ColumnContentMonotone` | edmap.py:106-109 | with non-negative densities the accumulated content is non-negative and never decreases as levels are added |
| `Column.VtecMap` | edmap.py:102-109 | the map is a new nlat × nlon array whose every cell equals its column's content summed over all nalt levels; the loop keeps finished cells at their totals and unvisited cells at 0, each step writes only its own cell, and the density volume is unchanged |
| `Ticks.Decimate` | edmap.py:112-114 | `xs[::step]` holds exactly the elements at offsets 0, step, 2·step, … below its length, and just enough of them to pass its end |
| `Ticks.TickValues` | edmap.py:112-114 | the stride `int(n / parts)` is 0, raising ValueError, exactly when the axis has fewer than `parts` points; otherwise the ticks are exactly the decimation of the axis below index n (clamped to its length) by that stride: every stride-th value, starting at the first |
| `Ticks.TickCount` | edmap.py:112-114 | on an axis of at least n ≥ parts values there are between parts and 2·parts − 1 lines: five to nine parallels, six to eleven meridians |
| `Dispatch.Process` | edmap.py:128-136 | `ied` passes the parameter as the altitude, `tec` ignores it, `lon` and `lat` pass it to the cross-section with flag 0 and 1, and any other type produces no plot |
| `Dispatch.TypeOf` | edmap.py:128-136 | every plot the dispatch can produce is selected by one of the four type strings |
| `Dispatch.ProcessTypeOf` | edmap.py:128-136 | each plot that draws something is produced by dispatching its own type string and parameter |
| `Dispatch.TypeOfProcess` | edmap.py:128-136 | each known type string is recovered from its plot, so is the parameter except for `tec`, whose plot does not depend on it |

## Left out

- Opening the netCDF file and its variable accessors (edmap.py:16-34), and the swallowed IOError that makes each plot return silently when the file cannot be opened (edmap.py:43-46, 66-69, 95-98): file I/O. The model takes the axes and the density volume as parameters.
- The timestamp built with `datetime` from the file's date and time fields (edmap.py:37-39): a call into a foreign library.
- The `interp2d` resampling onto the 0.5° grid built with `np.arange`, and the division of the resampled horizontal slice by 1E6 (edmap.py:54-58, 117-121): floating-point library numerics whose grid endpoints depend on rounding. `Sections.HorizontalSlice` stops at the raw slice that is passed to the interpolator.
- All Basemap and Matplotlib drawing (edmap.py:51-52, 59-62, 83, 87-91, 110-116, 122-125), including the IndexError that building the map's corner box raises on an empty latitude or longitude axis before the altitude search, and the failure of `plt.colorbar()` (edmap.py:88) when a cross-section flag other than 0 or 1 has left nothing plotted (a path the dispatch never takes): rendering.
- The command-line parser and the unused output directory (edmap.py:139-149).
- IEEE-754 rounding of the density values and of the constants 1E6, 50, 1E3 and 1E16, and the float division inside `int(n / 5)`: values are exact reals and the stride is integer division, which agree for every axis length below 2**53.
