# dnppy point-set envelope and raster-name filtering, modelled in Dafny

This project models two small parts of dnppy, a Python toolkit for geospatial
data:

- **`nongrid_data.__init__`** (`dnppy_install/convert/nongrid_data_class.py`).
  It takes latitude, longitude and data arrays of any shape and flattens them
  in row-major order, as `numpy.reshape(a, -1)` does. It raises when the
  flattened lengths differ. It then stores the bounding box, a "centre"
  longitude and latitude, an integer UTM-style zone, an `"N"`/`"S"`
  hemisphere, and the projected corners returned by `LLtoUTM`.
- **`is_rast` and `enf_rastlist`** (`dnppy_install/raster/raster_enforcement.py`).
  `is_rast` accepts an existing file whose last three characters appear in a
  fixed table of 22 raster endings. `enf_rastlist` keeps, in order, the names
  of a list that pass `is_rast`.

Modules:

- `Wrappers`: a `Result` type for the construction that can raise.
- `NdArrays`: array-like inputs of any rank (`NdArray`) and `Flatten`. Lemmas
  show that inputs of one shape flatten to equal lengths, and that arrays of
  any rank flatten in row-major order (`FlattenBlock`).
- `PointEnvelope`: the pure values derived at construction.
  - `SeqMin`/`SeqMax` play the role of Python `min`/`max`.
  - `MidAsWritten` is `max - min / 2`.
  - `PyInt` is Python `int()` on a float, which truncates toward zero.
  - `UtmZoneOf` and `HemisphereOf` derive the zone and hemisphere.
  - `EnvelopeOf` gathers all of these into one value.
- `NongridDataClass`: the class `NongridData`.
  - Its fields are those of the Python object, except `est_resolution`.
  - Its constructor assigns them in the source's order.
  - The static method `Create` models the whole call
    `nongrid_data(lat, lon, data)`, including the two ways it raises.
- `RasterEnforcement`: the table `RastTypes`, the slice `Ext` (Python's
  `filename[-3:]`), the predicate `IsRaster`, and the filter specification
  `RastFilter`. `IsRast` and `EnfRastlist` are methods with the source's
  loops, and each is proved equal to that specification. `RastFilter` is the
  order-preserving `Filter` instantiated with `IsRaster`. The properties of
  the filter are proved once for any predicate and then stated for rasters.

Interfaces that are parameters:

- The filesystem query `os.path.isfile` is a parameter `isFile: string -> bool`.
  It gives one fixed answer per path, so the filesystem is treated as a
  snapshot.
- The projection `LLtoUTM` comes from a module that is not part of this model.
  It is a parameter `llToUtm` of type `UtmProjection`.
- Floating-point numbers are modelled as exact `real`s, and `/` as true division.

### Where the code departs from the conventional formulas

The model follows the code as written, and states how it differs from the
arithmetic midpoint and from conventional 6-degree UTM zone numbering:

- **Centre.** The centre is `max - min / 2` (`nongrid_data_class.py:56-57`),
  not `(min + max) / 2`.
  - `MidAsWrittenVersusBox` shows that this value lies inside `[min, max]`
    exactly when `min >= 0` and `3 * min <= 2 * max`.
  - `MidAsWrittenLeavesBox` gives a concrete case: one sample at latitude 10
    gets centre latitude 5.
  - `TrueMid` is the arithmetic midpoint. It is only a reference for
    comparison.
- **Zone.** The zone is `int((mid_lon - 3 + 180) / 6 + 1)`
  (`nongrid_data_class.py:59`). This truncates toward zero and uses a -3
  offset. Conventional numbering is `floor((lon + 180) / 6) + 1`
  (`StandardZone`).
  - `UtmZoneOf` states that the code gives the conventional zone of
    `mid_lon - 3` whenever `mid_lon >= -183`. Below that it gives the ceiling
    of `(mid_lon + 183) / 6`, which is <= 0; floor would be one less whenever that quotient is not an integer.
  - `ZoneExamples` gives concrete values: centre 0 gives zone 30, where the
    conventional zone is 31.
  - `ZoneRangeForValidLongitudes` shows that, because of the centre formula,
    longitudes within [-180, 180] always produce a zone between 15 and 75.
- **Sorting and radians.** The class comment says the samples are kept a
  second time sorted by latitude and then by longitude, and that angles are
  stored in radians. The constructor does neither: it stores the flattened
  samples unsorted and in degrees, and so does the model (`Create` stores
  `Flatten` of each input unchanged).
- **Degenerate input.** The code has no separate check for a zero-extent
  box. It fails only for mismatched lengths, and for empty input because `min`
  of an empty sequence raises. The model has exactly these two errors,
  `ShapeMismatch` and `EmptyInput`, and checks them in the code's order.
- **`enf_rastlist` as written cannot run.** It calls `core.enf_filelist` and
  `os.path.isfile` (`raster_enforcement.py:31,37`). Neither `core` nor `os` is
  imported at module scope; `os` is only imported inside `is_rast`. The model
  takes the evident intent: `enf_filelist` is the identity on a list, and
  `isfile` is the same oracle that `is_rast` uses.

## Model

| member | source | states |
|---|---|---|
| `NdArrays.Flatten` | dnppy_install/convert/nongrid_data_class.py:42-44 | A scalar flattens to itself alone, an empty array to nothing, and a non-empty array's flattening starts with the flattening of its first item. The whole contents and their order are stated by `FlattenAllConcat` and `FlattenBlock`. |
| `NdArrays.FlattenBlock` | dnppy_install/convert/nongrid_data_class.py:42-44 | Row-major order at any rank: when every sub-array flattens to `m` scalars, scalar `j` of sub-array `i` is at position `i * m + j` of the flattened array. |
| `NdArrays.FlattenAllConcat` | dnppy_install/convert/nongrid_data_class.py:42-44 | Flattening an array's sub-arrays is concatenating their flattened blocks in order. |
| `NdArrays.SameShapeSameLength` | dnppy_install/convert/nongrid_data_class.py:42-46 | Inputs of identical shape flatten to sequences of the same length. |
| `NdArrays.FlattenVector` | dnppy_install/convert/nongrid_data_class.py:42-44 | Flattening a one-dimensional array returns its elements unchanged and in order. |
| `NdArrays.FlattenMatrixRowMajor` | dnppy_install/convert/nongrid_data_class.py:42-44 | A `rows x cols` matrix flattens to length `rows * cols`, with element (r, c) at position `r * cols + c` (row-major). Equal-shaped lat/lon/data are therefore aligned sample by sample. |
| `PointEnvelope.SeqMin` | dnppy_install/convert/nongrid_data_class.py:50 | `min` of a non-empty sequence is one of its elements and is <= every element. |
| `PointEnvelope.SeqMax` | dnppy_install/convert/nongrid_data_class.py:51 | `max` of a non-empty sequence is one of its elements and is >= every element. |
| `PointEnvelope.PyInt` | dnppy_install/convert/nongrid_data_class.py:59 | Python `int()` truncates toward zero. For x >= 0 the result n satisfies 0 <= n <= x < n + 1. For x < 0 it satisfies n - 1 < x <= n <= 0. |
| `PointEnvelope.HemisphereOf` | dnppy_install/convert/nongrid_data_class.py:60-63 | The hemisphere is "S" or "N", and it is "S" exactly when the centre latitude is negative. |
| `PointEnvelope.EnvelopeOf` | dnppy_install/convert/nongrid_data_class.py:50-63 | The four bounds are elements of their sequences and enclose every sample. The centres are `MidAsWritten` of the bounds, and the zone is `UtmZoneOf` the centre longitude. The hemisphere is one of two codes and is "S" iff the centre latitude is negative. |
| `PointEnvelope.SeqMinMultiset` | dnppy_install/convert/nongrid_data_class.py:50 | Sequences with the same multiset have the same minimum. |
| `PointEnvelope.SeqMaxMultiset` | dnppy_install/convert/nongrid_data_class.py:51 | Sequences with the same multiset have the same maximum. |
| `PointEnvelope.EnvelopePermutationInvariant` | dnppy_install/convert/nongrid_data_class.py:50-63 | Permuting the latitudes or the longitudes leaves the bounds, centre, zone and hemisphere unchanged. The data values never enter into them. |
| `PointEnvelope.MidAsWritten` | dnppy_install/convert/nongrid_data_class.py:56-57 | `max - min/2` is never above `max` exactly when `min >= 0`. It equals the arithmetic midpoint iff `max == 2*min`, and for `min <= max` it is >= `max/2`. |
| `PointEnvelope.MidAsWrittenVersusBox` | dnppy_install/convert/nongrid_data_class.py:56-57 | `max - min/2` lies in [min, max] iff min >= 0 and 3*min <= 2*max. |
| `PointEnvelope.MidAsWrittenLeavesBox` | dnppy_install/convert/nongrid_data_class.py:57 | A single sample at latitude 10 gets centre latitude 5, outside its own box. |
| `PointEnvelope.PyIntIsNotFloor` | dnppy_install/convert/nongrid_data_class.py:59 | On a negative non-integer, `int()` is one more than floor. |
| `PointEnvelope.UtmZoneOf` | dnppy_install/convert/nongrid_data_class.py:59 | For centre longitudes >= -183, the zone equals conventional zone numbering applied to the longitude minus 3. Below -183 it is <= 0 and is the ceiling of `(mid_lon + 183) / 6`, since `int()` truncates the negative argument toward zero. |
| `PointEnvelope.ZoneExamples` | dnppy_install/convert/nongrid_data_class.py:59 | Centre 0 gives zone 30 (conventional: 31), centre 3 gives 31, and centre -180 gives 0. |
| `PointEnvelope.ZoneRangeForValidLongitudes` | dnppy_install/convert/nongrid_data_class.py:52-59 | If every longitude is in [-180, 180], the centre longitude is in [-90, 270] and the zone is between 15 and 75. |
| `NongridDataClass.NongridData.constructor` | dnppy_install/convert/nongrid_data_class.py:42-69 | Stores the flattened samples unchanged. The derived fields equal `EnvelopeOf(lat, lon)` (object invariant `Valid`). The projected corners are `LLtoUTM` of (min_lat, min_lon) and (max_lat, max_lon) in the computed zone and hemisphere. |
| `NongridDataClass.NongridData.Create` | dnppy_install/convert/nongrid_data_class.py:42-53 | Fails iff the flattened lengths differ (`ShapeMismatch` carrying the three lengths) or are all zero (`EmptyInput`, since `min` of nothing raises). Otherwise it returns a fresh valid object whose lat, lon and data are the flattened inputs. |
| `NongridDataClass.SameShapeNeverMismatch` | dnppy_install/convert/nongrid_data_class.py:32-47 | Three inputs of identical shape always pass the length check. |
| `NongridDataClass.SummaryPermutationInvariant` | dnppy_install/convert/nongrid_data_class.py:50-63 | Two valid objects whose coordinates are permutations of each other carry identical derived fields, whatever their data. |
| `RasterEnforcement.RastTypesShape` | dnppy_install/raster/raster_enforcement.py:12-13 | The table `RastTypes` has 22 entries, each three characters long, and no entry repeats. |
| `RasterEnforcement.Ext` | dnppy_install/raster/raster_enforcement.py:14 | `filename[-3:]` is a suffix of the name, of length 3, or the whole name when the name is shorter. |
| `RasterEnforcement.IsRaster` | dnppy_install/raster/raster_enforcement.py:12-19 | A name is a raster only if the file exists and the name has at least three characters. |
| `RasterEnforcement.IsRast` | dnppy_install/raster/raster_enforcement.py:7-21 | The table-scanning loop returns true iff the file exists and its last three characters equal some table entry. A missing file always gives false. |
| `RasterEnforcement.Filter` | dnppy_install/raster/raster_enforcement.py:32-41 | Keeping the elements that satisfy a predicate gives a list no longer than the input, every element of which satisfies the predicate. |
| `RasterEnforcement.RastFilter` | dnppy_install/raster/raster_enforcement.py:32-41 | The filtered list is no longer than the input, and every element of it is a raster name. |
| `RasterEnforcement.EnfRastlist` | dnppy_install/raster/raster_enforcement.py:24-41 | The append loop returns exactly `RastFilter` of the input. So the extra `isfile` test before `is_rast` changes nothing. |
| `RasterEnforcement.RastFilterAppend` | dnppy_install/raster/raster_enforcement.py:34-39 | Filtering distributes over concatenation. This is the step the loop adds per element. |
| `RasterEnforcement.FilterAppend` | dnppy_install/raster/raster_enforcement.py:34-39 | For any predicate, filtering distributes over concatenation. |
| `RasterEnforcement.FilterCounts` | dnppy_install/raster/raster_enforcement.py:34-41 | For any predicate, a kept element keeps its multiplicity and any other element has none. |
| `RasterEnforcement.RastFilterCounts` | dnppy_install/raster/raster_enforcement.py:34-41 | Each raster name occurs in the output as often as in the input, and every other name occurs zero times. Duplicates are kept. |
| `RasterEnforcement.RastFilterMembership` | dnppy_install/raster/raster_enforcement.py:34-41 | A name is in the output iff it is in the input and is a raster name. |
| `RasterEnforcement.KeptPositionsEmbed` | dnppy_install/raster/raster_enforcement.py:34-41 | For any predicate, the filtered output is the input read at a strictly increasing list of positions. |
| `RasterEnforcement.RastFilterIsSubsequence` | dnppy_install/raster/raster_enforcement.py:32-41 | The output is a subsequence of the input, so the original order is kept. |
| `RasterEnforcement.FilterIdempotent` | dnppy_install/raster/raster_enforcement.py:32-41 | For any predicate, filtering an already filtered list returns it unchanged. |
| `RasterEnforcement.RastFilterIdempotent` | dnppy_install/raster/raster_enforcement.py:32-41 | Filtering an already filtered list returns it unchanged. |
| `RasterEnforcement.MissingFileNeverRaster` | dnppy_install/raster/raster_enforcement.py:16-21 | A name for which `isfile` is false is never a raster, whatever its ending. |
| `RasterEnforcement.ShortNameNeverRaster` | dnppy_install/raster/raster_enforcement.py:12-14 | A name shorter than three characters is never a raster, because every table entry has three characters. |
| `RasterEnforcement.OnlySuffixMatters` | dnppy_install/raster/raster_enforcement.py:14-18 | For any prefix, with or without a dot, the result depends only on existence and the three-character ending. |
| `RasterEnforcement.FourLetterTailsUnlisted` | dnppy_install/raster/raster_enforcement.py:12-13 | "iff", "IFF", "peg" and "PEG" are not in the table. |
| `RasterEnforcement.FourLetterSpellingsRejected` | dnppy_install/raster/raster_enforcement.py:12-18 | Names ending in ".tiff", ".TIFF", ".jpeg" or ".JPEG" are rejected, because only their last three characters are compared. |
| `RasterEnforcement.RastTypesCaseForms` | dnppy_install/raster/raster_enforcement.py:12-13 | The table is 11 entries without upper-case letters, followed by their upper-case forms in the same order. No entry mixes cases. |
| `RasterEnforcement.MixedCaseRejected` | dnppy_install/raster/raster_enforcement.py:12-18 | A name whose three-character ending mixes upper and lower case is never a raster. |
| `RasterEnforcement.TifRejected` | dnppy_install/raster/raster_enforcement.py:12-18 | A name ending in ".Tif" is rejected even when the file exists. |

## Left out

- Aliasing: `numpy.reshape` returns a view of a contiguous ndarray input
  (`nongrid_data_class.py:42-44`). In the source, later changes to the
  caller's arrays show up in `lat`, `lon` and `data` but not in the derived
  fields. The model stores copies, and `Valid()` describes the object as
  constructed.
- `distance` (`nongrid_data_class.py:84-108`): haversine trigonometry on
  floats. This has no exact counterpart over `real`.
- `est_resolution` (`nongrid_data_class.py:72-75`): it is built on `distance`
  and a float square root.
- `LLtoUTM` (`nongrid_data_class.py:66-69`): its module is not part of this
  model. The projected corners are the values of an opaque parameter.
- The two `print` calls (`nongrid_data_class.py:78-79`): console output.
- `sample_by_grid` (`nongrid_data_class.py:112-124`) and the stray
  `numpy.mgrid()` (line 131): no behaviour to model. The grid is never built
  and nothing is returned.
- Floating point: values are exact reals. NaN, infinities and rounding in
  `max - min / 2` and in the zone division are not modelled.
- Integer inputs: the inputs are taken to be floating point, so every `/` at
  `nongrid_data_class.py:56-59` is true division. Under Python 2 an integer
  array makes these floor divisions: `lat = [-1]` then gives `mid_lat` 0 and
  hemisphere "N", where the model gives -0.5 and "S".
- `NdArrays.Flatten`: ragged inputs are flattened by concatenation. The model
  does not reproduce numpy's object-array behaviour or the errors numpy gives
  for ragged inputs.
- `core.enf_filelist` (`raster_enforcement.py:31`): treated as the identity on
  a list of names. Its own checks are not part of this model.
- `os.path.isfile`: a pure oracle. Files that appear or vanish between the
  two `isfile` calls of `enf_rastlist` are not modelled.
- The unused `ext` variable in `enf_rastlist` (`raster_enforcement.py:35`) has
  no effect and is not modelled.
