# czml3-ext packet builders, modelled in Dafny

czml3-ext builds CZML packets for Cesium scenes. Its core is in `packets.py` and `helpers.py`. This project models that core:

- **Sensors.** `sensor_polyline` draws a sensor's field of view as a wireframe: four edge lines from the origin, two elevation arcs and two azimuth arcs at each non-zero range. `sensor_polygon` draws it as closed faces: four caps at the azimuth and elevation limits, then strips that tile the far and near surfaces row by row.
- **Grid.** `grid` turns centre points into rectangular cells, sized by the smallest positive latitude and longitude differences between the centres.
- **Border.** `border` draws named or given borders as polylines, keeping every `step`-th point.
- **Input validation and broadcasting.** All of these functions share it: the point array's shape and dtype checks; angle and range arguments given as scalars, sequences or arrays; one per sensor or an error.
- **Keyword distribution.** Every extra keyword argument goes to every entity. A geometry template (`Polyline` or `Polygon`) becomes the geometry's fields, minus the fields the function computes itself. A sequence with one item per entity is split, one item per entity.
- **Helpers.** Name resolution for `get_border` and `get_billboard`: lower-case a `str`, append the file suffix, look the name up in the registry. Also the border reshape to (lat, long, 0), `png2base64` and `perform_operation`.

The geodetic chain (AER→ENU→ECEF→geodetic) is a function parameter `geo`. The model proves what the packet builders do with its results: which packets come out, in which order, with which angles and decorations. Numbers are `real`. Python's float `%` with a positive modulus is `Angles.Wrap`. The moduli are the ones each loop uses, and they are not uniform:
- wireframe elevation arcs wrap both angles by 2π;
- wireframe azimuth arcs wrap the elevation by π;
- polygon caps wrap by π;
- polygon strips wrap the elevation by π and the azimuth by 2π.

Every loop of the source is a `method` with a `while` loop. Each method is proved equal to a specification function (`...Spec`, `Faces`, `Wireframe`, `RangeStrips`, `BorderSpec`, `Cells`). The lemmas then state the properties of those functions. The fill of the reshaped border array is an `array` loop.

Modules: `Wrappers` (Result, Option), `Errors`, `Czml` (points, packets), `Angles`, `Text`, `Base64`, `Decorations`, `SensorInputs`, `SensorPolyline`, `SensorPolygon`, `Grid`, `Slicing` (Python's extended slice `[::k]`), `Border`, `Helpers`.

## Model

| member | source | states |
|---|---|---|
| Angles.Wrap | src/czml3_ext/packets.py:435-442 | Python's float `x % p` for p > 0: a result in [0, p) that differs from x by a whole number of periods |
| Angles.WrapOfRepresentative | src/czml3_ext/packets.py:478 | a value already in [0, p) is unchanged by `% p` |
| Angles.WrapIdempotent | src/czml3_ext/packets.py:478-485 | wrapping twice is wrapping once |
| Angles.AscendingEnds | src/czml3_ext/packets.py:437-442 | the upward sweep `base - fov/2 + fov*k/(n-1)` starts at the lower field-of-view limit and ends at the upper one |
| Angles.DescendingIsReversed | src/czml3_ext/packets.py:746-762 | the downward sweep visits the upward samples in reverse order |
| Angles.AscendingMonotone | src/czml3_ext/packets.py:437-442 | with a non-negative field of view, the upward samples never decrease |
| SensorInputs.ProductOfPoints | src/czml3_ext/packets.py:142-147 | an (n, 3, 1) array holds 3n values |
| SensorInputs.ValidatePoints | src/czml3_ext/packets.py:142-157 | rank 2 other than (3, 1), or rank 3 with a trailing shape other than (3, 1), is a ShapeError; any other rank is a NumDimensionsError; an empty list or a (0, 3, 1) array is an IndexError; a non-float array is a DataTypeError; a Python list whose length is not a multiple of 3 fails the reshape; a list is float exactly when one of its numbers is; the points come out in row order as (lat, long, alt) |
| SensorInputs.ToArray | src/czml3_ext/packets.py:158-191 | a scalar becomes a one-element array; a sequence or array is kept; anything else is a TypeError naming the parameter |
| SensorInputs.MinRanges | src/czml3_ext/packets.py:192-199 | a missing minimum range becomes zeros, as many as there are maximum ranges; otherwise it is converted like the other parameters |
| SensorInputs.ArcCounts | src/czml3_ext/packets.py:200-201 | an int `n_arc_points` is replicated once per sensor; a sequence is kept |
| SensorInputs.ValidateOutcome | src/czml3_ext/packets.py:142-212 | validation succeeds exactly when the points are valid, every parameter is supported and every length equals the number of points; a length mismatch is a MismatchedInputsError; a point error is reported as-is |
| SensorInputs.ValidateBroadcasts | src/czml3_ext/packets.py:158-212 | on success every parameter has one value per point, and sensor i carries point i and element i of every angle (in radians), range and arc count, a scalar standing for its only element; a missing minimum range is 0 |
| Decorations.Distribute | src/czml3_ext/packets.py:215-234 | the loop over keywords gives every one of the n entities the decoration that the keywords, taken in order, leave it, under either splitting rule: the source's, which splits a `str` as long as the entity count, or the corrected one |
| Decorations.DecorationOfLast | src/czml3_ext/packets.py:219-234 | a later keyword acts on the decoration the earlier ones produced |
| Decorations.TemplateGoesToEveryEntity | src/czml3_ext/packets.py:220-223 | a geometry template replaces every entity's geometry fields, minus the fields the function computes |
| Decorations.SequenceIsSplit | src/czml3_ext/packets.py:224-230 | a sequence with one item per entity gives item i to entity i: as geometry fields when the item is a template, as a packet field otherwise |
| Decorations.OtherValueGoesToEveryEntity | src/czml3_ext/packets.py:231-233 | under the corrected rule, any other value, every string included, becomes the same packet field of every entity (the source splits a string as long as the entity count; see Findings) |
| Decorations.TextSplitAsWritten | src/czml3_ext/packets.py:224-230 | as written, `name="ab"` over two entities names entity 1 "b" |
| Decorations.StringIsSplitAsWritten | src/czml3_ext/packets.py:224-230 | as written, a string as long as the entity count gives entity i the one-character string of its character i |
| Decorations.AsWrittenAgreesWithoutEntityLengthText | src/czml3_ext/packets.py:215-234 | the source's rule and the corrected one give the same decorations whenever no keyword is a string as long as the entity count |
| Decorations.UniformWithoutSplits | src/czml3_ext/packets.py:215-234 | when no keyword is a sequence with one item per entity, all entities get the same decoration |
| Decorations.StrippedFieldsAbsent | src/czml3_ext/packets.py:221 | no entity's geometry fields hold a field the function computes itself (`positions`, and `perPositionHeight` or `outline`/`outlineColor` where those are set) |
| Decorations.NoCollisionWithoutReservedKeywords | src/czml3_ext/packets.py:215-234 | when no keyword is `id` or the geometry's keyword, no entity's packet fields collide with `Packet`'s own arguments |
| Decorations.NoneCollideWithoutReservedKeywords | src/czml3_ext/packets.py:215-234 | the same for all n entities at once |
| Decorations.ReservedKeywordCollides | src/czml3_ext/packets.py:231-233 | a last keyword `id`, or the geometry's keyword with a value that is not a template (and not a per-entity sequence of one), lands in every entity's packet fields, where `Packet` gets it twice |
| Decorations.ExtrasComeFromKeywords | src/czml3_ext/packets.py:227-233 | every packet field is named after one of the keywords |
| SensorPolyline.BuildElevationArc | src/czml3_ext/packets.py:430-461 | the arc loop yields the arc specification: `n_arc_points` samples at a fixed azimuth, elevation swept upward |
| SensorPolyline.BuildAzimuthArc | src/czml3_ext/packets.py:473-504 | the arc loop yields the arc specification: `n_arc_points` samples at a fixed elevation, azimuth swept upward |
| SensorPolyline.AppendRange | src/czml3_ext/packets.py:248-516 | the body of the range loop appends exactly the eight packets of that range |
| SensorPolyline.AppendSensor | src/czml3_ext/packets.py:244-246 | the minimum range comes before the maximum; a range of 0 adds nothing |
| SensorPolyline.BuildWireframe | src/czml3_ext/packets.py:242-517 | the sensor loop yields the wireframe of all sensors, in order, or fails with DuplicateKeyword when a sensor with a non-zero range has packet fields holding `id` or a non-template `polyline` |
| SensorPolyline.SensorPolyline | src/czml3_ext/packets.py:30-517 | the whole function equals its specification: validation, then decoration, then the wireframe |
| SensorPolyline.RangeWireframeLayout | src/czml3_ext/packets.py:248-516 | a range gives 8 packets: lines 00, 01, 11, 10 from the origin to the four corners, then elevation arcs at az-/az+, then azimuth arcs at el-/el+, each arc of `n_arc_points` samples |
| SensorPolyline.RangeWireframeDecoration | src/czml3_ext/packets.py:353-516 | every packet of a range is a polyline carrying the sensor's packet fields and template fields |
| SensorPolyline.CornerOrder | src/czml3_ext/packets.py:249-352 | the corners are (az-, el-), (az+, el-), (az+, el+), (az-, el+), not wrapped |
| SensorPolyline.SensorWireframeShape | src/czml3_ext/packets.py:244-246 | a sensor emits 8 packets per non-zero range; with a zero minimum range, only the maximum range's 8 |
| SensorPolyline.WireframeCount | src/czml3_ext/packets.py:242-517 | the output holds exactly 8 packets per non-zero range |
| SensorPolyline.WireframeInSensorOrder | src/czml3_ext/packets.py:243 | the packets of the first j sensors are a prefix of the packets of the first k ≥ j |
| SensorPolyline.ElevationArcAngles | src/czml3_ext/packets.py:435-442 | every elevation-arc sample is the transform at an azimuth in [0, 2π) and an elevation in [0, 2π) |
| SensorPolyline.AzimuthArcAngles | src/czml3_ext/packets.py:478-485 | every azimuth-arc sample is the transform at an azimuth in [0, 2π) and an elevation in [0, π) |
| SensorPolyline.SensorPolylineCount | src/czml3_ext/packets.py:30-517 | the function succeeds exactly when validation succeeds and no sensor with a non-zero range has keywords colliding with `Packet`'s own `id` or `polyline`; a validation failure keeps its error, a collision is DuplicateKeyword; on success it emits 8 packets per non-zero range |
| SensorPolyline.IdKeywordFails | src/czml3_ext/packets.py:354-369 | one sensor with ranges 0 and 1000 m and the keyword `id="s1"` is a DuplicateKeyword error |
| SensorPolyline.SingleSensorTwoRanges | src/czml3_ext/packets.py:142-246 | one sensor with ranges 5000 m and 10000 m, and keywords other than `id` and `polyline`, gives 16 polylines |
| SensorPolyline.MismatchedFieldOfView | src/czml3_ext/packets.py:202-212 | two azimuth fields of view against one point is a MismatchedInputsError |
| SensorPolygon.BuildAzimuthCap | src/czml3_ext/packets.py:738-781 | a cap at a fixed azimuth: the elevation swept upward at the minimum range, then downward at the maximum range |
| SensorPolygon.BuildElevationCap | src/czml3_ext/packets.py:795-838 | a cap at a fixed elevation: the azimuth swept upward at the minimum range, then downward at the maximum range |
| SensorPolygon.BuildCaps | src/czml3_ext/packets.py:738-850 | the four caps come in the order az-, az+, el-, el+ |
| SensorPolygon.BuildStrips | src/czml3_ext/packets.py:851-911 | the growing buffer loop emits strip k as row k-1 followed by row k for every row after the first; the buffer then drops row k-1 |
| SensorPolygon.AppendSensor | src/czml3_ext/packets.py:736-911 | one sensor adds its caps, then the strips of its non-zero ranges |
| SensorPolygon.BuildFaces | src/czml3_ext/packets.py:736-913 | the sensor loop yields the faces of all sensors, in order, or fails with DuplicateKeyword when some sensor's packet fields hold `id` or a non-template `polygon` |
| SensorPolygon.SensorPolygon | src/czml3_ext/packets.py:519-913 | the whole function equals its specification: validation, then decoration, then the faces |
| SensorPolygon.CapsShape | src/czml3_ext/packets.py:738-850 | there are four caps; each is a polygon with per-position heights and 2n positions, carrying the sensor's decoration |
| SensorPolygon.CapRetraces | src/czml3_ext/packets.py:746-762 | the maximum-range half of a cap retraces the minimum-range half's angles in reverse |
| SensorPolygon.AzimuthCapHalfAngle | src/czml3_ext/packets.py:746-762 | each position of a half of the cap at a fixed azimuth is `geo` at that azimuth and an elevation in [0, π) |
| SensorPolygon.ElevationCapHalfAngle | src/czml3_ext/packets.py:803-819 | each position of a half of the cap at a fixed elevation is `geo` at that elevation and an azimuth in [0, π) |
| SensorPolygon.CapAngles | src/czml3_ext/packets.py:754-819 | every position of the cap at az-, az+, el- or el+ is `geo` at that fixed angle, unwrapped, and a swept angle in [0, π), at the minimum range in the first half and the maximum range in the second |
| SensorPolygon.StripLayout | src/czml3_ext/packets.py:856-911 | strip k has 2n positions: row k-1 followed by row k |
| SensorPolygon.StripsShareRows | src/czml3_ext/packets.py:900-911 | strip k ends with the row that strip k+1 begins with |
| SensorPolygon.RowsZigZag | src/czml3_ext/packets.py:864-879 | the last azimuth of a row is the first azimuth of the next row |
| SensorPolygon.OddRowsReversed | src/czml3_ext/packets.py:864-879 | odd rows visit the even rows' azimuths in reverse |
| SensorPolygon.RangesStripsCount | src/czml3_ext/packets.py:851-853 | each non-zero range gives n-1 strips; a range of 0 gives none |
| SensorPolygon.RangeStripsAreFaces | src/czml3_ext/packets.py:900-906 | every strip at a range is a polygon of that sensor with its decoration |
| SensorPolygon.SensorFacesCount | src/czml3_ext/packets.py:736-911 | a sensor gives 4 caps and n-1 strips per non-zero range |
| SensorPolygon.SensorFacesShape | src/czml3_ext/packets.py:736-911 | a sensor's faces begin with its 4 caps, and all are polygons of that sensor with its decoration |
| SensorPolygon.FacesCount | src/czml3_ext/packets.py:736-913 | the output holds 4 + (n-1)·(non-zero ranges) faces per sensor |
| SensorPolygon.FacesArePolygons | src/czml3_ext/packets.py:784-906 | every face is a polygon with `perPositionHeight` = True, whatever the template says |
| SensorPolygon.SensorPolygonCount | src/czml3_ext/packets.py:519-913 | the function succeeds exactly when validation succeeds and no sensor's keywords collide with `Packet`'s own `id` or `polygon`; a validation failure keeps its error, a collision is DuplicateKeyword; on success it emits the counted faces |
| SensorPolygon.PolygonKeywordFails | src/czml3_ext/packets.py:783-790 | a `polygon` keyword that is not a `Polygon` template, given to a valid call with at least one sensor, is a DuplicateKeyword error |
| Grid.GridPoints | src/czml3_ext/packets.py:950-958 | a list whose length is not a multiple of 3 fails the reshape; an array of rank other than 3 is a NumDimensionsError; a trailing shape other than (3, 1) is a ShapeError; otherwise one centre per row |
| Grid.GroundedCopy | src/czml3_ext/packets.py:959-960 | a fresh copy of the centres with every altitude set to 0 |
| Grid.PairwiseMinNone | src/czml3_ext/packets.py:962-966 | there is no positive pairwise difference exactly when all values are equal |
| Grid.PairwiseMinAttained | src/czml3_ext/packets.py:962-966 | the minimum is the distance between two of the values |
| Grid.PairwiseMinBelow | src/czml3_ext/packets.py:962-966 | no positive difference between two values is smaller than the minimum |
| Grid.Pitch | src/czml3_ext/packets.py:962-966 | the `np.min` over an empty selection is an error; otherwise the pitch is positive |
| Grid.PitchIsLeastPositiveDifference | src/czml3_ext/packets.py:962-966 | the pitch is attained by two centres and no positive difference is smaller |
| Grid.BuildCells | src/czml3_ext/packets.py:993-1022 | the cell loop yields one cell per centre, in order, or fails with DuplicateKeyword when some centre's packet fields hold `id` or a non-template `polygon` |
| Grid.BuildGrid | src/czml3_ext/packets.py:962-1022 | the latitude pitch is checked first, then the longitude pitch, then the cells are built |
| Grid.GridOutcome | src/czml3_ext/packets.py:962-1022 | the grid succeeds exactly when both pitches exist and no centre's keywords collide with `id` or `polygon`; a latitude failure comes first, then a longitude failure, then DuplicateKeyword |
| Grid.MakeGrid | src/czml3_ext/packets.py:916-1022 | the whole function equals its specification |
| Grid.CellIsRectangle | src/czml3_ext/packets.py:996-1009 | a cell's corners are (long ∓ dlong/2, lat ∓ dlat/2) in the order SW, NW, NE, SE, at altitude 0 |
| Grid.CellsLayout | src/czml3_ext/packets.py:1010-1020 | cell i is the polygon with id `grid{i}` around centre i, with `outline` True and a white `outlineColor`, whatever the template |
| Grid.GridIsCells | src/czml3_ext/packets.py:959-1022 | a successful grid is the cells around the grounded centres, sized by the longitude and latitude pitches, decorated per centre |
| Grid.GridLayout | src/czml3_ext/packets.py:994-1022 | on success there is one cell per centre, centred on it |
| Grid.CellsDoNotOverlap | src/czml3_ext/packets.py:962-1009 | cells of two different centres have no interior point in common |
| Grid.SingleRowFails | src/czml3_ext/packets.py:962-964 | centres all at one latitude leave no positive latitude difference: the call fails |
| Grid.PitchOfRegularValues | src/czml3_ext/packets.py:962-966 | values spaced by a common positive step have that step as pitch |
| Grid.PitchOfTwoValues | src/czml3_ext/packets.py:962-966 | values taking two distinct values have their distance as pitch |
| Grid.TwoByTwoGrid | src/czml3_ext/packets.py:993-1009 | a 2×2 grid of centres 0.2° by 0.1° apart, with keywords other than `id` and `polygon`, gives cells of that size around each centre |
| Slicing.Reverse | src/czml3_ext/packets.py:1097 | element j of the reversal is element n-1-j of the input |
| Slicing.EveryKthAt | src/czml3_ext/packets.py:1097 | `[::k]` for k > 0: element j of the result is input element j·k (written as a repeated sum), and the length is ceil(n/k) |
| Slicing.EveryKthForward | src/czml3_ext/packets.py:1097 | `[::k]` for k > 0 keeps ceil(n/k) elements: 0, k, 2k, … |
| Slicing.DecimateForward | src/czml3_ext/packets.py:1097 | with step k > 0, position j is point j·k and there are ceil(n/k) of them |
| Slicing.DecimateBackward | src/czml3_ext/packets.py:1097 | with step k < 0 the positions start at the last point and go back by abs(k) |
| Slicing.DecimateUnit | src/czml3_ext/packets.py:1097 | step 1 keeps every point; step -1 reverses them |
| Slicing.StepTwoOfFive | src/czml3_ext/packets.py:1097 | five points with step 2 keep points 0, 2, 4; step -2 keeps 4, 2, 0; step 7 keeps only point 0 |
| Border.Items | src/czml3_ext/packets.py:1053-1054 | a single name or array is wrapped into a one-element list |
| Border.Steps | src/czml3_ext/packets.py:1055-1056 | an int step is replicated once per border |
| Border.ResolveItem | src/czml3_ext/packets.py:1081-1089 | a name is looked up with `get_border`; an array is used as given; anything else is a TypeError |
| Border.ResolveBorder | src/czml3_ext/packets.py:1081-1105 | one iteration: resolve the border, index its step, reject a zero step, then build its packet or fail with DuplicateKeyword when its keywords collide |
| Border.BuildBorders | src/czml3_ext/packets.py:1079-1105 | the border loop stops at the first border that fails, with its error, and otherwise collects one packet per border in order |
| Border.MakeBorder | src/czml3_ext/packets.py:1053-1106 | the whole function equals its specification |
| Border.BorderAtOutcome | src/czml3_ext/packets.py:1081-1105 | a border succeeds exactly when it resolves, has a step, the step is not 0 and its keywords hold neither `id` nor a non-template `polyline`; an unsupported item is a TypeError, a missing step an IndexError, a zero step a slicing error, a collision after those a DuplicateKeyword |
| Border.BorderAtPacket | src/czml3_ext/packets.py:1081-1105 | a border that succeeds resolved its points and had a non-zero step, and its packet is the polyline through them |
| Border.CollectOutcome | src/czml3_ext/packets.py:1079-1106 | collecting succeeds exactly when every outcome succeeds, and then holds every value in order |
| Border.CollectFailure | src/czml3_ext/packets.py:1079-1106 | a failed collection carries the error of the first failure, all earlier outcomes succeeding |
| Border.CollectSummary | src/czml3_ext/packets.py:1079-1106 | collecting all outcomes gives every value in order, or the first failure |
| Border.BorderSpecOutcome | src/czml3_ext/packets.py:1079-1106 | all borders succeed or the call fails; on success there is one packet per border, in input order; on failure the error is the first failing border's |
| Border.BorderPacketsAreBorders | src/czml3_ext/packets.py:1059-1105 | packet i is a polyline through every step-th point of border i, and carries the decoration the keywords give entity i |
| Border.PositionsSwapAxes | src/czml3_ext/packets.py:1097 | each position is (long, lat, alt) of the kept (lat, long, alt) point |
| Border.SingleBorderIsOneElementList | src/czml3_ext/packets.py:1053-1056 | a single border with an int step behaves as a one-element list with a one-element step list |
| Border.BorderNameIgnoresCase | src/czml3_ext/helpers.py:43-44 | border names given as `str` are looked up without regard to case |
| Border.PolylineKeywordFails | src/czml3_ext/packets.py:1092-1102 | a border with a non-zero step and a `polyline` keyword that is not a `Polyline` template is a DuplicateKeyword error |
| Text.LowerChar | src/czml3_ext/helpers.py:25 | upper-case letters map to lower case; every other character is unchanged |
| Text.Lower | src/czml3_ext/helpers.py:25 | the lower-cased string has no upper-case letter and the same length |
| Text.LowerIdempotent | src/czml3_ext/helpers.py:25 | lower-casing twice is lower-casing once |
| Text.SpacesFrom | src/czml3_ext/helpers.py:31 | the end of the leading whitespace: everything before it is whitespace, the character there is not |
| Text.SpacesBefore | src/czml3_ext/helpers.py:31 | the start of the trailing whitespace: everything from it on is whitespace, the character before it is not |
| Text.Strip | src/czml3_ext/helpers.py:31 | the result neither starts nor ends with whitespace (the ASCII characters `str.isspace` accepts), and is the input minus whitespace on both sides |
| Text.StripKeepsTrimmed | src/czml3_ext/helpers.py:31 | a string with no whitespace at either end is unchanged by strip |
| Text.StripIdempotent | src/czml3_ext/helpers.py:31 | stripping twice is stripping once |
| Text.StripRemovesSeparators | src/czml3_ext/helpers.py:31 | the separators U+001C to U+001F are stripped like spaces and tabs |
| Text.LastIndexOf | src/czml3_ext/helpers.py:27 | the last position of a character, or -1 when absent |
| Helpers.FinalComponent | src/czml3_ext/helpers.py:28 | `Path.name`: the suffix of the path after its last `/`, containing no `/` |
| Helpers.FinalComponentAfterLastSlash | src/czml3_ext/helpers.py:28 | `Path.name` is all of the path after its last `/`: the whole path when it has none |
| Helpers.Suffix | src/czml3_ext/helpers.py:27 | `Path.suffix`: empty or a dot followed by no dot and no `/`, and a suffix of the path |
| Helpers.SuffixIsFromLastDot | src/czml3_ext/helpers.py:27 | a non-empty `Path.suffix` starts at a '.' of the name other than its first character; it is empty only when the name has no last '.' strictly inside it, so with `Suffix`'s own contract the suffix is fully determined |
| Helpers.Resolve | src/czml3_ext/helpers.py:43-47 | a name that already ends in the border suffix is kept; otherwise the suffix is appended to its final component |
| Helpers.ResolveIgnoresCase | src/czml3_ext/helpers.py:43-44 | `str` names that differ only in case resolve to the same key |
| Helpers.ResolvedEndsWithSuffix | src/czml3_ext/helpers.py:45-47 | a resolved name ends with the file suffix |
| Helpers.AppendedDropsDirectory | src/czml3_ext/helpers.py:47 | when the suffix is appended, the directory part is dropped |
| Helpers.ResolveIdempotent | src/czml3_ext/helpers.py:45-47 | resolving a resolved name changes nothing |
| Helpers.BorderPoints | src/czml3_ext/helpers.py:50-53 | an odd count of values fails the reshape; otherwise point i is (lat, long, 0) from the pair (long, lat) at 2i, 2i+1 |
| Helpers.ReshapeFlatten | src/czml3_ext/helpers.py:50-53 | reshaping the flattened pairs of altitude-0 points gives back the points |
| Helpers.FlattenReshape | src/czml3_ext/helpers.py:50-53 | flattening reshaped values gives back the values |
| Helpers.ReshapeBorder | src/czml3_ext/helpers.py:50-53 | filling a zeroed (n, 3, 1) array with the swapped pairs gives the reshaped points |
| Helpers.GetBorder | src/czml3_ext/helpers.py:38-57 | the method (lookup, then the reshaping fill loop) computes `get_border`'s specification |
| Helpers.GetBorderOutcome | src/czml3_ext/helpers.py:38-57 | fails exactly when the resolved key is not in the registry (BorderNotFound with the key and the available names) or its values have odd count (ReshapeError); otherwise the points, at altitude 0 |
| Helpers.GetBillboard | src/czml3_ext/helpers.py:19-35 | a missing key is BillboardNotFound with the key and the available names; otherwise the stored text with surrounding whitespace stripped |
| Helpers.Png2Base64 | src/czml3_ext/helpers.py:60-68 | the data-URI prefix followed by a base64 text of length 4·ceil(n/3) that decodes to the file's bytes |
| Helpers.ParseOperation | src/czml3_ext/helpers.py:97-109 | "eq", "ge", "le", "g" and "l" are equality, at-least, at-most, greater and less, each code its own; any other code is a ValueError carrying it |
| Helpers.PerformOperation | src/czml3_ext/helpers.py:71-110 | the element-wise comparison of v1 with a scalar, with an equal-length array, or with a one-element array on either side, which is broadcast against every element of the other; the mask has the broadcast length; an invalid code fails first; other length pairs fail to broadcast |
| Helpers.ComparisonCodes | src/czml3_ext/helpers.py:97-107 | against a number, "eq", "ge", "le", "g" and "l" give element i as `v1[i] == x`, `>=`, `<=`, `>` and `<` |
| Helpers.GreaterOrEqualSplits | src/czml3_ext/helpers.py:100-105 | "ge" holds exactly where "g" or "eq" holds |
| Helpers.LessOrEqualSplits | src/czml3_ext/helpers.py:102-107 | "le" holds exactly where "l" or "eq" holds |
| Helpers.StrictIsNegation | src/czml3_ext/helpers.py:100-107 | "g" is the negation of "le", and "l" the negation of "ge" |
| Base64.IndexOf | src/czml3_ext/helpers.py:67 | the position of an alphabet character in the RFC 4648 table |
| Base64.Encode | src/czml3_ext/helpers.py:67 | `base64.b64encode`: 4·ceil(n/3) characters, all from the alphabet or padding |
| Base64.DecodeEncode | src/czml3_ext/helpers.py:67 | decoding the encoding gives back the bytes |
| Base64.PaddingOnlyAtEnd | src/czml3_ext/helpers.py:67 | padding appears only in the last two characters of the encoding |
| Base64.TestVectors | src/czml3_ext/helpers.py:67 | "f", "fo", "foo" encode to "Zg==", "Zm8=", "Zm9v" (section 10 of RFC 4648) |

## Left out

- `coverage` (packets.py:1108-1189) is not modelled: it is polygon set arithmetic delegated to shapely.
- The geodetic chain (`DDM2RRM`, `AER2ENU`, `ENU2ECEF`, `ECEF2geodetic`, `RRM2DDM`, the WGS84 constants) is a function parameter. Its numerics and floating-point rounding are not modelled.
- Packet ids: the random `uuid4` parts are left out. The fixed prefixes (`sensor{i}line00`, `grid{i}`, `border`, and so on) are kept as a datatype, and the float formatting inside the azimuth-arc id is not modelled.
- Serialisation of packets to CZML JSON by czml3, and the czml3 classes themselves, which are modelled as maps of field names to values.
- File access: reading the border, billboard and png files, and `np.fromstring`. A border registry maps a name to its parsed numbers; a billboard registry maps a name to its text; png2base64 receives the bytes.
- Angles.Fraction: with `n_arc_points == 1`, `i_arc / 0` gives NaN in numpy. The model uses 0 there, because reals have no NaN.
- Text.Lower and Text.Strip act on ASCII only: `Text.IsSpace` is the ASCII whitespace of `str.isspace` (space, tab, line feed, carriage return, vertical tab, form feed and the separators U+001C to U+001F). Python's Unicode case mapping and the Unicode whitespace beyond ASCII (U+0085, U+00A0, U+2028 and others) are not modelled.
- Helpers.Suffix follows `pathlib` with `/` as the only separator and the suffix rule of Python 3.12 and earlier. Path normalisation (`.`, `..`, repeated `/`) is not modelled.
- Helpers.GetBorderSpec reports the registry's key set as the available names. The source prints the `available_borders` list of the data module, which is not part of this model, and its message says "Billboard" for borders; messages are not modelled, only the error and its data.
- Helpers.PerformOperation models one-dimensional operands only. numpy broadcasting over higher ranks and integer-versus-float dtypes are not modelled; all numbers are reals.
- SensorInputs.ToArray takes a numpy parameter as its flattened values. A 0-d array and a multi-dimensional array are not told apart from a flat one.
- Border items: a numpy array is taken to be of shape (n, 3, 1) as documented. Arrays of other shapes (which numpy would slice or reject differently) and `Path` items (which the source rejects with a TypeError, a case the model's "anything else" item covers) are not distinguished further.
- Decorations.Distribute models both rules, but the builders (`SensorPolyline.SensorPolylineSpec`, `SensorPolygon.SensorPolygonSpec`, `Grid.GridOfCentres`, `Border.BorderSpec`) and their lemmas use the corrected rule, under which a `str` keyword is one value for every entity. The source splits a `str` as long as the entity count into characters (packets.py:224, 723, 979, 1068; see Findings). `Decorations.AsWrittenAgreesWithoutEntityLengthText` shows the builders' results are the source's whenever no keyword is such a string.
- The DuplicateKeyword error stands for Python's `TypeError: got multiple values for keyword argument`. Which keyword the message names, when both `id` and the geometry keyword collide, is not modelled.
- Template aliasing: the source pops fields from a template's `__dict__` in place and shares that dict between entities. The model copies the remaining fields into each entity, so later mutation of a shared dict is not modelled.
- Base64.Decode has no counterpart in the source, which only encodes. It is the inverse written for the round-trip lemma, and it rejects nothing beyond what that lemma needs.

## Findings

| source | as written | input that shows it | evidently intended | confidence | as-written member | corrected member |
|---|---|---|---|---|---|---|
| src/czml3_ext/packets.py:224 | `isinstance(v, Sequence) and len(v) == n` is true for a `str`, so a string keyword as long as the number of entities is split into one character per entity (the same test is at lines 723, 979 and 1068) | `sensor_polyline` with two sensors and `name="ab"`: sensor 0 is named "a" and sensor 1 "b", while `name="abc"` names both "abc" | a string keyword is one value given to every entity, like any other non-sequence value | medium, not executed | Decorations.TextSplitAsWritten | Decorations.OtherValueGoesToEveryEntity |
