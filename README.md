# OSM QA tiles: zoom-dependent layer generalizer

This project models `OsmQaTiles.postProcessLayerFeatures`, the pass that Planetiler's OSM QA tiles
profile runs over the features of one tile layer at one zoom before the layer is written. It proves
what the pass does:

- At the profile's `maxzoom` it returns `null`, meaning the caller keeps the list as given. The
  model calls this `Unchanged`.
- At any other zoom, the collapse loop walks the features in order and decodes each geometry.
  - An empty geometry throws `GeometryException` with stat `empty_geometry`. The model calls this
    `Failed`.
  - Points and multipoints are kept as they are.
  - A line or multiline shorter than 2.0 pixels becomes a copy of the feature whose geometry is the
    centroid.
  - A polygon, multipolygon or geometry collection with area below 2.0 becomes a centroid copy the
    same way.
  - Lines and areas of size 2.0 or more are kept unchanged.
  - A feature of any other decoded type is dropped.
- A stream filter with a local `HashMap<CoordinateXY, Integer>` then drops every point-typed
  feature whose first coordinate has already been counted three times. The filter keeps
  everything else in order. The model calls this result `Replaced`.

Layout:

- `vector_tile.dfy` (module `VectorTile`) holds abstract values for the data the pass reads:
  - a feature (`VectorTile.Feature`);
  - its encoded geometry, with Planetiler's `GeometryType` and first coordinate;
  - the decoded JTS geometry, with its type name, emptiness, length, area and centroid.
- `osm_qa_tiles.dfy` (module `OsmQaTiles`) holds:
  - the specification functions `Collapse`, `Collapsed`, `Capped` and `PostProcess`;
  - the source's two loops as methods proved equal to those functions
    (`CollapseSmallGeometries`, `CapPointsPerPixel`);
  - the profile class with its `maxzoom`;
  - the lemmas.
- `examples_pass.dfy` (module `OsmQaTilesExamples`) works through small concrete layers.

Where the code and its comments disagree, the model follows the code:

- The cap keeps three points per pixel (`pointCount > 2`). The comment above it says two.
- The threshold is 2.0. The comments say "1 pixel".

Other behaviour of the code that the model keeps:

- The `switch` has no default branch. A decoded type name outside the seven it names (the model's
  `Other`) adds nothing to `newItems`, so that feature silently disappears. It is not an error and
  it is not kept.
- The cap tests the ENCODED geometry type (`geomType()`), not the decoded one. An encoded multipoint
  is point-typed and is capped too.
- It keys the cap on the feature's first coordinate.
- Geometry collections use the area rule (`OsmQaTiles.java:161-167`), so a collection of lines has
  area 0 and always collapses.

## Model

| member | source | states |
|---|---|---|
| `OsmQaTiles.Collapsed` | planetiler-examples/src/main/java/com/onthegomap/planetiler/examples/OsmQaTiles.java:130-170 | the collapse pass as a function: each item's collapse appended in order, or the error of the first empty item. A successful pass never emits more items than it was given |
| `OsmQaTiles.Capped` | planetiler-examples/src/main/java/com/onthegomap/planetiler/examples/OsmQaTiles.java:173-189 | the reference cap, defined without a counter: feature j survives when it is not point-typed or fewer than 3 point-typed features before it share its first coordinate. It never emits more items than it was given |
| `OsmQaTiles.GetOrDefault` | planetiler-examples/src/main/java/com/onthegomap/planetiler/examples/OsmQaTiles.java:181 | `HashMap.getOrDefault`: the stored count when the coordinate is a key, the default 0 otherwise |
| `OsmQaTiles.PostProcess` | planetiler-examples/src/main/java/com/onthegomap/planetiler/examples/OsmQaTiles.java:121-192 | the whole pass as a function: no-op exactly at maxzoom, otherwise the collapse error or the capped collapse. A replacement list is never longer than the input |
| `OsmQaTiles.OsmQaTiles.constructor` | planetiler-examples/src/main/java/com/onthegomap/planetiler/examples/OsmQaTiles.java:48-52 | the profile keeps the maxzoom it is built with |
| `OsmQaTiles.OsmQaTiles.PostProcessLayerFeatures` | planetiler-examples/src/main/java/com/onthegomap/planetiler/examples/OsmQaTiles.java:121-192 | equals `PostProcess`. The result is the no-op signal exactly when zoom == maxzoom, so a replacement list is returned whenever zoom differs and no decoded geometry is empty. It fails exactly when zoom differs and some decoded geometry is empty, with the empty_geometry error of the first such item. A returned list has at most 3 point-typed features at any pixel |
| `OsmQaTiles.CentroidCopy` | planetiler-examples/src/main/java/com/onthegomap/planetiler/examples/OsmQaTiles.java:148 | the copy is point-typed, its first coordinate is the decoded centroid, and every other field is the original feature's |
| `OsmQaTiles.Collapse` | planetiler-examples/src/main/java/com/onthegomap/planetiler/examples/OsmQaTiles.java:140-169 | each non-empty item yields at most one item. It yields none exactly when its type is not one of the seven the switch names. What it yields is the centroid copy when the item is a line shorter than 2.0 or an area (polygon, multipolygon, collection) below 2.0, and otherwise the item itself |
| `OsmQaTiles.CollapseSmallGeometries` | planetiler-examples/src/main/java/com/onthegomap/planetiler/examples/OsmQaTiles.java:130-170 | the loop that appends to newItems and throws on an empty geometry computes exactly `Collapsed`, the in-order concatenation of each item's collapse, or the first item's error |
| `OsmQaTiles.CollapsedSnoc` | planetiler-examples/src/main/java/com/onthegomap/planetiler/examples/OsmQaTiles.java:131-133 | one more non-empty item after a successful prefix appends exactly that item's collapse |
| `OsmQaTiles.CollapsedPrefixError` | planetiler-examples/src/main/java/com/onthegomap/planetiler/examples/OsmQaTiles.java:135-138 | once a prefix has thrown, the whole pass throws the same error: no partial list is returned |
| `OsmQaTiles.CollapsedOkIfNoEmpty` | planetiler-examples/src/main/java/com/onthegomap/planetiler/examples/OsmQaTiles.java:130-170 | with no empty geometry the collapse pass never fails |
| `OsmQaTiles.CollapsedErrAtFirstEmpty` | planetiler-examples/src/main/java/com/onthegomap/planetiler/examples/OsmQaTiles.java:135-138 | if item i is the first with an empty geometry, the pass fails with stat "empty_geometry", message "Empty geometry" and that item's geometry |
| `OsmQaTiles.CollapsedFailsIffEmpty` | planetiler-examples/src/main/java/com/onthegomap/planetiler/examples/OsmQaTiles.java:132-138 | the pass fails if and only if some item's decoded geometry is empty |
| `OsmQaTiles.CollapsedLength` | planetiler-examples/src/main/java/com/onthegomap/planetiler/examples/OsmQaTiles.java:140-169 | a successful pass emits |items| minus the number of items of an unnamed type: those, and only those, disappear |
| `OsmQaTiles.CollapsedOneForOne` | planetiler-examples/src/main/java/com/onthegomap/planetiler/examples/OsmQaTiles.java:130-170 | with no empty geometry and only the seven named types, the output has the input's length. Item i is the centroid copy of input i when that is a too-small line or area, and input i itself otherwise |
| `OsmQaTiles.PointsPassThrough` | planetiler-examples/src/main/java/com/onthegomap/planetiler/examples/OsmQaTiles.java:141-143 | a point or multipoint input comes out of the collapse pass at its own position as the very same item |
| `OsmQaTiles.PointsAtSnoc` | planetiler-examples/src/main/java/com/onthegomap/planetiler/examples/OsmQaTiles.java:179-181 | appending a feature adds it to the point list of its pixel only when it is point-typed at that coordinate |
| `OsmQaTiles.NonPointsSnoc` | planetiler-examples/src/main/java/com/onthegomap/planetiler/examples/OsmQaTiles.java:175-177 | appending a feature adds it to the non-point list only when it is not point-typed |
| `OsmQaTiles.CappedSnoc` | planetiler-examples/src/main/java/com/onthegomap/planetiler/examples/OsmQaTiles.java:174-189 | the cap keeps a next feature exactly when it is not point-typed or fewer than 3 earlier points share its first coordinate |
| `OsmQaTiles.CountsSeenStep` | planetiler-examples/src/main/java/com/onthegomap/planetiler/examples/OsmQaTiles.java:181-187 | each filter step keeps seenPoints equal, per coordinate, to the number of point-typed features seen there capped at 3. A drop leaves it unchanged; a keep stores pointCount + 1 |
| `OsmQaTiles.CapPointsPerPixel` | planetiler-examples/src/main/java/com/onthegomap/planetiler/examples/OsmQaTiles.java:173-189 | the filter with its HashMap counter computes exactly the reference `Capped`. Its output has at most 3 point-typed features per pixel, the same non-point features in the same order, and is a subsequence of its input |
| `OsmQaTiles.CappedProperties` | planetiler-examples/src/main/java/com/onthegomap/planetiler/examples/OsmQaTiles.java:173-189 | the reference cap allows at most 3 points per pixel, keeps all non-point features and only deletes |
| `OsmQaTiles.CappedFirstThree` | planetiler-examples/src/main/java/com/onthegomap/planetiler/examples/OsmQaTiles.java:179-188 | at every coordinate the point-typed survivors are exactly the first min(3, n) of the n point-typed features there, in input order. Converted centroids and original points share this budget |
| `OsmQaTiles.CappedKeepsNonPoints` | planetiler-examples/src/main/java/com/onthegomap/planetiler/examples/OsmQaTiles.java:175-177 | the non-point features of the output are exactly those of the input, in the same order |
| `OsmQaTiles.CappedIsSubsequence` | planetiler-examples/src/main/java/com/onthegomap/planetiler/examples/OsmQaTiles.java:174-189 | the cap only removes features: its output is a subsequence of its input, so nothing is reordered or altered |
| `OsmQaTilesExamples.AtMaxZoomUnchanged` | planetiler-examples/src/main/java/com/onthegomap/planetiler/examples/OsmQaTiles.java:125-127 | at zoom 14 with maxzoom 14 even a layer holding an empty geometry is left unchanged |
| `OsmQaTilesExamples.TinyPolygonCollapses` | planetiler-examples/src/main/java/com/onthegomap/planetiler/examples/OsmQaTiles.java:153-159 | a polygon of area 1.5 at zoom 10 becomes a single point feature at its centroid with the same attributes |
| `OsmQaTilesExamples.SmallAreaAlone` | planetiler-examples/src/main/java/com/onthegomap/planetiler/examples/OsmQaTiles.java:153-159 | any non-empty polygon with area below 2.0, alone in its layer, collapses to its centroid copy, and the cap keeps it |
| `OsmQaTilesExamples.ShortThenLong` | planetiler-examples/src/main/java/com/onthegomap/planetiler/examples/OsmQaTiles.java:145-152 | a line shorter than 2.0 followed by a line-typed line of length 2.0 or more gives the first one's centroid copy and then the second line, and the cap keeps both |
| `OsmQaTilesExamples.ShortAndLongLines` | planetiler-examples/src/main/java/com/onthegomap/planetiler/examples/OsmQaTiles.java:145-152 | lines of length 0.5 and 10 give the first one's centroid copy followed by the second line unchanged |
| `OsmQaTilesExamples.FourPointsAtOnePixel` | planetiler-examples/src/main/java/com/onthegomap/planetiler/examples/OsmQaTiles.java:121-192 | four points at (5, 5) at zoom 10 give the first three, in order |
| `OsmQaTilesExamples.PointsCollapseToThemselves` | planetiler-examples/src/main/java/com/onthegomap/planetiler/examples/OsmQaTiles.java:141-143 | four non-empty points pass the collapse loop as the same list |
| `OsmQaTilesExamples.FourPointsCapped` | planetiler-examples/src/main/java/com/onthegomap/planetiler/examples/OsmQaTiles.java:179-188 | four points at one coordinate are capped to the first three |

## Left out

- Decoding, length, area and centroid are not computed. `decode()`, `getGeometryType()`,
  `getLength()`, `getArea()`, `getCentroid()`, `geomType()` and `firstCoordinate()` belong to JTS and
  to Planetiler's vector-tile encoding, which are not part of this model. Each is a field of the
  abstract geometry value; only the comparisons with 2.0 are modelled.
- Encoded and decoded views are not tied together. The model does not require a feature's encoded
  type and first coordinate to agree with its decoded shape, since the encoder is not part of this
  model.
- Centroid encoding is simplified. `copyWithNewGeometry` re-encodes the centroid into tile
  coordinates. The model takes the centroid as already expressed in those coordinates, so any
  rounding by the encoder is not modelled.
- Decode errors are not modelled. A malformed encoding makes `decode()` throw, and that exception
  would propagate unchanged.
- Coordinates are exact reals, so double precision is not modelled. That includes NaN and the
  different hashes of 0.0 and -0.0 in `CoordinateXY`.
- The `Integer` counter is an unbounded integer. It never exceeds 3, so Java's 32-bit width does
  not matter.
- `processFeature`, `main`/`run`, `name` and `attribution` are left out:
  - `processFeature` is calls on Planetiler's feature-collector builder;
  - `main`/`run` are argument parsing, download and mbtiles output;
  - `name` and `attribution` are constant strings.
- Concurrency is not modelled. The tile pipeline calls the pass from many threads, but each call
  has its own counter map, so one sequential call is modelled.
- Attribute values are abstracted. The feature's attributes are a `Map<String, Object>` in the
  source; the model uses a map from strings to strings. The pass never reads them, only carries them
  into centroid copies, so no result depends on their type.
- Only the fields the pass reads are modelled. `ArrayList` capacity and the immutability of the
  list that `toList()` returns affect no result.
