/** Worked examples of the generalizer on small layers. */
module OsmQaTilesExamples {
  import opened VectorTile
  import opened OsmQaTiles

  function PointFeature(id: int, c: Coord): Feature
  {
    Feature("osm", id, PointGeometry(c), map[], 0)
  }

  function ShapeFeature(id: int, geomType: GeometryType, kind: Kind, length: real, area: real): Feature
  {
    var first := Coord(0.0, 0.0);
    Feature("osm", id, VectorGeometry(geomType, first, Shape(kind, false, length, area, Coord(1.0, 1.0))), map[], 0)
  }

  /** At the maximum zoom nothing is looked at, not even an empty geometry. */
  lemma AtMaxZoomUnchanged()
    ensures
      var empty := Feature("osm", 1, VectorGeometry(PolygonType, Coord(0.0, 0.0),
                                                     Shape(Polygon, true, 0.0, 0.0, Coord(0.0, 0.0))), map[], 0);
      PostProcess(14, 14, [empty]) == Unchanged
  {
  }

  /** A polygon of 1.5 square pixels becomes a point at its centroid with the same attributes. */
  lemma TinyPolygonCollapses()
    ensures
      var poly := ShapeFeature(1, PolygonType, Polygon, 0.0, 1.5);
      PostProcess(14, 10, [poly]) == Replaced([poly.(geometry := PointGeometry(Coord(1.0, 1.0)))])
  {
    var poly := ShapeFeature(1, PolygonType, Polygon, 0.0, 1.5);
    SmallAreaAlone(poly);
  }

  lemma SmallAreaAlone(poly: Feature)
    requires !poly.geometry.decoded.isEmpty && poly.geometry.decoded.kind.Polygon?
    requires poly.geometry.decoded.area < MinSize
    ensures Collapsed([poly]) == Ok([CentroidCopy(poly)])
    ensures Capped([CentroidCopy(poly)]) == [CentroidCopy(poly)]
  {
    var point := CentroidCopy(poly);
    assert Collapsed([]) == Ok([]);
    CollapsedSnoc([], poly);
    assert [] + [poly] == [poly] && [] + [point] == [point];
    assert Capped([]) == [] && PointsAt([], point.geometry.firstCoordinate) == [];
    CappedSnoc([], point);
  }

  /** A short line collapses, a long one is kept, and their order is kept. */
  lemma ShortAndLongLines()
    ensures
      var short := ShapeFeature(1, LineType, LineString, 0.5, 0.0);
      var long := ShapeFeature(2, LineType, LineString, 10.0, 0.0);
      PostProcess(12, 8, [short, long]) == Replaced([CentroidCopy(short), long])
  {
    var short := ShapeFeature(1, LineType, LineString, 0.5, 0.0);
    var long := ShapeFeature(2, LineType, LineString, 10.0, 0.0);
    ShortThenLong(short, long);
  }

  lemma ShortThenLong(short: Feature, long: Feature)
    requires !short.geometry.decoded.isEmpty && short.geometry.decoded.kind.LineString?
    requires !long.geometry.decoded.isEmpty && long.geometry.decoded.kind.LineString?
    requires short.geometry.decoded.length < MinSize <= long.geometry.decoded.length
    requires long.geometry.geomType == LineType
    ensures Collapsed([short, long]) == Ok([CentroidCopy(short), long])
    ensures Capped([CentroidCopy(short), long]) == [CentroidCopy(short), long]
  {
    var point := CentroidCopy(short);
    assert Collapsed([]) == Ok([]);
    CollapsedSnoc([], short);
    assert [] + [short] == [short] && [] + [point] == [point];
    CollapsedSnoc([short], long);
    assert [short] + [long] == [short, long] && [point] + [long] == [point, long];
    assert Capped([]) == [] && PointsAt([], point.geometry.firstCoordinate) == [];
    CappedSnoc([], point);
    CappedSnoc([point], long);
  }

  /** Four points at one pixel: the first three survive, in order. */
  lemma FourPointsAtOnePixel()
    ensures
      var c := Coord(5.0, 5.0);
      var p1, p2, p3, p4 := PointFeature(1, c), PointFeature(2, c), PointFeature(3, c), PointFeature(4, c);
      PostProcess(14, 10, [p1, p2, p3, p4]) == Replaced([p1, p2, p3])
  {
    var c := Coord(5.0, 5.0);
    var p1, p2, p3, p4 := PointFeature(1, c), PointFeature(2, c), PointFeature(3, c), PointFeature(4, c);
    PointsCollapseToThemselves(p1, p2, p3, p4);
    FourPointsCapped(p1, p2, p3, p4, c);
  }

  lemma PointsCollapseToThemselves(p1: Feature, p2: Feature, p3: Feature, p4: Feature)
    requires forall p <- [p1, p2, p3, p4] :: !p.geometry.decoded.isEmpty && p.geometry.decoded.kind.Point?
    ensures Collapsed([p1, p2, p3, p4]) == Ok([p1, p2, p3, p4])
  {
    CollapsedSnoc([], p1);
    assert [] + [p1] == [p1];
    CollapsedSnoc([p1], p2);
    assert [p1] + [p2] == [p1, p2];
    CollapsedSnoc([p1, p2], p3);
    assert [p1, p2] + [p3] == [p1, p2, p3];
    CollapsedSnoc([p1, p2, p3], p4);
    assert [p1, p2, p3] + [p4] == [p1, p2, p3, p4];
  }

  lemma FourPointsCapped(p1: Feature, p2: Feature, p3: Feature, p4: Feature, c: Coord)
    requires IsPointAt(p1, c) && IsPointAt(p2, c) && IsPointAt(p3, c) && IsPointAt(p4, c)
    ensures Capped([p1, p2, p3, p4]) == [p1, p2, p3]
  {
    // the counter at c goes 0, 1, 2, 3 and the fourth point finds it full
    PointsAtSnoc([], p1, c);
    assert [] + [p1] == [p1];
    PointsAtSnoc([p1], p2, c);
    assert [p1] + [p2] == [p1, p2];
    PointsAtSnoc([p1, p2], p3, c);
    assert [p1, p2] + [p3] == [p1, p2, p3];
    CappedSnoc([], p1);
    CappedSnoc([p1], p2);
    CappedSnoc([p1, p2], p3);
    CappedSnoc([p1, p2, p3], p4);
    assert [p1, p2, p3] + [p4] == [p1, p2, p3, p4];
  }
}
