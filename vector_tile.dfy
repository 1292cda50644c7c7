/**
 * Abstract stand-ins for the geometry values the layer generalizer reads:
 * a vector-tile feature, its encoded geometry, and the JTS geometry that
 * decoding it yields. Only the quantities the generalizer inspects are kept;
 * how they are computed (decoding, length, area, centroid) is not modelled.
 */
module VectorTile {

  /** A coordinate in tile-pixel space (JTS CoordinateXY); equality is exact. */
  datatype Coord = Coord(x: real, y: real)

  /** The type name a decoded JTS geometry reports from getGeometryType(). */
  datatype Kind =
    | Point
    | MultiPoint
    | LineString
    | MultiLineString
    | Polygon
    | MultiPolygon
    | GeometryCollection
    | Other(typeName: string)   // any other JTS type name, e.g. "LinearRing"

  /** A decoded geometry, reduced to what the generalizer asks of it. */
  datatype Shape = Shape(kind: Kind, isEmpty: bool, length: real, area: real, centroid: Coord)

  /** Planetiler's GeometryType of an encoded vector-tile geometry. */
  datatype GeometryType = UnknownType | PointType | LineType | PolygonType

  /**
   * An encoded vector-tile geometry: its encoded type, its first coordinate,
   * and the shape it decodes to.
   */
  datatype VectorGeometry = VectorGeometry(geomType: GeometryType, firstCoordinate: Coord, decoded: Shape)

  /** VectorTile.Feature: a layer name, an id, a geometry, attributes and a group. */
  datatype Feature = Feature(
    layer: string,
    id: int,
    geometry: VectorGeometry,
    attrs: map<string, string>,
    group: int)

  /** The encoding of a single point at c, as a centroid is encoded. */
  function PointGeometry(c: Coord): VectorGeometry
  {
    VectorGeometry(PointType, c, Shape(Point, false, 0.0, 0.0, c))
  }
}
