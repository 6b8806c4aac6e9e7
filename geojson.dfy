/** The GeoJSON values the handlers exchange with the decoder (RFC 7946).
    Decoding and encoding themselves are opaque: the handlers receive them
    as function parameters. */
module GeoJson {

  /** A position. As section 3.1.1 of RFC 7946 prescribes, longitude is the
      first element and latitude the second; an altitude is not kept. */
  datatype Position = Position(lon: real, lat: real)

  /** The geometry variants of section 3.1 of RFC 7946, and the `null`
      geometry of an unlocated Feature (section 3.2). */
  datatype Geometry =
    | NoGeometry
    | Point(coordinates: Position)
    | MultiPoint(points: seq<Position>)
    | LineString(line: seq<Position>)
    | MultiLineString(lines: seq<seq<Position>>)
    | Polygon(rings: seq<seq<Position>>)
    | MultiPolygon(polygons: seq<seq<seq<Position>>>)
    | GeometryCollection(geometries: seq<Geometry>)

  /** A JSON value, for the free-form members of a Feature. */
  datatype Json =
    | Null
    | Bool(b: bool)
    | Number(n: real)
    | String(s: string)
    | Array(items: seq<Json>)
    | Object(members: map<string, Json>)

  /** A Feature object (section 3.2 of RFC 7946). */
  datatype Feature = Feature(kind: string, geometry: Geometry, properties: map<string, Json>)

  /** A FeatureCollection (section 3.3 of RFC 7946), with the foreign members
      such as "generator" that the decoder keeps and the encoder writes back. */
  datatype FeatureCollection = FeatureCollection(kind: string, features: seq<Feature>, extraMembers: map<string, Json>)
}
