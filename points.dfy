/** The pure decisions of handler/handler.go: the coordinate bounds of a
    point, the dispatch on the decoded Feature and the decoding of a Target
    on the consumer side. */
module Points {
  import opened Base
  import opened GeoJson

  const LatitudeRangeMessage := "latitude value should be in range [-90.0, 90.0]"
  const LongitudeRangeMessage := "longitude value should be in range [-180.0, 180.0)"
  const NotAPointMessage := "geometry is not a point"

  /** The server clock reading stamped on a Target; the clock itself is an
      input of the ingress handler. */
  datatype Timestamp = Timestamp(unixNanos: int)

  /** The envelope published for every accepted submission and stored by the
      consumer. */
  datatype Target = Target(vendor: string, timestamp: Timestamp, point: Feature)

  /** Latitude is accepted in the closed interval [-90, 90]. */
  predicate LatitudeInRange(lat: real) {
    -90.0 <= lat <= 90.0
  }

  /** Longitude is accepted in the half-open interval [-180, 180). */
  predicate LongitudeInRange(lon: real) {
    -180.0 <= lon < 180.0
  }

  predicate InBounds(p: Position) {
    LatitudeInRange(p.lat) && LongitudeInRange(p.lon)
  }

  /** `validatePoint`: the latitude bound is checked before the longitude
      bound, so a point violating both gets the latitude message. */
  function ValidatePoint(p: Position): (err: Status)
    ensures err.Nil? <==> InBounds(p)
    ensures !LatitudeInRange(p.lat) ==> err == Error(LatitudeRangeMessage)
    ensures LatitudeInRange(p.lat) && !LongitudeInRange(p.lon) ==> err == Error(LongitudeRangeMessage)
  {
    var lat, lon := p.lat, p.lon;
    if lat < -90.0 || lat > 90.0 then
      Error(LatitudeRangeMessage)
    else if lon < -180.0 || lon >= 180.0 then
      Error(LongitudeRangeMessage)
    else
      Nil
  }

  /** `parseFeature`, given the outcome of `geojson.UnmarshalFeature` on the
      request body: a decoding error is passed on unchanged, a geometry
      other than a point is refused without looking at any coordinate, and
      a point is checked by ValidatePoint. */
  function ParseFeature(decoded: Result<Feature>): (r: Result<Feature>)
    ensures decoded.Failure? ==> r == decoded
    ensures decoded.Success? && !decoded.value.geometry.Point? ==> r == Failure(NotAPointMessage)
    ensures decoded.Success? && decoded.value.geometry.Point? ==>
              r == (match ValidatePoint(decoded.value.geometry.coordinates)
                    case Nil => decoded
                    case Error(text) => Failure(text))
    ensures r.Success? <==>
              decoded.Success? && decoded.value.geometry.Point? && InBounds(decoded.value.geometry.coordinates)
    ensures r.Success? ==> r == decoded
  {
    match decoded
    case Failure(_) => decoded
    case Success(f) =>
      match f.geometry
      case Point(p) =>
        (match ValidatePoint(p)
         case Nil => decoded
         case Error(text) => Failure(text))
      case _ => Failure(NotAPointMessage)
  }

  /** `parseTarget`, given what `json.Unmarshal` left in the destination and
      the error it returned: the error is only logged, so the result always
      carries a `nil` error and whatever value the decoder produced. */
  function ParseTarget(decoded: (Target, Status)): (r: (Target, Status))
    ensures r.1 == Nil
    ensures r.0 == decoded.0
  {
    (decoded.0, Nil)
  }

  // ---- Properties of the bounds ----

  lemma PolesAndAntimeridianEdges(lat: real)
    requires LatitudeInRange(lat)
    ensures ValidatePoint(Position(0.0, 90.0)) == Nil
    ensures ValidatePoint(Position(0.0, -90.0)) == Nil
    ensures ValidatePoint(Position(-180.0, lat)) == Nil
    ensures ValidatePoint(Position(180.0, lat)) == Error(LongitudeRangeMessage)
    ensures ValidatePoint(Position(0.0, 90.0001)) == Error(LatitudeRangeMessage)
    ensures ValidatePoint(Position(0.0, -90.0001)) == Error(LatitudeRangeMessage)
    ensures ValidatePoint(Position(-180.0001, lat)) == Error(LongitudeRangeMessage)
    ensures ValidatePoint(Position(180.0001, lat)) == Error(LongitudeRangeMessage)
  {
  }

  /** The longitude reached from `lon` by going round the globe `turns` times. */
  function Turned(lon: real, turns: int): real {
    lon + (turns as real) * 360.0
  }

  /** Every meridian has an accepted longitude: whatever real `lon` names a
      meridian, some whole number of turns brings it into [-180, 180). */
  lemma {:induction false} EveryMeridianHasAcceptedLongitude(lon: real, lat: real)
    requires LatitudeInRange(lat)
    ensures exists turns: int :: ValidatePoint(Position(Turned(lon, turns), lat)) == Nil
  {
    var y := (lon + 180.0) / 360.0;
    var f := y.Floor;
    assert (f as real) <= y < (f as real) + 1.0;
    var turns := -f;
    assert -180.0 <= Turned(lon, turns) < 180.0;
    assert ValidatePoint(Position(Turned(lon, turns), lat)) == Nil;
  }

  /** ... and only one: two accepted longitudes of the same meridian are
      equal, so the antimeridian has the single encoding -180. */
  lemma AcceptedLongitudeIsUnique(p: Position, turns: int)
    requires ValidatePoint(p) == Nil
    requires ValidatePoint(Position(Turned(p.lon, turns), p.lat)) == Nil
    ensures turns == 0
  {
  }

  // ---- Properties of the dispatch ----

  /** Feature geometries other than a point are refused whatever their
      coordinates. */
  lemma NonPointIgnoresBounds(f: Feature, g: Geometry)
    requires !g.Point?
    ensures ParseFeature(Success(f.(geometry := g))) == Failure(NotAPointMessage)
  {
  }
}
