/** handler/vendor.go: the FeatureCollection variant of the ingress
    handler. It decodes the body as a FeatureCollection, answers 400 on a
    decoding error and otherwise echoes the collection; it checks neither
    geometry types nor coordinates and publishes nothing. */
module Vendor {
  import opened Base
  import opened GeoJson
  import opened Points
  import opened Http

  const ParseErrorPrefix := "Error parsing GeoJSON: "

  /** `validateAndParse`, given the outcome of
      `geojson.UnmarshalFeatureCollection`: a decoding error is wrapped as
      "Error parsing GeoJSON: " followed by its own text. */
  function ValidateAndParse(decoded: Result<FeatureCollection>): (r: Result<FeatureCollection>)
    ensures r.Success? <==> decoded.Success?
    ensures decoded.Success? ==> r == decoded
    ensures decoded.Failure? ==> ParseErrorPrefix <= r.message
    ensures decoded.Failure? ==> UnwrapParseError(r.message) == decoded.message
  {
    match decoded
    case Success(_) => decoded
    case Failure(e) => Failure(ParseErrorPrefix + e)
  }

  /** The text of the decoder's own error inside a wrapped message. */
  function UnwrapParseError(message: string): (e: string)
    requires ParseErrorPrefix <= message
    ensures ParseErrorPrefix + e == message
  {
    message[|ParseErrorPrefix|..]
  }

  /** The reply `PostHandler` encodes for a body the decoder turned into
      `decoded`. */
  function VendorReply(decoded: Result<FeatureCollection>): (r: Reply<FeatureCollection>)
    ensures r.Echo? <==> decoded.Success?
    ensures decoded.Success? ==> r == Echo(decoded.value)
    ensures decoded.Failure? ==> r == Rejected(ErrResponse(ErrInvalidJson, ParseErrorPrefix + decoded.message))
  {
    match ValidateAndParse(decoded)
    case Failure(e) => Rejected(ErrResponse(ErrInvalidJson, e))
    case Success(fc) => Echo(fc)
  }

  /** `PostHandler`. The loop over the features only logs, so the reply
      depends on the decoding outcome alone. */
  method PostHandler(writer: ResponseWriter<FeatureCollection>, vendorId: string, body: Bytes,
                     decodeCollection: Bytes -> Result<FeatureCollection>)
    requires !writer.wroteHeader
    modifies writer
    ensures writer.wroteHeader
    ensures writer.body == old(writer.body) + [VendorReply(decodeCollection(body))]
    ensures writer.status == if decodeCollection(body).Failure? then StatusBadRequest else StatusOK
  {
    var fc := ValidateAndParse(decodeCollection(body));

    if fc.Failure? {
      writer.WriteHeader(StatusBadRequest);
      var responseObj := ErrResponse(ErrInvalidJson, fc.message);
      writer.Encode(Rejected(responseObj));
      return;
    }

    writer.Encode(Echo(fc.value));
  }

  // ---- Properties ----

  /** Any decodable collection is accepted and echoed as decoded, whatever
      its geometries and coordinates and however many features it has. */
  lemma AnyCollectionAccepted(fc: FeatureCollection)
    ensures VendorReply(Success(fc)) == Echo(fc)
  {
  }

  /** The two variants disagree on bounds: a point on longitude 180 is
      refused by the single-Feature handler and accepted inside a
      collection. */
  lemma CollectionSkipsBounds(lat: real)
    requires LatitudeInRange(lat)
    ensures var f := Feature("Feature", Point(Position(180.0, lat)), map[]);
            && ParseFeature(Success(f)) == Failure(LongitudeRangeMessage)
            && VendorReply(Success(FeatureCollection("FeatureCollection", [f], map[]))).Echo?
  {
  }

  /** The request of the bad-request test: a body that does not decode gets
      400 and the wrapped decoder message. */
  method BadRequestScenario(body: Bytes, decodeCollection: Bytes -> Result<FeatureCollection>)
    returns (status: int, replies: seq<Reply<FeatureCollection>>)
    requires decodeCollection(body) == Failure("invalid character 'o' in literal null (expecting 'u')")
    ensures status == StatusBadRequest
    ensures replies == [Rejected(ErrResponse(1000, "Error parsing GeoJSON: " + "invalid character 'o' in literal null (expecting 'u')"))]
  {
    var writer := new ResponseWriter<FeatureCollection>();
    PostHandler(writer, "123", body, decodeCollection);
    status, replies := writer.status, writer.body;
  }

  /** The request of the success test: the decoded collection, with its
      foreign members, is echoed with status 200. */
  method EchoScenario(body: Bytes, decodeCollection: Bytes -> Result<FeatureCollection>)
    returns (status: int, replies: seq<Reply<FeatureCollection>>)
    requires decodeCollection(body).Success?
    ensures status == StatusOK
    ensures replies == [Echo(decodeCollection(body).value)]
  {
    var writer := new ResponseWriter<FeatureCollection>();
    PostHandler(writer, "123", body, decodeCollection);
    status, replies := writer.status, writer.body;
  }
}
