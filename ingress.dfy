/** The ingress half of handler/handler.go: `HandleHttpPost` validates the
    submitted Feature, wraps it in a Target, publishes the Target on
    "msg.targets" and echoes it. The clock reading, the fresh UUID and the
    JSON codec are inputs. */
module Ingress {
  import opened Base
  import opened GeoJson
  import opened Points
  import opened Http
  import opened Nats

  /** The message published for an accepted Target: subject "msg.targets",
      one deduplication header, the encoded Target as payload. */
  function TargetMsg(t: Target, encodeTarget: Target -> Bytes, msgId: string): (m: Msg)
    ensures m.subject == TargetsSubject && m.data == encodeTarget(t)
    ensures m.header.Keys == {MsgIdHeader} && m.header[MsgIdHeader] == [msgId]
    ensures HeaderGet(m.header, MsgIdHeader) == msgId
  {
    GetAfterAddToEmpty(MsgIdHeader, msgId);
    var msg := NewMsg(TargetsSubject);
    msg.(header := HeaderAdd(msg.header, MsgIdHeader, msgId), data := encodeTarget(t))
  }

  /** The reply the handler encodes for a submission that the decoder turned
      into `decoded`. */
  function IngressReply(vendorId: string, decoded: Result<Feature>, now: Timestamp): (r: Reply<Target>)
    ensures r.Rejected? <==> ParseFeature(decoded).Failure?
    ensures r.Rejected? ==> r.err == ErrResponse(ErrInvalidJson, ParseFeature(decoded).message)
    ensures r.Echo? ==> decoded.Success? && r.value == Target(vendorId, now, decoded.value)
  {
    match ParseFeature(decoded)
    case Failure(e) => Rejected(ErrResponse(ErrInvalidJson, e))
    case Success(f) => Echo(Target(vendorId, now, f))
  }

  /** The handler registered for `POST /vendor/{vendorId}/point`, with the
      connection it captures passed as `nc`. A rejected submission gets 400
      and the error body and publishes nothing; an accepted one publishes
      exactly one message and is echoed with status 200, whether or not
      the publish succeeded. */
  method HandleHttpPost(nc: Conn, writer: ResponseWriter<Target>,
                        vendorId: string, body: Bytes,
                        decodeFeature: Bytes -> Result<Feature>, encodeTarget: Target -> Bytes,
                        now: Timestamp, msgId: string)
    requires !writer.wroteHeader
    modifies nc, writer
    ensures nc.closed == old(nc.closed) && writer.wroteHeader
    ensures writer.body == old(writer.body) + [IngressReply(vendorId, decodeFeature(body), now)]
    ensures writer.status == if ParseFeature(decodeFeature(body)).Failure? then StatusBadRequest else StatusOK
    ensures nc.published == old(nc.published) +
      (match ParseFeature(decodeFeature(body))
       case Failure(_) => []
       case Success(f) =>
         if nc.closed then [] else [TargetMsg(Target(vendorId, now, f), encodeTarget, msgId)])
  {
    var f := ParseFeature(decodeFeature(body));
    if f.Failure? {
      writer.WriteHeader(StatusBadRequest);
      var responseObj := ErrResponse(ErrInvalidJson, f.message);
      writer.Encode(Rejected(responseObj));
      return;
    }

    var target := Target(vendorId, now, f.value);
    var data := encodeTarget(target);

    var msg := NewMsg(TargetsSubject);
    msg := msg.(header := HeaderAdd(msg.header, MsgIdHeader, msgId));
    msg := msg.(data := data);
    var _ := nc.PublishMsg(msg);

    writer.Encode(Echo(target));
  }

  // ---- Properties of the reply ----

  /** The reply is an echo exactly when the decoded Feature is a point
      within bounds, and the echo carries the vendor from the path, the
      clock reading and the decoded Feature itself. */
  lemma EchoIffValidPoint(vendorId: string, decoded: Result<Feature>, now: Timestamp)
    ensures IngressReply(vendorId, decoded, now).Echo? <==>
              decoded.Success? && decoded.value.geometry.Point? && InBounds(decoded.value.geometry.coordinates)
    ensures IngressReply(vendorId, decoded, now).Echo? ==>
              IngressReply(vendorId, decoded, now).value == Target(vendorId, now, decoded.value)
  {
  }

  /** An undecodable body is answered with the decoder's own message,
      without any prefix. */
  lemma DecodeErrorPassedThrough(vendorId: string, message: string, now: Timestamp)
    ensures IngressReply(vendorId, Failure(message), now) == Rejected(ErrResponse(ErrInvalidJson, message))
  {
  }

  /** A LineString or Polygon Feature is refused with "geometry is not a
      point". */
  lemma LineOrPolygonRejected(vendorId: string, f: Feature, now: Timestamp)
    requires f.geometry.LineString? || f.geometry.Polygon?
    ensures IngressReply(vendorId, Success(f), now) == Rejected(ErrResponse(ErrInvalidJson, NotAPointMessage))
  {
  }

  /** An accepted point submission: (102.0, 0.5) from vendor "123" is
      echoed inside its Target and published once. */
  method ExampleSubmission(decodeFeature: Bytes -> Result<Feature>, encodeTarget: Target -> Bytes,
                           body: Bytes, now: Timestamp, msgId: string)
    returns (status: int, replies: seq<Reply<Target>>, published: seq<Msg>)
    requires decodeFeature(body) ==
      Success(Feature("Feature", Point(Position(102.0, 0.5)), map["prop0" := String("value0")]))
    ensures status == StatusOK
    ensures replies == [Echo(Target("123", now, Feature("Feature", Point(Position(102.0, 0.5)), map["prop0" := String("value0")])))]
    ensures |published| == 1 && published[0].subject == TargetsSubject
    ensures HeaderGet(published[0].header, MsgIdHeader) == msgId
  {
    var nc := new Conn(false);
    var writer := new ResponseWriter<Target>();
    HandleHttpPost(nc, writer, "123", body, decodeFeature, encodeTarget, now, msgId);
    status, replies, published := writer.status, writer.body, nc.published;
  }
}
