/** The two halves of handler/handler.go joined through the broker: the
    message published for an accepted submission, delivered to the consumer,
    stores the very Target that was echoed, provided the Target codec
    round-trips. */
module Pipeline {
  import opened Base
  import opened GeoJson
  import opened Points
  import opened Http
  import opened Nats
  import opened Ingress
  import opened Consumer

  /** Publishing an accepted submission and consuming the published message
      stores the echoed Target once and acknowledges the delivery. */
  method PublishThenConsume(vendorId: string, body: Bytes,
                            decodeFeature: Bytes -> Result<Feature>,
                            encodeTarget: Target -> Bytes, decodeTarget: Bytes -> (Target, Status),
                            now: Timestamp, msgId: string, insertedId: string)
    returns (echoed: seq<Reply<Target>>, stored: seq<Target>, signals: seq<Signal>)
    requires ParseFeature(decodeFeature(body)).Success?
    requires decodeTarget(encodeTarget(Target(vendorId, now, decodeFeature(body).value))) ==
               (Target(vendorId, now, decodeFeature(body).value), Nil)
    ensures echoed == [Echo(Target(vendorId, now, decodeFeature(body).value))]
    ensures stored == [Target(vendorId, now, decodeFeature(body).value)]
    ensures signals == [Ack]
  {
    var nc := new Conn(false);
    var writer := new ResponseWriter<Target>();
    HandleHttpPost(nc, writer, vendorId, body, decodeFeature, encodeTarget, now, msgId);
    var m := nc.published[0];

    var targets := new TargetsCollection();
    var delivery := new Delivery(m.header, m.data);
    HandleTargetMessage(targets, delivery, decodeTarget, Inserted(insertedId));
    echoed, stored, signals := writer.body, targets.docs, delivery.signals;
  }

  /** A publish on a closed connection is not reported: the submission is
      still echoed with status 200 though nothing was queued. */
  method PublishErrorIgnored(vendorId: string, body: Bytes,
                             decodeFeature: Bytes -> Result<Feature>, encodeTarget: Target -> Bytes,
                             now: Timestamp, msgId: string)
    returns (status: int, echoed: seq<Reply<Target>>, published: seq<Msg>)
    requires ParseFeature(decodeFeature(body)).Success?
    ensures status == StatusOK && published == []
    ensures echoed == [Echo(Target(vendorId, now, decodeFeature(body).value))]
  {
    var nc := new Conn(true);
    var writer := new ResponseWriter<Target>();
    HandleHttpPost(nc, writer, vendorId, body, decodeFeature, encodeTarget, now, msgId);
    status, echoed, published := writer.status, writer.body, nc.published;
  }
}
