# hello-http ingest pipeline, modelled in Dafny

This project models the two Go handler files of the hello-http service.

- `handler/handler.go` holds a single-Feature pipeline with two halves.
  - The ingress handler `HandleHttpPost` takes a GeoJSON Feature for `POST /vendor/{vendorId}/point`. It requires the Feature to be a point within bounds. It wraps the Feature in a `Target` (vendor, server timestamp, Feature), publishes the Target on the NATS subject `msg.targets` with a `Nats-Msg-Id` deduplication header, and echoes the Target.
  - The consumer handler `HandleTargetMessage` decodes each delivered Target. It inserts the Target into the MongoDB collection `targets` and signals Ack or Nak to JetStream.
- `handler/vendor.go` holds the older FeatureCollection variant `PostHandler`. It echoes any collection that decodes. A body that does not decode gets 400 and a wrapped error message.

Pure decisions are Dafny functions: `validatePoint`, `parseFeature`, `parseTarget`, `validateAndParse` and the reply and commit decisions. State the handlers change is held in classes:

- the response writer keeps its status, whether the header was written, and the values encoded onto it;
- the NATS connection keeps the messages it published;
- a JetStream delivery keeps the Ack/Nak signals sent for it;
- the `targets` collection keeps the documents handed to `InsertOne` and the documents it stored.

Each handler is a method. Its `ensures` gives the whole new state as a function of the inputs.

Several things are inputs to the model:

- the JSON and GeoJSON codecs, as function parameters (`Bytes -> Result<Feature>`, and so on);
- the clock reading and the fresh UUID;
- whether the NATS connection is closed;
- what the store answers to an insert.

Coordinates are `real`, because the source only compares them.

Modules: `Base` (bytes, Go `error`, result pairs), `GeoJson` (RFC 7946 values), `Points` (the pure part of handler.go), `Http`, `Nats`, `Ingress`, `Consumer`, `Vendor`, and `Pipeline` (the two halves joined through the broker).

Two behaviours of the code are worth stating plainly.

- **Unparseable deliveries are not dropped.** A poison-message policy would acknowledge an unparseable payload without a store write. Here `parseTarget` always returns a `nil` error (handler/handler.go:118), so the drop branch (handler/handler.go:92-96) is dead. The verifier proves that branch unreachable inside `Consumer.HandleTargetMessage`. The value the decoder left behind is inserted instead (`Consumer.UndecodablePayloadIsInserted`), and the signal depends only on the store's answer (`Consumer.SignalDependsOnlyOnInsert`).
- **Publish errors are not reported.** The ingress handler ignores the result of `PublishMsg` (handler/handler.go:74). With a closed connection, the submission is still echoed with status 200 and nothing is queued (`Pipeline.PublishErrorIgnored`).

## Model

| member | source | states |
|---|---|---|
| `Points.ValidatePoint` | handler/handler.go:136-148 | no error iff -90 ≤ lat ≤ 90 and -180 ≤ lon < 180; an out-of-range latitude gives the latitude message whatever the longitude; otherwise an out-of-range longitude gives the longitude message |
| `Points.PolesAndAntimeridianEdges` | handler/handler.go:139-145 | lat = ±90 and lon = -180 are accepted; lon = 180, ±90.0001 and ±180.0001 are rejected with the matching message |
| `Points.EveryMeridianHasAcceptedLongitude` | handler/handler.go:143-145 | every real longitude, shifted by some whole number of turns of 360°, lands in the accepted range |
| `Points.AcceptedLongitudeIsUnique` | handler/handler.go:143-145 | two accepted positions that differ by whole turns of longitude are the same, so the antimeridian has the single encoding -180 |
| `Points.ParseFeature` | handler/handler.go:121-134 | a decoding error is returned unchanged; a non-point geometry gives "geometry is not a point"; a point gives ValidatePoint's verdict; success iff decodes, is a point and is in bounds, and then the decoded Feature is returned |
| `Points.NonPointIgnoresBounds` | handler/handler.go:129-133 | any non-point geometry, including the null geometry of an unlocated Feature, is refused with "geometry is not a point", whatever its coordinates |
| `Points.ParseTarget` | handler/handler.go:110-119 | the error is always nil and the Target is whatever the decoder produced, even when decoding failed |
| `Http.ResponseWriter.WriteHeader` | handler/handler.go:50 | sets the status if the header is not yet written, and otherwise changes nothing; the body is unchanged |
| `Http.ResponseWriter.Encode` | handler/handler.go:57-58 | appends the encoded value; the first write fixes the status at 200 unless WriteHeader chose another |
| `Nats.NewMsg` | handler/handler.go:71 | a new message has the given subject, an empty header and no data |
| `Nats.HeaderAdd` | handler/handler.go:72 | appends a value to a key's list; all other keys are untouched |
| `Nats.HeaderGet` | handler/handler.go:83 | the first value of the key, or "" if the key is absent |
| `Nats.GetAfterAddToEmpty` | handler/handler.go:71-72 | adding one value to an empty header gives exactly `{key: [value]}`, and Get returns that value |
| `Nats.Delivery.Ack` | handler/handler.go:106 | appends Ack to the delivery's signals; its header and data are constants |
| `Nats.Delivery.Nak` | handler/handler.go:101 | appends Nak to the delivery's signals; its header and data are constants |
| `Nats.Conn.PublishMsg` | handler/handler.go:74 | an open connection appends the message and returns nil; a closed one returns an error and publishes nothing |
| `Ingress.TargetMsg` | handler/handler.go:69-73 | the published message has subject `msg.targets`, the encoded Target as data, and a header whose only key is `Nats-Msg-Id`, holding the one fresh id |
| `Ingress.IngressReply` | handler/handler.go:46-77 | the reply is `ErrResponse{1000, err}` iff ParseFeature fails, carrying its message; otherwise it echoes `Target{vendorId, now, decoded feature}` |
| `Ingress.HandleHttpPost` | handler/handler.go:37-79 | on a rejected Feature: status 400, one error body, nothing published; on an accepted Feature: status 200, the Target echoed, and exactly one TargetMsg published when the connection is open; the publish result does not change the response |
| `Ingress.EchoIffValidPoint` | handler/handler.go:63-67 | the reply is an echo iff the decoded geometry is a point within bounds; the echo carries the path vendor, the clock reading and the decoded Feature |
| `Ingress.DecodeErrorPassedThrough` | handler/handler.go:122-127 | an undecodable body is answered with the decoder's own message, with no prefix |
| `Ingress.LineOrPolygonRejected` | handler/handler.go:129-133 | a LineString or Polygon Feature is answered with code 1000 and "geometry is not a point" |
| `Ingress.ExampleSubmission` | handler/handler.go:63-77 | the point (102.0, 0.5) from vendor "123" is echoed in its Target with status 200; exactly one message goes out on `msg.targets`, carrying the fresh id |
| `Consumer.TargetsCollection.InsertOne` | handler/handler.go:98 | records the request, and stores the document exactly when the store returns an id |
| `Consumer.SignalOf` | handler/handler.go:90-106 | Nak exactly for a retry; Ack for a commit and for a drop |
| `Consumer.Dispose` | handler/handler.go:90-106 | drop iff parsing reported an error; commit iff parsing succeeded and the insert succeeded; retry iff parsing succeeded and the insert failed |
| `Consumer.HandleTargetMessage` | handler/handler.go:81-108 | exactly one signal, the one for the disposition, is appended; at most one insert is requested, and none on a drop; the decoded Target is stored exactly on a commit |
| `Consumer.NeverDropped` | handler/handler.go:110-119 | no delivery is ever dropped, because parseTarget never reports an error |
| `Consumer.SignalDependsOnlyOnInsert` | handler/handler.go:98-106 | any two payloads get the same disposition; the signal is Ack iff the insert succeeded, and Nak otherwise |
| `Consumer.UndecodablePayloadIsInserted` | handler/handler.go:110-119 | a payload that fails to decode is still committed, as the value the decoder left behind, when the store accepts it |
| `Consumer.FailedInsertScenario` | handler/handler.go:98-103 | a failed insert on a fresh delivery gives one Nak, one insert request and no stored document |
| `Vendor.ValidateAndParse` | handler/vendor.go:57-67 | succeeds iff decoding succeeded, and then returns the collection unchanged; on failure the message starts with "Error parsing GeoJSON: " and the rest is the decoder's own text |
| `Vendor.UnwrapParseError` | handler/vendor.go:61 | inverse of the wrapping: the prefix followed by the result gives back the message |
| `Vendor.VendorReply` | handler/vendor.go:31-54 | an echo of the decoded collection iff it decoded; otherwise `ErrResponse{1000, "Error parsing GeoJSON: " + err}` |
| `Vendor.PostHandler` | handler/vendor.go:23-55 | status 400 and the error body on a decoding error; status 200 and the echo otherwise; exactly one value is written |
| `Vendor.AnyCollectionAccepted` | handler/vendor.go:47-54 | every decodable collection is echoed as decoded, whatever its geometries, coordinates or feature count |
| `Vendor.CollectionSkipsBounds` | handler/vendor.go:57-67 | a point at longitude 180 is refused by the single-Feature handler but accepted inside a collection |
| `Vendor.BadRequestScenario` | handler/handler_test.go:39-54 | for the body rejected in the test: status 400 and `{Code: 1000, Message: "Error parsing GeoJSON: invalid character 'o' in literal null (expecting 'u')"}` |
| `Vendor.EchoScenario` | handler/handler_test.go:12-37 | a decodable collection is echoed once, as decoded, with status 200 |
| `Pipeline.PublishThenConsume` | handler/handler.go:63-106 | when the Target codec round-trips, the published message is consumed and the echoed Target is stored once and acknowledged |
| `Pipeline.PublishErrorIgnored` | handler/handler.go:74-77 | on a closed connection the submission is still echoed with status 200, and nothing is published |

## Left out

- main.go and server.go are not part of this model. They cover process start-up, mode selection, the HTTP listener, and NATS connection, stream and consumer set-up.
- The JSON and GeoJSON codecs (`geojson.UnmarshalFeature`, `UnmarshalFeatureCollection`, `json.Marshal`, `json.Unmarshal`, the response encoder) are opaque function parameters. Their internals come from libraries outside this repository.
- Feature `id` and `bbox` members are not represented. The handlers pass Features through without looking at them.
- `time.Now()` and `uuid.NewString()` are inputs of `HandleHttpPost`. They are a clock and a random source.
- `io.ReadAll` is not modelled: the body is an input, and its ignored read error is not modelled.
- Logging is a no-op. This includes the loop over `fc.Features` in `PostHandler` (handler/vendor.go:47-51), whose body only logs.
- handler/handler.go:47 reads `f.Type` before the error is checked. When the decoder returns a nil `*Feature` with its error, that read dereferences a nil pointer and the handler panics before line 50 writes any status, so no 400 reply is sent. The model assumes execution reaches line 49; `Ingress.HandleHttpPost` and `Ingress.DecodeErrorPassedThrough` describe the reply the code writes from there.
- Points.ParseTarget: the pair `(Target, Status)` cannot represent a nil `*Target`. For the payload `null`, `json.Unmarshal` sets the destination pointer to nil and returns a nil error, and that nil is passed to `InsertOne` (handler/handler.go:98). The model covers that insert only through the store's opaque answer.
- The 5-second insert deadline is not modelled, because the model has no time. Only the store's answer within it is modelled.
- Consumer.TargetsCollection.InsertOne: does not model a write that lands in the store although the insert reported an error (for example after the deadline).
- The errors returned by `Ack`, `Nak` and `PublishMsg` are not modelled beyond a closed connection. The source ignores all of them.
- Broker redelivery, dead-lettering, consumer concurrency and in-flight limits are outside the per-delivery decision being modelled.
- IEEE-754 specifics such as NaN are left out: coordinates are reals, and JSON cannot carry NaN.
- handler/handler_test.go calls `HandlePostPoint`, which neither core file defines. Its expectations match `PostHandler`, so the two test scenarios are stated against `PostHandler`.
- `ErrInvalidJson` and `ErrResponse` are declared in both handler files. The model declares them once, in `Http`.
