/** The consumer half of handler/handler.go: `HandleTargetMessage` decodes a
    delivered Target, inserts it into the "targets" collection and signals
    exactly one Ack or Nak. What the store answers is an input. */
module Consumer {
  import opened Base
  import opened Points
  import opened Nats

  /** What the store answers to one `InsertOne`, within its deadline. */
  datatype StoreOutcome = Inserted(insertedId: string) | InsertFailed(message: string)

  /** The "targets" collection of the "helloHttp" database: every document
      handed to `InsertOne`, and the documents it stored. */
  class TargetsCollection {
    var requested: seq<Target>
    var docs: seq<Target>

    constructor ()
      ensures requested == [] && docs == []
    {
      requested, docs := [], [];
    }

    /** `InsertOne`: the document is stored exactly when the store answers
        with an identifier. */
    method InsertOne(t: Target, outcome: StoreOutcome) returns (err: Status)
      modifies this
      ensures requested == old(requested) + [t]
      ensures docs == old(docs) + (if outcome.Inserted? then [t] else [])
      ensures err == (if outcome.Inserted? then Nil else Error(outcome.message))
    {
      requested := requested + [t];
      if outcome.Inserted? {
        docs := docs + [t];
        err := Nil;
      } else {
        err := Error(outcome.message);
      }
    }
  }

  /** How one delivery ends: stored and acknowledged, left for redelivery,
      or acknowledged without being stored. */
  datatype Disposition = Commit | RetryLater | DropPermanently

  /** The signal each disposition sends to the broker. */
  function SignalOf(d: Disposition): (s: Signal)
    ensures s == Nak <==> d == RetryLater
  {
    match d
    case Commit => Ack
    case RetryLater => Nak
    case DropPermanently => Ack
  }

  /** The disposition of a delivery whose payload `parseTarget` turned into
      `parsed`, when the store would answer `store`: a parse error drops
      the message, otherwise the store's answer decides. */
  function Dispose(parsed: (Target, Status), store: StoreOutcome): (d: Disposition)
    ensures d == DropPermanently <==> parsed.1.Error?
    ensures d == Commit <==> parsed.1.Nil? && store.Inserted?
    ensures d == RetryLater <==> parsed.1.Nil? && store.InsertFailed?
  {
    if parsed.1.Error? then DropPermanently
    else if store.InsertFailed? then RetryLater
    else Commit
  }

  /** The handler the durable consumer runs for each delivery. It sends
      exactly one signal, asks the store for at most one insert, and stores
      the decoded Target exactly when the insert succeeds. */
  method HandleTargetMessage(targets: TargetsCollection, msg: Delivery,
                             decodeTarget: Bytes -> (Target, Status), store: StoreOutcome)
    modifies targets, msg
    ensures var parsed := ParseTarget(decodeTarget(msg.data));
            var d := Dispose(parsed, store);
            && msg.signals == old(msg.signals) + [SignalOf(d)]
            && targets.requested == old(targets.requested) + (if d == DropPermanently then [] else [parsed.0])
            && targets.docs == old(targets.docs) + (if d == Commit then [parsed.0] else [])
  {
    var msgId := HeaderGet(msg.header, MsgIdHeader);

    var parsed := ParseTarget(decodeTarget(msg.data));
    var t, err := parsed.0, parsed.1;

    if err.Error? {
      // The source acknowledges and returns here; ParseTarget never reports
      // an error, and the verifier proves this branch dead.
      assert false;
    }

    var insertErr := targets.InsertOne(t, store);
    if insertErr.Error? {
      msg.Nak();
      return;
    }

    msg.Ack();
  }

  // ---- Properties of the commit decision ----

  /** `parseTarget` never reports an error, so no delivery is dropped: the
      drop branch of the handler cannot be taken. */
  lemma NeverDropped(decodeTarget: Bytes -> (Target, Status), data: Bytes, store: StoreOutcome)
    ensures Dispose(ParseTarget(decodeTarget(data)), store) != DropPermanently
  {
  }

  /** The signal depends on the store's answer alone: Ack when it inserted,
      Nak when it failed, whatever the payload. */
  lemma SignalDependsOnlyOnInsert(decodeTarget: Bytes -> (Target, Status), data1: Bytes, data2: Bytes, store: StoreOutcome)
    ensures Dispose(ParseTarget(decodeTarget(data1)), store) == Dispose(ParseTarget(decodeTarget(data2)), store)
    ensures SignalOf(Dispose(ParseTarget(decodeTarget(data1)), store)) == (if store.Inserted? then Ack else Nak)
  {
  }

  /** A payload that does not decode is nevertheless handed to the store,
      as whatever value the decoder left behind, and is acknowledged when
      the store accepts it. */
  lemma UndecodablePayloadIsInserted(decodeTarget: Bytes -> (Target, Status), data: Bytes, id: string)
    requires decodeTarget(data).1.Error?
    ensures Dispose(ParseTarget(decodeTarget(data)), Inserted(id)) == Commit
    ensures ParseTarget(decodeTarget(data)).0 == decodeTarget(data).0
  {
  }

  /** A failed insert leaves the store unchanged and asks for redelivery;
      run on a fresh delivery and collection. */
  method FailedInsertScenario(decodeTarget: Bytes -> (Target, Status), header: Header, data: Bytes, why: string)
    returns (signals: seq<Signal>, requested: seq<Target>, docs: seq<Target>)
    ensures signals == [Nak] && docs == []
    ensures requested == [decodeTarget(data).0]
  {
    var targets := new TargetsCollection();
    var msg := new Delivery(header, data);
    HandleTargetMessage(targets, msg, decodeTarget, InsertFailed(why));
    signals, requested, docs := msg.signals, targets.requested, targets.docs;
  }
}
