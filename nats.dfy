/** What the handlers see of the NATS client: message headers, messages,
    the publishing connection and a delivered JetStream message. */
module Nats {
  import opened Base

  /** The subject the ingress handler publishes on. */
  const TargetsSubject := "msg.targets"

  /** The header carrying the deduplication identifier. */
  const MsgIdHeader := "Nats-Msg-Id"

  const ConnectionClosedMessage := "nats: connection closed"

  /** `nats.Header`: every key maps to the list of its values. */
  type Header = map<string, seq<string>>

  /** `Header.Add`: appends `value` to the values of `key`. */
  function HeaderAdd(h: Header, key: string, value: string): (r: Header)
    ensures key in r && |r[key]| >= 1 && r[key][|r[key]| - 1] == value
    ensures key in h ==> r[key][..|r[key]| - 1] == h[key]
    ensures key !in h ==> r[key] == [value]
    ensures forall k :: k in h && k != key ==> k in r && r[k] == h[k]
    ensures r.Keys == h.Keys + {key}
  {
    h[key := (if key in h then h[key] else []) + [value]]
  }

  /** `Header.Get`: the first value of `key`, or "" when it has none. */
  function HeaderGet(h: Header, key: string): (v: string)
    ensures key in h && h[key] != [] ==> v == h[key][0]
    ensures key !in h ==> v == ""
  {
    if key in h && h[key] != [] then h[key][0] else ""
  }

  datatype Msg = Msg(subject: string, header: Header, data: Bytes)

  /** `nats.NewMsg`: a message on `subject` with an empty header and no data. */
  function NewMsg(subject: string): (m: Msg)
    ensures m.subject == subject && m.header == map[] && m.data == []
  {
    Msg(subject, map[], [])
  }

  lemma {:induction false} GetAfterAddToEmpty(key: string, value: string)
    ensures HeaderGet(HeaderAdd(map[], key, value), key) == value
    ensures HeaderAdd(map[], key, value) == map[key := [value]]
  {
    assert HeaderAdd(map[], key, value)[key] == [value];
  }

  /** `nats.Conn` on the publishing side: the messages the server has
      accepted from it, in order. Once closed it refuses every publish. */
  class Conn {
    var closed: bool
    var published: seq<Msg>

    constructor (closed: bool)
      ensures this.closed == closed && published == []
    {
      this.closed := closed;
      published := [];
    }

    /** `PublishMsg`: hands `m` to the server, or fails on a closed
        connection. */
    method PublishMsg(m: Msg) returns (err: Status)
      modifies this
      ensures closed == old(closed)
      ensures err == (if closed then Error(ConnectionClosedMessage) else Nil)
      ensures published == old(published) + (if closed then [] else [m])
    {
      if closed {
        err := Error(ConnectionClosedMessage);
      } else {
        published := published + [m];
        err := Nil;
      }
    }
  }

  /** The completion signals a consumer may send for a delivery. */
  datatype Signal = Ack | Nak

  /** `jetstream.Msg`: one delivery of a stored message, and the completion
      signals the handler has sent for it. */
  class Delivery {
    const header: Header
    const data: Bytes
    var signals: seq<Signal>

    constructor (header: Header, data: Bytes)
      ensures this.header == header && this.data == data && signals == []
    {
      this.header := header;
      this.data := data;
      signals := [];
    }

    method Ack()
      modifies this
      ensures signals == old(signals) + [Signal.Ack]
    {
      signals := signals + [Signal.Ack];
    }

    method Nak()
      modifies this
      ensures signals == old(signals) + [Signal.Nak]
    {
      signals := signals + [Signal.Nak];
    }
  }
}
