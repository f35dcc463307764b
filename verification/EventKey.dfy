/** The dedupe key and its two readers: the consumer that writes it
    (pkg/kafkax) and the dead-letter store that takes it apart again
    (pkg/deadletter). */
module EventKey {
  import opened Text

  /** What a consumer is handed. */
  datatype Envelope = Envelope(
    eventId: int, tenantId: int, aggregateType: string, aggregateId: string,
    eventType: string, payload: string, traceId: string)

  /** One row of failed_events, without its reason and its time. */
  datatype Parked = Parked(
    id: nat, tenantId: int, eventKey: string, group: string,
    eventType: string, aggregateId: string, payload: string)

  datatype Readable = Unreadable | Env(env: Envelope)

  function DedupeKey(e: Envelope): string {
    KeyOf(e.aggregateType, e.eventId)
  }

  function KeyOf(aggregateType: string, eventId: int): string {
    aggregateType + ":" + FormatInt(eventId)
  }

  /** The row `Park` writes for an event (its tenant is checked by `Park`). */
  function RowFor(id: nat, group: string, e: Envelope): Parked {
    Parked(id, e.tenantId, DedupeKey(e), group, e.eventType, e.aggregateId, e.payload)
  }

  /** `envelopeOf`, followed by the adaptation in `ReplayHandler`: the trace id
      is not kept in the row, so a replayed envelope carries an empty one. */
  function EnvelopeOf(p: Parked): Readable {
    var i := LastIndex(p.eventKey, ':');
    if i < 1 then Unreadable
    else
      match ParseInt(p.eventKey[i + 1..])
      case None => Unreadable
      case Some(n) =>
        Env(Envelope(n, p.tenantId, p.eventKey[..i], p.aggregateId, p.eventType, p.payload, ""))
  }

  lemma KeySplits(aggregateType: string, eventId: int)
    ensures LastIndex(KeyOf(aggregateType, eventId), ':') == |aggregateType|
    ensures KeyOf(aggregateType, eventId)[..|aggregateType|] == aggregateType
    ensures KeyOf(aggregateType, eventId)[|aggregateType| + 1..] == FormatInt(eventId)
  {
    var key := KeyOf(aggregateType, eventId);
    var tail := FormatInt(eventId);
    var digits := Decimal(if eventId < 0 then -eventId else eventId);
    forall k | |aggregateType| < k < |key| ensures key[k] != ':' {
      var j := k - |aggregateType| - 1;
      assert key[k] == tail[j];
      assert eventId < 0 ==> tail[j] == '-' || tail[j] == digits[j - 1];
      assert eventId >= 0 ==> tail[j] == digits[j];
    }
    LastIndexUnique(key, ':', |aggregateType|);
  }

  /** A parked row gives back the event it was parked for, and therefore the
      replay claims under the key of the first delivery. Only an event without
      an aggregate type is unreadable, and the outbox never accepts one. */
  lemma KeyRoundTrip(id: nat, group: string, e: Envelope)
    requires IsInt64(e.eventId)
    ensures EnvelopeOf(RowFor(id, group, e)) ==
            if e.aggregateType == "" then Unreadable else Env(e.(traceId := ""))
  {
    KeySplits(e.aggregateType, e.eventId);
    ParseOfFormat(e.eventId);
  }

  /** Two events share a key exactly when they are the same event. */
  lemma KeyInjective(a: Envelope, b: Envelope)
    ensures DedupeKey(a) == DedupeKey(b) <==>
            a.aggregateType == b.aggregateType && a.eventId == b.eventId
  {
    if DedupeKey(a) == DedupeKey(b) {
      KeySplits(a.aggregateType, a.eventId);
      KeySplits(b.aggregateType, b.eventId);
      FormatInjective(a.eventId, b.eventId);
    }
  }
}
