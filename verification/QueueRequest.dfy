/** What the store does to the strings of a request before it decides anything. */
module QueueRequest {
  import opened Text
  import opened QueueModel

  function TrimPosted(e: Envelope): Envelope {
    e.(id := Trim(e.id), sender := Trim(e.sender), recipient := Trim(e.recipient),
       payload := Trim(e.payload), recipientTag := Trim(e.recipientTag), senderTag := Trim(e.senderTag))
  }

  const MAX_ACK_REASON_BYTES := 64

  /** An overlong rejection marker is dropped rather than refused. */
  function BoundedReason(reason: string): string {
    if Utf8Len(Trim(reason)) > MAX_ACK_REASON_BYTES then "" else Trim(reason)
  }

  function TrimAck(a: Ack): Ack {
    a.(id := Trim(a.id), messageId := Trim(a.messageId), sender := Trim(a.sender),
       recipient := Trim(a.recipient), senderTag := Trim(a.senderTag), reason := BoundedReason(a.reason))
  }

  /** Replicated records keep their tags as they came. */
  function TrimImported(e: Envelope): Envelope {
    e.(id := Trim(e.id), sender := Trim(e.sender), recipient := Trim(e.recipient), payload := Trim(e.payload))
  }

  function TrimImportedAck(a: Ack): Ack {
    a.(id := Trim(a.id), messageId := Trim(a.messageId), sender := Trim(a.sender),
       recipient := Trim(a.recipient), reason := BoundedReason(a.reason))
  }

  function TrimPage(page: Page): Page {
    page.(messages := seq(|page.messages|, i requires 0 <= i < |page.messages| => TrimImported(page.messages[i])),
          acks := seq(|page.acks|, i requires 0 <= i < |page.acks| => TrimImportedAck(page.acks[i])))
  }

  /** The call the store makes of a request. */
  function TrimCall(op: Op): Op {
    match op
    case Post(e, nodeId, grant, now) => Post(TrimPosted(e), nodeId, grant, now)
    case Acknowledge(a, nodeId, grant, auth, now) => Acknowledge(TrimAck(a), nodeId, grant, auth, now)
    case FetchMessages(recipient, now) => FetchMessages(Trim(recipient), now)
    case FetchAcks(sender, now) => FetchAcks(Trim(sender), now)
    case Snapshot(now) => Snapshot(now)
    case Import(page, now) => Import(TrimPage(page), now)
    case Prune(now) => Prune(now)
    case PurgeByOwner(hash, now) => PurgeByOwner(Trim(hash), now)
  }

  function TrimCalls(ops: seq<Op>): seq<Op> { seq(|ops|, i requires 0 <= i < |ops| => TrimCall(ops[i])) }
}
