/** The envelopes carried by the event bus. Timestamps are in nanoseconds. */
module Events {
  import opened Wrappers

  type EventType = string

  const INBOUND_TYPES: seq<EventType> := [
    "inbound.message", "inbound.reaction", "inbound.edit",
    "inbound.redaction", "inbound.membership", "inbound.receipt"
  ]

  datatype Attachment = Attachment(url: string, mimeType: string, filename: string)

  datatype Payload =
    | Message(eventID: string, senderID: string, body: string, inReplyTo: string,
              attachment: Option<Attachment>, timestamp: int)
    | Reaction(eventID: string, senderID: string, relatesTo: string, key: string, timestamp: int)
    | Edit(eventID: string, senderID: string, relatesTo: string, newBody: string, timestamp: int)
    | Redaction(eventID: string, senderID: string, redacts: string, reason: string, timestamp: int)
    | Membership(eventID: string, userID: string, membership: string, timestamp: int)
    | Receipt(eventID: string, userID: string, receiptType: string, timestamp: int)
    | Internal(detail: string)  // delivery, correlation and crypto events

  datatype Envelope = Envelope(eventType: EventType, accountID: string, roomID: string, payload: Payload)

  const MILLISECOND: nat := 1_000_000

  /** time.Time.UnixMilli: rounds towards minus infinity. */
  function UnixMilli(ns: int): int {
    ns / MILLISECOND
  }
}
