/** The values the service stores and sends: account links, idempotency records,
    outbox rows and the messages handed to the publisher. */
module Domain {

  datatype Option<+T> = None | Some(value: T)

  type Uuid = nat
  type Time = int

  const NIL_UUID: Uuid := 0

  const STATUS_PENDING := "PENDING"
  const STATUS_ACTIVE := "ACTIVE"
  const STATUS_FAILED := "FAILED"

  const EVENT_TYPE := "AccountLinkCreated"
  const AGGREGATE_TYPE := "AccountLink"

  datatype AccountLink = AccountLink(id: Uuid, userId: string, externalInstitution: string, status: string)

  datatype ValidationError = NilId | BlankUserId | BlankInstitution | UnknownStatus

  /** The first rule a link breaks, in the order the rules are tried. */
  function Validate(link: AccountLink): Option<ValidationError> {
    if link.id == NIL_UUID then Some(NilId)
    else if link.userId == "" then Some(BlankUserId)
    else if link.externalInstitution == "" then Some(BlankInstitution)
    else if link.status !in {STATUS_PENDING, STATUS_ACTIVE, STATUS_FAILED} then Some(UnknownStatus)
    else None
  }

  predicate Valid(link: AccountLink) {
    Validate(link).None?
  }

  datatype IdempotencyRecord = IdempotencyRecord(key: string, requestHash: string, accountLinkId: Uuid)

  /** The structure that is marshalled into an outbox payload. */
  datatype Payload = Payload(id: Uuid, userId: string, externalInstitution: string, status: string)

  function PayloadOf(link: AccountLink): Payload {
    Payload(link.id, link.userId, link.externalInstitution, link.status)
  }

  datatype OutboxEvent = OutboxEvent(
    id: Uuid,
    eventType: string,
    aggregateType: string,
    aggregateId: Uuid,
    payload: Payload,
    createdAt: Time,
    publishedAt: Option<Time>)

  datatype PublishedEvent = PublishedEvent(
    outboxId: Uuid,
    eventType: string,
    aggregateType: string,
    aggregateId: Uuid,
    createdAt: Time,
    publishedAt: Time,
    payload: Payload)

  function CreatedEvent(id: Uuid, link: AccountLink, at: Time): OutboxEvent {
    OutboxEvent(id, EVENT_TYPE, AGGREGATE_TYPE, link.id, PayloadOf(link), at, None)
  }

  function Message(row: OutboxEvent, now: Time): PublishedEvent {
    PublishedEvent(row.id, row.eventType, row.aggregateType, row.aggregateId, row.createdAt, now, row.payload)
  }

  /** A link is valid exactly with an identifier, a user, an institution and one of three statuses. */
  lemma ValidMeaning(link: AccountLink)
    ensures Valid(link) <==>
            && link.id != 0 && link.userId != "" && link.externalInstitution != ""
            && (link.status == "PENDING" || link.status == "ACTIVE" || link.status == "FAILED")
  {
  }

  /** What a new event says of its link. */
  lemma EventMeaning(id: Uuid, link: AccountLink, at: Time)
    ensures CreatedEvent(id, link, at) ==
            OutboxEvent(id, "AccountLinkCreated", "AccountLink", link.id,
                        Payload(link.id, link.userId, link.externalInstitution, link.status), at, None)
  {
  }
}
