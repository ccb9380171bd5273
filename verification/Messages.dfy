/** The vocabulary the services share: identifiers, statuses and the envelope a message travels in. */
module Messages {
  type Id = string
  type Time = int

  /** The instant the language runtime uses for "not set". */
  const ZERO_TIME: Time := 0

  /** One vocabulary for event and registration statuses; `Absent` is a payload field that is not there. */
  datatype Status = Absent | NotJoined | Confirmed | Waitlisted | Canceled | Published

  datatype Routing =
    | EventPublished
    | EventUpdated
    | EventCanceled
    | JoinConfirmed
    | JoinWaitlisted
    | JoinCanceled
    | JoinPromoted
    | Other(key: string)
  {
    predicate IsJoin() {
      JoinConfirmed? || JoinWaitlisted? || JoinCanceled? || JoinPromoted?
    }

    predicate IsEvent() {
      EventPublished? || EventUpdated? || EventCanceled?
    }
  }

  datatype StartsAt = Missing | At(time: Time) | Malformed

  datatype Payload =
    | Nil
    | Fields(eventId: Id, registrationId: Id, userId: Id, organizerId: Id, title: string, city: string,
             venue: string, startsAt: StartsAt, capacity: int, status: Status, waitlistPosition: int,
             previousStatus: Status)
  {
    /** The `eventId` field, empty when it is not there. */
    function EventId(): Id { if Nil? then "" else eventId }

    function PreviousStatus(): Status { if Nil? then Absent else previousStatus }
  }

  datatype Envelope = Envelope(messageId: Id, routing: Routing, aggregateType: string, aggregateId: Id,
                               occurredAt: Time, payload: Payload)
  {
    predicate Valid() {
      && messageId != ""
      && routing != Other("")
      && aggregateType != ""
      && aggregateId != ""
      && occurredAt != ZERO_TIME
      && payload != Nil
    }
  }
}
