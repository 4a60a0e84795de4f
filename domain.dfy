/**
 * The rows of the two tables, `trip` and `participant`, and the request that
 * creates a trip.
 */
module Domain {
  import opened Uuids

  /**
   * An instant, in UTC at microsecond precision. The `timestamp` columns keep
   * no zone and no digits below a microsecond; this model does not represent
   * either, so it covers only instants the column stores exactly.
   */
  type Timestamp = int

  datatype Trip = Trip(
    id: Uuid,
    destination: string,
    ownerEmail: string,
    ownerName: string,
    startAt: Timestamp,
    endAt: Timestamp,
    confirmed: bool)

  datatype Participant = Participant(
    id: Uuid,
    tripId: Uuid,
    email: string,
    confirmed: bool,
    isOwner: bool)

  /** The decoded body of `POST /trips`. */
  datatype CreateTripRequest = CreateTripRequest(
    destination: string,
    ownerEmail: string,
    ownerName: string,
    startAt: Timestamp,
    endAt: Timestamp,
    guestsEmails: seq<string>)

  /** The columns the trip insert supplies; the database fills in the id and `confirmed`. */
  datatype InsertTripParams = InsertTripParams(
    destination: string,
    ownerEmail: string,
    ownerName: string,
    startAt: Timestamp,
    endAt: Timestamp)

  /** One entry of the participant batch. */
  datatype InviteParticipantsToTripParams = InviteParticipantsToTripParams(tripId: Uuid, email: string)

  /**
   * What the schema guarantees of the stored rows: each row sits under its
   * own primary key, and each participant's `trip_id` refers to a stored trip.
   */
  predicate Consistent(trips: map<Uuid, Trip>, participants: map<Uuid, Participant>) {
    && (forall id | id in trips :: trips[id].id == id)
    && (forall id | id in participants :: participants[id].id == id && participants[id].tripId in trips)
  }
}
