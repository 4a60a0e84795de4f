/**
 * The HTTP handlers that carry decisions: confirming a participant, creating
 * a trip, and reading a trip back. Each handler is a method over the store;
 * its decision is specified by a function of the rows before it, which the
 * lemmas below reason about.
 */
module Api {
  import opened Wrappers
  import opened Uuids
  import opened Domain
  import opened Database
  import opened Transactions

  const MsgInvalidUuid: string := "uuid inválido!"
  const MsgParticipantNotFound: string := "participant não encontrado"
  const MsgAlreadyConfirmed: string := "participant já confirmado"
  const MsgSomethingWentWrong: string := "something went wrong, try again"
  const MsgInvalidJson: string := "invalid JSON"
  const MsgInvalidInputPrefix: string := "invalid input: "
  // the misspelling is the handler's own
  const MsgCreateTripFailed: string := "failed to create trip, try againd"
  const MsgTripNotFound: string := "trip não encontrada"

  /** The trip object of `GET /trips/{id}`. */
  datatype TripDetails = TripDetails(
    id: string,
    confirmed: bool,
    destination: string,
    endAt: Timestamp,
    startAt: Timestamp)

  datatype Body = NoBody | ErrorBody(message: string) | CreatedBody(tripId: string) | TripBody(trip: TripDetails)

  datatype Response = Response(status: nat, body: Body)

  function BadRequest(message: string): Response {
    Response(400, ErrorBody(message))
  }

  const NoContent: Response := Response(204, NoBody)

  /** The response's trip object: the stored fields, the id in its textual form. */
  function Details(t: Trip): (d: TripDetails)
    ensures Parse(d.id) == Some(t.id)
    ensures d.confirmed == t.confirmed && d.destination == t.destination
    ensures d.startAt == t.startAt && d.endAt == t.endAt
  {
    ParseString(t.id);
    TripDetails(String(t.id), t.confirmed, t.destination, t.endAt, t.startAt)
  }

  // ---------------------------------------------------------------------
  // PATCH /participants/{id}/confirm

  datatype ConfirmEffect = ConfirmEffect(response: Response, participants: map<Uuid, Participant>, calls: seq<Call>)

  /**
   * Parse the id, read the participant, refuse one that is already
   * confirmed, then write the confirmation unconditionally.
   */
  function ConfirmSpec(
    participants: map<Uuid, Participant>, rawId: string, getFails: bool, confirmFails: bool
  ): ConfirmEffect
  {
    match Parse(rawId)
    case None => ConfirmEffect(BadRequest(MsgInvalidUuid), participants, [])
    case Some(id) =>
      var read := [Call.GetParticipant(id)];
      if getFails then ConfirmEffect(BadRequest(MsgSomethingWentWrong), participants, read)
      else if id !in participants then ConfirmEffect(BadRequest(MsgParticipantNotFound), participants, read)
      else if participants[id].confirmed then ConfirmEffect(BadRequest(MsgAlreadyConfirmed), participants, read)
      else
        var calls := read + [Call.ConfirmParticipant(id)];
        if confirmFails then ConfirmEffect(BadRequest(MsgSomethingWentWrong), participants, calls)
        else ConfirmEffect(NoContent, WithConfirmed(participants, id), calls)
  }

  // ---------------------------------------------------------------------
  // POST /trips

  datatype PostEffect = PostEffect(
    response: Response,
    spawned: Option<Uuid>,
    trips: map<Uuid, Trip>,
    participants: map<Uuid, Participant>,
    calls: seq<Call>)

  /**
   * Decode, validate, create, respond. `body` is None when the JSON does not
   * decode; `validationError` is the validator's message when it rejects the
   * request. `spawned` is the trip id handed to the detached mail task.
   */
  function PostTripsSpec(
    trips: map<Uuid, Trip>, participants: map<Uuid, Participant>,
    body: Option<CreateTripRequest>, validationError: Option<string>, o: Outcomes
  ): PostEffect
  {
    if body.None? then
      PostEffect(BadRequest(MsgInvalidJson), None, trips, participants, [])
    else if validationError.Some? then
      PostEffect(BadRequest(MsgInvalidInputPrefix + validationError.value), None, trips, participants, [])
    else
      var e := CreateTripSpec(trips, participants, body.value, o);
      if e.err.Some? then
        PostEffect(BadRequest(MsgCreateTripFailed), None, e.trips, e.participants, e.calls)
      else
        PostEffect(Response(201, CreatedBody(String(e.id))), Some(e.id), e.trips, e.participants, e.calls)
  }

  // ---------------------------------------------------------------------
  // GET /trips/{id}

  datatype GetEffect = GetEffect(response: Response, calls: seq<Call>)

  function GetTripsSpec(trips: map<Uuid, Trip>, rawId: string, getFails: bool): GetEffect {
    match Parse(rawId)
    case None => GetEffect(BadRequest(MsgInvalidUuid), [])
    case Some(id) =>
      var read := [Call.GetTrip(id)];
      if getFails then GetEffect(BadRequest(MsgSomethingWentWrong), read)
      else if id !in trips then GetEffect(BadRequest(MsgTripNotFound), read)
      else GetEffect(Response(200, TripBody(Details(trips[id]))), read)
  }

  class Api {
    const store: Store

    constructor (store: Store)
      ensures this.store == store
    {
      this.store := store;
    }

    method PatchParticipantsConfirm(rawId: string, getFails: bool, confirmFails: bool) returns (response: Response)
      requires store.Valid()
      modifies store
      ensures store.Valid()
      ensures var e := ConfirmSpec(old(store.participants), rawId, getFails, confirmFails);
              && response == e.response
              && store.participants == e.participants
              && store.trips == old(store.trips)
              && store.log == old(store.log) + e.calls
    {
      var parsed := Parse(rawId);
      if parsed.None? {
        return BadRequest(MsgInvalidUuid);
      }
      var id := parsed.value;

      var participant := store.GetParticipant(id, getFails);
      if participant.Failure? {
        if participant.error == ErrNoRows {
          return BadRequest(MsgParticipantNotFound);
        }
        return BadRequest(MsgSomethingWentWrong);
      }

      if participant.value.confirmed {
        return BadRequest(MsgAlreadyConfirmed);
      }

      var err := store.ConfirmParticipant(id, confirmFails);
      if err.Some? {
        return BadRequest(MsgSomethingWentWrong);
      }
      return NoContent;
    }

    method PostTrips(body: Option<CreateTripRequest>, validationError: Option<string>, o: Outcomes)
      returns (response: Response, spawned: Option<Uuid>)
      requires store.Valid()
      modifies store
      ensures store.Valid()
      ensures var e := PostTripsSpec(old(store.trips), old(store.participants), body, validationError, o);
              && response == e.response && spawned == e.spawned
              && store.trips == e.trips && store.participants == e.participants
              && store.log == old(store.log) + e.calls
    {
      if body.None? {
        return BadRequest(MsgInvalidJson), None;
      }
      if validationError.Some? {
        return BadRequest(MsgInvalidInputPrefix + validationError.value), None;
      }

      var tripId, err := CreateTrip(store, body.value, o);
      if err.Some? {
        return BadRequest(MsgCreateTripFailed), None;
      }

      // `go func() { ... }()`: the mail task is handed the id and not awaited
      spawned := Some(tripId);
      response := Response(201, CreatedBody(String(tripId)));
    }

    method GetTrips(rawId: string, getFails: bool) returns (response: Response)
      modifies store`log
      ensures var e := GetTripsSpec(store.trips, rawId, getFails);
              && response == e.response
              && store.log == old(store.log) + e.calls
    {
      var parsed := Parse(rawId);
      if parsed.None? {
        return BadRequest(MsgInvalidUuid);
      }
      var id := parsed.value;

      var trip := store.GetTrip(id, getFails);
      if trip.Failure? {
        if trip.error == ErrNoRows {
          return BadRequest(MsgTripNotFound);
        }
        return BadRequest(MsgSomethingWentWrong);
      }
      return Response(200, TripBody(Details(trip.value)));
    }
  }

  // ---------------------------------------------------------------------
  // What the confirmation handler promises

  /** A malformed id is refused before the store is read or written. */
  lemma ConfirmMalformedId(participants: map<Uuid, Participant>, rawId: string, getFails: bool, confirmFails: bool)
    requires Parse(rawId).None?
    ensures var e := ConfirmSpec(participants, rawId, getFails, confirmFails);
            e.response == BadRequest(MsgInvalidUuid) && e.participants == participants && e.calls == []
  {
  }

  /**
   * Each refusal has its own message, and the confirmation is written only
   * after the guard held: the id parsed, the row was read and it was not yet
   * confirmed. Every refusal leaves the participants as they were.
   */
  lemma ConfirmOutcomes(participants: map<Uuid, Participant>, rawId: string, getFails: bool, confirmFails: bool)
    ensures var e := ConfirmSpec(participants, rawId, getFails, confirmFails);
            && (e.response == NoContent <==>
                  Parse(rawId).Some? && !getFails && Parse(rawId).value in participants
                  && !participants[Parse(rawId).value].confirmed && !confirmFails)
            && (e.response == BadRequest(MsgParticipantNotFound) <==>
                  Parse(rawId).Some? && !getFails && Parse(rawId).value !in participants)
            && (e.response == BadRequest(MsgAlreadyConfirmed) <==>
                  Parse(rawId).Some? && !getFails && Parse(rawId).value in participants
                  && participants[Parse(rawId).value].confirmed)
            && (e.response == BadRequest(MsgInvalidUuid) <==> Parse(rawId).None?)
            && (e.response == BadRequest(MsgSomethingWentWrong) <==>
                  Parse(rawId).Some?
                  && (getFails || (Parse(rawId).value in participants
                                   && !participants[Parse(rawId).value].confirmed && confirmFails)))
            && (e.response != NoContent ==> e.participants == participants)
            && (forall k :: Call.ConfirmParticipant(k) in e.calls <==>
                  Parse(rawId) == Some(k) && !getFails && k in participants && !participants[k].confirmed)
  {
  }

  /**
   * Confirmation is one way and touches one row: no participant is added or
   * removed, none goes from confirmed to unconfirmed, and only the addressed
   * participant can change, only in its `confirmed` flag.
   */
  lemma ConfirmOneWay(participants: map<Uuid, Participant>, rawId: string, getFails: bool, confirmFails: bool)
    ensures var e := ConfirmSpec(participants, rawId, getFails, confirmFails);
            && e.participants.Keys == participants.Keys
            && (forall k | k in participants :: participants[k].confirmed ==> e.participants[k].confirmed)
            && (forall k | k in participants && Parse(rawId) != Some(k) :: e.participants[k] == participants[k])
            && (forall k | k in participants :: e.participants[k] in {participants[k], participants[k].(confirmed := true)})
  {
  }

  /** Confirming keeps the tables consistent. */
  lemma ConfirmKeepsConsistent(
    trips: map<Uuid, Trip>, participants: map<Uuid, Participant>, rawId: string, getFails: bool, confirmFails: bool)
    requires Consistent(trips, participants)
    ensures Consistent(trips, ConfirmSpec(participants, rawId, getFails, confirmFails).participants)
  {
  }

  /**
   * A second attempt is an error, not a silent success: confirming the same
   * unconfirmed participant twice gives 204 and then the already-confirmed
   * 400, and the second attempt changes nothing.
   */
  lemma ConfirmTwice(participants: map<Uuid, Participant>, rawId: string)
    requires Parse(rawId).Some? && Parse(rawId).value in participants
    requires !participants[Parse(rawId).value].confirmed
    ensures var first := ConfirmSpec(participants, rawId, false, false);
            var second := ConfirmSpec(first.participants, rawId, false, false);
            && first.response == NoContent
            && second.response == BadRequest(MsgAlreadyConfirmed)
            && second.participants == first.participants
            && first.participants[Parse(rawId).value].confirmed
  {
  }

  // ---------------------------------------------------------------------
  // What the creation handler promises

  /** A body that does not decode or validate is refused before any store call. */
  lemma PostRejectsBeforeStore(
    trips: map<Uuid, Trip>, participants: map<Uuid, Participant>,
    body: Option<CreateTripRequest>, validationError: Option<string>, o: Outcomes)
    requires body.None? || validationError.Some?
    ensures var e := PostTripsSpec(trips, participants, body, validationError, o);
            && e.response.status == 400 && e.spawned.None? && e.calls == []
            && e.trips == trips && e.participants == participants
  {
  }

  /**
   * 201 comes exactly from a successful creation, and only then is the mail
   * task handed a trip id: the one in the response, in its textual form. Any
   * other outcome is a 400 that leaves the rows as they were.
   */
  lemma PostCreatedIff(
    trips: map<Uuid, Trip>, participants: map<Uuid, Participant>,
    body: Option<CreateTripRequest>, validationError: Option<string>, o: Outcomes)
    ensures var e := PostTripsSpec(trips, participants, body, validationError, o);
            && (e.response.status == 201 <==>
                  body.Some? && validationError.None? && CreateTripSpec(trips, participants, body.value, o).err.None?)
            && (e.spawned.Some? <==> e.response.status == 201)
            && (e.spawned.Some? ==>
                  && e.response == Response(201, CreatedBody(String(e.spawned.value)))
                  && Parse(e.response.body.tripId) == e.spawned
                  && e.spawned.value in e.trips && e.spawned.value !in trips)
            && (body.Some? && validationError.None? && e.spawned.None? ==>
                  e.response == BadRequest(MsgCreateTripFailed))
            && (e.response.status != 201 ==>
                  e.response.status == 400 && e.trips == trips && e.participants == participants)
  {
    var e := PostTripsSpec(trips, participants, body, validationError, o);
    if e.spawned.Some? {
      ParseString(e.spawned.value);
      CreateTripAddsOneTrip(trips, participants, body.value, o);
    }
    if body.Some? && validationError.None? && CreateTripSpec(trips, participants, body.value, o).err.Some? {
      CreateTripFailureChangesNothing(trips, participants, body.value, o);
    }
  }

  // ---------------------------------------------------------------------
  // What the reading handler promises

  /** Each outcome of `GET /trips/{id}` and what leads to it; a malformed id is not looked up. */
  lemma GetTripsOutcomes(trips: map<Uuid, Trip>, rawId: string, getFails: bool)
    ensures var e := GetTripsSpec(trips, rawId, getFails);
            && (e.response.status == 200 <==> Parse(rawId).Some? && !getFails && Parse(rawId).value in trips)
            && (e.response == BadRequest(MsgInvalidUuid) <==> Parse(rawId).None?)
            && (e.response == BadRequest(MsgTripNotFound) <==>
                  Parse(rawId).Some? && !getFails && Parse(rawId).value !in trips)
            && (e.response == BadRequest(MsgSomethingWentWrong) <==> Parse(rawId).Some? && getFails)
            && (e.calls == [] <==> Parse(rawId).None?)
  {
  }

  /**
   * The trip object copies the stored row unchanged, and its id is the
   * requested id in canonical lower-case form.
   */
  lemma GetTripsCopiesRow(
    trips: map<Uuid, Trip>, participants: map<Uuid, Participant>, rawId: string)
    requires Consistent(trips, participants)
    requires Parse(rawId).Some? && Parse(rawId).value in trips
    ensures var t := trips[Parse(rawId).value];
            GetTripsSpec(trips, rawId, false).response
            == Response(200, TripBody(TripDetails(Lower(rawId), t.confirmed, t.destination, t.endAt, t.startAt)))
  {
    StringParse(rawId);
  }

  /**
   * Reading back a trip just created, by the id the creation answered with,
   * gives the request's destination and dates, unconfirmed, under that id.
   */
  lemma PostThenGet(
    trips: map<Uuid, Trip>, participants: map<Uuid, Participant>, request: CreateTripRequest, o: Outcomes)
    requires PostTripsSpec(trips, participants, Some(request), None, o).response.status == 201
    ensures var e := PostTripsSpec(trips, participants, Some(request), None, o);
            var text := e.response.body.tripId;
            GetTripsSpec(e.trips, text, false).response
            == Response(200, TripBody(TripDetails(text, false, request.destination, request.endAt, request.startAt)))
  {
    CreateTripTripMatchesRequest(trips, participants, request, o);
    ParseString(o.tripId);
  }

  /**
   * The sequential scenario of confirming one participant twice, run against
   * the store: the first call confirms, the second is refused.
   */
  method ConfirmTwiceOnStore(api: Api, rawId: string) returns (first: Response, second: Response)
    requires api.store.Valid()
    requires Parse(rawId).Some? && Parse(rawId).value in api.store.participants
    requires !api.store.participants[Parse(rawId).value].confirmed
    modifies api.store
    ensures api.store.Valid()
    ensures first == NoContent && second == BadRequest(MsgAlreadyConfirmed)
    ensures api.store.participants == WithConfirmed(old(api.store.participants), Parse(rawId).value)
    ensures api.store.trips == old(api.store.trips)
  {
    ConfirmTwice(api.store.participants, rawId);
    first := api.PatchParticipantsConfirm(rawId, false, false);
    second := api.PatchParticipantsConfirm(rawId, false, false);
  }
}
