/**
 * `Queries.CreateTrip`: one transaction that inserts a trip row and one
 * participant row per guest email, and publishes them together or not at
 * all. The transaction's rollback is deferred, so it runs on every exit,
 * including after a successful commit, where it does nothing.
 */
module Transactions {
  import opened Wrappers
  import opened Uuids
  import opened Domain
  import opened Database

  /** Which step failed; each wraps its cause under its own message. */
  datatype CreateTripError = BeginFailed | InsertTripFailed | InsertParticipantsFailed | CommitFailed

  /**
   * What the database does during one `CreateTrip`: whether each call fails,
   * and the primary keys its generator hands out (`tripId` for the trip row,
   * `participantIds(i)` for entry `i` of the batch).
   */
  datatype Outcomes = Outcomes(
    beginFails: bool,
    tripId: Uuid,
    insertTripFails: bool,
    participantIds: nat -> Uuid,
    insertParticipantsFails: bool,
    commitFails: bool)

  /** The result of `CreateTrip`, the rows afterwards and the calls made. */
  datatype Effect = Effect(
    id: Uuid,
    err: Option<CreateTripError>,
    trips: map<Uuid, Trip>,
    participants: map<Uuid, Participant>,
    calls: seq<Call>)

  /** The trip columns copied from the request. */
  function TripParams(r: CreateTripRequest): InsertTripParams {
    InsertTripParams(r.destination, r.ownerEmail, r.ownerName, r.startAt, r.endAt)
  }

  /** The participant batch: one entry per guest email, in order, each carrying the trip id. */
  function Batch(tripId: Uuid, guestsEmails: seq<string>): seq<InviteParticipantsToTripParams> {
    seq(|guestsEmails|, i requires 0 <= i < |guestsEmails| => InviteParticipantsToTripParams(tripId, guestsEmails[i]))
  }

  /** The first step of `CreateTrip` that fails, if any: an injected failure or a key that is taken. */
  function FailedStep(
    trips: map<Uuid, Trip>, participants: map<Uuid, Participant>, n: nat, o: Outcomes
  ): Option<CreateTripError>
  {
    if o.beginFails then Some(BeginFailed)
    else if o.insertTripFails || o.tripId in trips then Some(InsertTripFailed)
    else if o.insertParticipantsFails || !FreshIds(o.participantIds, n, participants) then Some(InsertParticipantsFailed)
    else if o.commitFails then Some(CommitFailed)
    else None
  }

  /** The calls made inside the transaction, between `Begin` and the deferred `Rollback`. */
  function TxCalls(failed: Option<CreateTripError>, n: nat): seq<Call> {
    match failed
    case Some(InsertTripFailed) => [Call.InsertTrip]
    case Some(InsertParticipantsFailed) => [Call.InsertTrip, Call.InviteParticipantsToTrip(n)]
    case _ => [Call.InsertTrip, Call.InviteParticipantsToTrip(n), Call.Commit]
  }

  /** The calls `CreateTrip` makes for a batch of `n` entries when `failed` is the step that failed. */
  function CallsUntil(failed: Option<CreateTripError>, n: nat): seq<Call> {
    if failed == Some(BeginFailed) then [Call.Begin] else [Call.Begin] + TxCalls(failed, n) + [Call.Rollback]
  }

  /** The specification of `CreateTrip` on the rows before it. */
  function CreateTripSpec(
    trips: map<Uuid, Trip>, participants: map<Uuid, Participant>, params: CreateTripRequest, o: Outcomes
  ): Effect
  {
    var n := |params.guestsEmails|;
    var failed := FailedStep(trips, participants, n, o);
    if failed.Some? then
      Effect(Nil, failed, trips, participants, CallsUntil(failed, n))
    else
      Effect(o.tripId, None,
             trips[o.tripId := TripRow(o.tripId, TripParams(params))],
             participants + ParticipantRows(Batch(o.tripId, params.guestsEmails), o.participantIds),
             CallsUntil(None, n))
  }

  /** Allocates the batch and fills entry `i` from guest email `i`. */
  method BuildBatch(tripId: Uuid, guestsEmails: seq<string>) returns (batch: array<InviteParticipantsToTripParams>)
    ensures batch.Length == |guestsEmails|
    ensures forall i | 0 <= i < batch.Length :: batch[i].tripId == tripId && batch[i].email == guestsEmails[i]
  {
    // `make` fills the slice with zero values
    batch := new InviteParticipantsToTripParams[|guestsEmails|](_ => InviteParticipantsToTripParams(Nil, ""));
    var i := 0;
    while i < |guestsEmails|
      invariant 0 <= i <= |guestsEmails|
      invariant forall k | 0 <= k < i :: batch[k] == InviteParticipantsToTripParams(tripId, guestsEmails[k])
    {
      batch[i] := InviteParticipantsToTripParams(tripId, guestsEmails[i]);
      i := i + 1;
    }
  }

  method CreateTrip(store: Store, params: CreateTripRequest, o: Outcomes)
    returns (id: Uuid, err: Option<CreateTripError>)
    requires store.Valid()
    modifies store
    ensures store.Valid()
    ensures var e := CreateTripSpec(old(store.trips), old(store.participants), params, o);
            && id == e.id && err == e.err
            && store.trips == e.trips && store.participants == e.participants
            && store.log == old(store.log) + e.calls
  {
    ghost var e := CreateTripSpec(store.trips, store.participants, params, o);
    CreateTripKeepsConsistent(store.trips, store.participants, params, o);
    var tx := store.Begin(o.beginFails);
    if tx == null {
      return Nil, Some(BeginFailed);
    }
    id, err := CreateTripInTx(tx, params, o);
    tx.Rollback();  // deferred: runs on every return once the transaction has begun
    assert e.calls == [Call.Begin] + TxCalls(e.err, |params.guestsEmails|) + [Call.Rollback];
  }

  /** The body of `CreateTrip` after `Begin`: the two inserts and the commit, each returning early on failure. */
  method CreateTripInTx(tx: Tx, params: CreateTripRequest, o: Outcomes)
    returns (id: Uuid, err: Option<CreateTripError>)
    requires !o.beginFails
    requires tx.open
    requires tx.trips == tx.store.trips && tx.participants == tx.store.participants
    modifies tx, tx.store
    ensures var e := CreateTripSpec(old(tx.store.trips), old(tx.store.participants), params, o);
            && id == e.id && err == e.err
            && tx.store.trips == e.trips && tx.store.participants == e.participants
            && tx.store.log == old(tx.store.log) + TxCalls(e.err, |params.guestsEmails|)
  {
    ghost var trips0, participants0 := tx.trips, tx.participants;
    ghost var n := |params.guestsEmails|;

    var inserted := tx.InsertTrip(TripParams(params), o.tripId, o.insertTripFails);
    if inserted.Failure? {
      assert FailedStep(trips0, participants0, n, o) == Some(InsertTripFailed);
      return Nil, Some(InsertTripFailed);
    }
    var tripId := inserted.value;

    var batch := BuildBatch(tripId, params.guestsEmails);
    assert batch[..] == Batch(tripId, params.guestsEmails);

    var invited := tx.InviteParticipantsToTrip(batch, o.participantIds, o.insertParticipantsFails);
    if invited.Some? {
      assert FailedStep(trips0, participants0, n, o) == Some(InsertParticipantsFailed);
      return Nil, Some(InsertParticipantsFailed);
    }

    var committed := tx.Commit(o.commitFails);
    if committed.Some? {
      assert FailedStep(trips0, participants0, n, o) == Some(CommitFailed);
      return Nil, Some(CommitFailed);
    }
    assert FailedStep(trips0, participants0, n, o) == None;
    return tripId, None;
  }

  /** Nothing on failure: a failed creation returns the nil id and leaves every row as it was. */
  lemma CreateTripFailureChangesNothing(
    trips: map<Uuid, Trip>, participants: map<Uuid, Participant>, params: CreateTripRequest, o: Outcomes)
    requires CreateTripSpec(trips, participants, params, o).err.Some?
    ensures var e := CreateTripSpec(trips, participants, params, o);
            e.id == Nil && e.trips == trips && e.participants == participants
  {
  }

  /** On success exactly one trip is added, under an id that was free. */
  lemma CreateTripAddsOneTrip(
    trips: map<Uuid, Trip>, participants: map<Uuid, Participant>, params: CreateTripRequest, o: Outcomes)
    requires CreateTripSpec(trips, participants, params, o).err.None?
    ensures var e := CreateTripSpec(trips, participants, params, o);
            && e.id !in trips && e.trips.Keys == trips.Keys + {e.id}
            && |e.trips| == |trips| + 1
  {
  }

  /** On success exactly one participant per guest email is added, and no participant is lost. */
  lemma CreateTripAddsOneParticipantPerGuest(
    trips: map<Uuid, Trip>, participants: map<Uuid, Participant>, params: CreateTripRequest, o: Outcomes)
    requires CreateTripSpec(trips, participants, params, o).err.None?
    ensures var e := CreateTripSpec(trips, participants, params, o);
            && participants.Keys <= e.participants.Keys
            && |e.participants| == |participants| + |params.guestsEmails|
  {
    InsertedRowsKeys(participants, Batch(o.tripId, params.guestsEmails), o.participantIds);
  }

  /** No orphans: after creation, succeeded or not, every participant's trip is stored. */
  lemma CreateTripKeepsConsistent(
    trips: map<Uuid, Trip>, participants: map<Uuid, Participant>, params: CreateTripRequest, o: Outcomes)
    requires Consistent(trips, participants)
    ensures var e := CreateTripSpec(trips, participants, params, o);
            Consistent(e.trips, e.participants)
  {
    if FailedStep(trips, participants, |params.guestsEmails|, o).None? {
      var withTrip := trips[o.tripId := TripRow(o.tripId, TripParams(params))];
      assert Consistent(withTrip, participants);
      InsertedRowsConsistent(withTrip, participants, Batch(o.tripId, params.guestsEmails), o.participantIds);
    }
  }

  /**
   * The trip a successful creation adds carries the request unchanged: its
   * destination, owner and dates, unconfirmed; every trip that was there
   * before is untouched.
   */
  lemma CreateTripTripMatchesRequest(
    trips: map<Uuid, Trip>, participants: map<Uuid, Participant>, params: CreateTripRequest, o: Outcomes)
    requires CreateTripSpec(trips, participants, params, o).err.None?
    ensures var e := CreateTripSpec(trips, participants, params, o);
            && e.id == o.tripId
            && e.trips[e.id] == Trip(e.id, params.destination, params.ownerEmail, params.ownerName,
                                     params.startAt, params.endAt, false)
            && (forall k | k in trips :: e.trips[k] == trips[k])
  {
  }

  /**
   * The participants a successful creation adds carry the request unchanged:
   * the one generated for entry `i` belongs to the new trip and has guest
   * email `i`.
   */
  lemma CreateTripParticipantsMatchRequest(
    trips: map<Uuid, Trip>, participants: map<Uuid, Participant>, params: CreateTripRequest, o: Outcomes)
    requires CreateTripSpec(trips, participants, params, o).err.None?
    ensures var e := CreateTripSpec(trips, participants, params, o);
            forall i | 0 <= i < |params.guestsEmails| ::
              && o.participantIds(i) in e.participants
              && e.participants[o.participantIds(i)]
                 == Participant(o.participantIds(i), e.id, params.guestsEmails[i], false, false)
  {
    InsertedRowsAt(participants, Batch(o.tripId, params.guestsEmails), o.participantIds);
  }

  /**
   * A successful creation adds the generated keys and no others to the
   * participant table, and leaves the rows that were there before untouched.
   */
  lemma CreateTripKeepsParticipants(
    trips: map<Uuid, Trip>, participants: map<Uuid, Participant>, params: CreateTripRequest, o: Outcomes)
    requires CreateTripSpec(trips, participants, params, o).err.None?
    ensures var e := CreateTripSpec(trips, participants, params, o);
            && e.participants.Keys == participants.Keys + IdSet(o.participantIds, |params.guestsEmails|)
            && (forall k | k in participants :: e.participants[k] == participants[k])
  {
    var batch := Batch(o.tripId, params.guestsEmails);
    InsertedRowsKeys(participants, batch, o.participantIds);
    InsertedRowsAt(participants, batch, o.participantIds);
  }

  /**
   * Duplicate guest emails are not merged: two equal emails become two
   * participant rows under different keys.
   */
  lemma DuplicateEmailsKept(
    trips: map<Uuid, Trip>, participants: map<Uuid, Participant>, params: CreateTripRequest, o: Outcomes,
    i: nat, j: nat)
    requires CreateTripSpec(trips, participants, params, o).err.None?
    requires i < j < |params.guestsEmails| && params.guestsEmails[i] == params.guestsEmails[j]
    ensures var e := CreateTripSpec(trips, participants, params, o);
            && o.participantIds(i) != o.participantIds(j)
            && o.participantIds(i) in e.participants && o.participantIds(j) in e.participants
            && e.participants[o.participantIds(i)].email == e.participants[o.participantIds(j)].email
            && e.participants[o.participantIds(i)].tripId == e.participants[o.participantIds(j)].tripId == e.id
  {
    CreateTripParticipantsMatchRequest(trips, participants, params, o);
  }

  /**
   * Creation succeeds exactly when every call succeeds and the generated keys
   * are fresh; any other run reports the first step that failed.
   */
  lemma CreateTripSucceedsIff(
    trips: map<Uuid, Trip>, participants: map<Uuid, Participant>, params: CreateTripRequest, o: Outcomes)
    ensures var e := CreateTripSpec(trips, participants, params, o);
            && (e.err.None? <==>
                  && !o.beginFails
                  && !o.insertTripFails && o.tripId !in trips
                  && !o.insertParticipantsFails && FreshIds(o.participantIds, |params.guestsEmails|, participants)
                  && !o.commitFails)
            && (e.err == Some(BeginFailed) <==> o.beginFails)
            && (e.err == Some(InsertTripFailed) <==> !o.beginFails && (o.insertTripFails || o.tripId in trips))
  {
  }

  /**
   * The transaction is closed by a rollback on every exit after it began,
   * nothing is written after a failed step, and the commit is reached only
   * when both inserts succeeded.
   */
  lemma CreateTripCallOrder(
    trips: map<Uuid, Trip>, participants: map<Uuid, Participant>, params: CreateTripRequest, o: Outcomes)
    ensures var e := CreateTripSpec(trips, participants, params, o);
            && e.calls[0] == Call.Begin
            && (!o.beginFails ==> e.calls[|e.calls| - 1] == Call.Rollback)
            && (e.err == Some(BeginFailed) ==> e.calls == [Call.Begin])
            && (e.err == Some(InsertTripFailed) ==> e.calls == [Call.Begin, Call.InsertTrip, Call.Rollback])
            && (Call.Commit in e.calls <==> e.err.None? || e.err == Some(CommitFailed))
  {
  }

  /** A non-nil id is returned only after a commit that published the trip and all its participants. */
  lemma NonNilIdOnlyAfterCommit(
    trips: map<Uuid, Trip>, participants: map<Uuid, Participant>, params: CreateTripRequest, o: Outcomes)
    requires CreateTripSpec(trips, participants, params, o).id != Nil
    ensures var e := CreateTripSpec(trips, participants, params, o);
            && e.err.None? && Call.Commit in e.calls
            && e.id in e.trips
            && forall i | 0 <= i < |params.guestsEmails| ::
                 o.participantIds(i) in e.participants && e.participants[o.participantIds(i)].tripId == e.id
  {
    CreateTripParticipantsMatchRequest(trips, participants, params, o);
  }
}
