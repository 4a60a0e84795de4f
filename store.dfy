/**
 * The relational store behind the sqlc-generated queries, reduced to its two
 * tables. Every call that can fail takes the outcome as a parameter (`fails`),
 * and values the database generates (primary keys) are parameters too. The
 * ghost `log` records which calls were made, so that a handler's contract can
 * say what it did not read or write.
 */
module Database {
  import opened Wrappers
  import opened Uuids
  import opened Domain

  /** The two error classes the handlers tell apart: `pgx.ErrNoRows` and any other failure. */
  datatype DbError = ErrNoRows | ErrOther

  /** One call into the database. */
  datatype Call =
    | Begin
    | InsertTrip
    | InviteParticipantsToTrip(rows: nat)
    | Commit
    | Rollback
    | GetTrip(tripId: Uuid)
    | GetParticipant(participantId: Uuid)
    | ConfirmParticipant(participantId: Uuid)

  /** The row a successful trip insert adds under `id`; `confirmed` takes its default, false. */
  function TripRow(id: Uuid, p: InsertTripParams): Trip {
    Trip(id, p.destination, p.ownerEmail, p.ownerName, p.startAt, p.endAt, false)
  }

  /** The row a batch entry becomes under `id`; `confirmed` and `is_owner` take their defaults. */
  function ParticipantRow(id: Uuid, p: InviteParticipantsToTripParams): Participant {
    Participant(id, p.tripId, p.email, false, false)
  }

  /** The rows a batch insert adds, entry `i` under the generated key `ids(i)`. */
  function ParticipantRows(batch: seq<InviteParticipantsToTripParams>, ids: nat -> Uuid): map<Uuid, Participant>
  {
    if batch == [] then map[]
    else
      var n := |batch| - 1;
      ParticipantRows(batch[..n], ids)[ids(n) := ParticipantRow(ids(n), batch[n])]
  }

  /** The first `n` generated keys are pairwise distinct. */
  predicate DistinctIds(ids: nat -> Uuid, n: nat) {
    forall i, j | 0 <= i < j < n :: ids(i) != ids(j)
  }

  /** The first `n` generated keys are pairwise distinct and none is taken yet. */
  predicate FreshIds<V>(ids: nat -> Uuid, n: nat, taken: map<Uuid, V>) {
    && (forall i | 0 <= i < n :: ids(i) !in taken)
    && DistinctIds(ids, n)
  }

  /** The first `n` generated keys. */
  function IdSet(ids: nat -> Uuid, n: nat): set<Uuid> {
    set i | 0 <= i < n :: ids(i)
  }

  /** The participant map after the unconditional confirm write. */
  function WithConfirmed(participants: map<Uuid, Participant>, id: Uuid): map<Uuid, Participant> {
    if id in participants then participants[id := participants[id].(confirmed := true)] else participants
  }

  class Store {
    var trips: map<Uuid, Trip>
    var participants: map<Uuid, Participant>
    ghost var log: seq<Call>

    ghost predicate Valid()
      reads this`trips, this`participants
    {
      Consistent(trips, participants)
    }

    constructor ()
      ensures Valid() && trips == map[] && participants == map[] && log == []
    {
      trips, participants, log := map[], map[], [];
    }

    /** `pool.Begin`: a transaction working on a copy of the current rows. */
    method Begin(fails: bool) returns (tx: Tx?)
      modifies this`log
      ensures log == old(log) + [Call.Begin]
      ensures fails <==> tx == null
      ensures tx != null ==> fresh(tx) && tx.store == this && tx.open
                             && tx.trips == trips && tx.participants == participants
    {
      log := log + [Call.Begin];
      if fails {
        tx := null;
      } else {
        tx := new Tx(this);
      }
    }

    /** `GetTrip`: the row under `tripId`, `ErrNoRows` when there is none. */
    method GetTrip(tripId: Uuid, fails: bool) returns (r: Result<Trip, DbError>)
      modifies this`log
      ensures log == old(log) + [Call.GetTrip(tripId)]
      ensures r == if fails then Failure(ErrOther)
                   else if tripId in trips then Success(trips[tripId])
                   else Failure(ErrNoRows)
    {
      log := log + [Call.GetTrip(tripId)];
      if fails {
        r := Failure(ErrOther);
      } else if tripId in trips {
        r := Success(trips[tripId]);
      } else {
        r := Failure(ErrNoRows);
      }
    }

    /** `GetParticipant`: the row under `participantId`, `ErrNoRows` when there is none. */
    method GetParticipant(participantId: Uuid, fails: bool) returns (r: Result<Participant, DbError>)
      modifies this`log
      ensures log == old(log) + [Call.GetParticipant(participantId)]
      ensures r == if fails then Failure(ErrOther)
                   else if participantId in participants then Success(participants[participantId])
                   else Failure(ErrNoRows)
    {
      log := log + [Call.GetParticipant(participantId)];
      if fails {
        r := Failure(ErrOther);
      } else if participantId in participants {
        r := Success(participants[participantId]);
      } else {
        r := Failure(ErrNoRows);
      }
    }

    /**
     * `ConfirmParticipant`: an unconditional `UPDATE ... SET confirmed = true`
     * on the row under `participantId`; a missing row updates nothing.
     */
    method ConfirmParticipant(participantId: Uuid, fails: bool) returns (err: Option<DbError>)
      requires Valid()
      modifies this`participants, this`log
      ensures Valid()
      ensures log == old(log) + [Call.ConfirmParticipant(participantId)]
      ensures err.Some? <==> fails
      ensures participants == if fails then old(participants) else WithConfirmed(old(participants), participantId)
    {
      log := log + [Call.ConfirmParticipant(participantId)];
      if fails {
        err := Some(ErrOther);
      } else {
        participants := WithConfirmed(participants, participantId);
        err := None;
      }
    }
  }

  /**
   * A pgx transaction. Its writes go to a working copy of the rows; `Commit`
   * publishes the copy to the store and `Rollback` discards it.
   */
  class Tx {
    const store: Store
    var open: bool
    var trips: map<Uuid, Trip>
    var participants: map<Uuid, Participant>

    constructor (store: Store)
      ensures this.store == store && open
      ensures trips == store.trips && participants == store.participants
    {
      this.store := store;
      open := true;
      trips := store.trips;
      participants := store.participants;
    }

    /** `InsertTrip`: adds one row under the generated key `newId` and returns that key. */
    method InsertTrip(p: InsertTripParams, newId: Uuid, fails: bool) returns (r: Result<Uuid, DbError>)
      requires open
      modifies this`trips, store`log
      ensures store.log == old(store.log) + [Call.InsertTrip]
      ensures r.Success? <==> !fails && newId !in old(trips)
      ensures r.Success? ==> r.value == newId && trips == old(trips)[newId := TripRow(newId, p)]
      ensures r.Failure? ==> trips == old(trips)
    {
      store.log := store.log + [Call.InsertTrip];
      if fails || newId in trips {
        // an injected failure, or a primary-key violation
        r := Failure(ErrOther);
      } else {
        trips := trips[newId := TripRow(newId, p)];
        r := Success(newId);
      }
    }

    /**
     * `InviteParticipantsToTrip`: adds one row per batch entry, entry `i`
     * under the generated key `ids(i)`, or none at all.
     */
    method InviteParticipantsToTrip(batch: array<InviteParticipantsToTripParams>, ids: nat -> Uuid, fails: bool)
      returns (err: Option<DbError>)
      requires open
      modifies this`participants, store`log
      ensures store.log == old(store.log) + [Call.InviteParticipantsToTrip(batch.Length)]
      ensures err.None? <==> !fails && FreshIds(ids, batch.Length, old(participants))
                             && forall i | 0 <= i < batch.Length :: batch[i].tripId in trips
      ensures err.None? ==> participants == old(participants) + ParticipantRows(batch[..], ids)
      ensures err.Some? ==> participants == old(participants)
    {
      store.log := store.log + [Call.InviteParticipantsToTrip(batch.Length)];
      if fails || !FreshIds(ids, batch.Length, participants)
         || exists i | 0 <= i < batch.Length :: batch[i].tripId !in trips {
        // an injected failure, a primary-key or a foreign-key violation
        err := Some(ErrOther);
      } else {
        participants := participants + ParticipantRows(batch[..], ids);
        err := None;
      }
    }

    /** `Commit`: publishes the working copy. A failed commit publishes nothing. */
    method Commit(fails: bool) returns (err: Option<DbError>)
      requires open
      modifies this`open, store`trips, store`participants, store`log
      ensures !open
      ensures store.log == old(store.log) + [Call.Commit]
      ensures err.Some? <==> fails
      ensures err.None? ==> store.trips == trips && store.participants == participants
      ensures err.Some? ==> store.trips == old(store.trips) && store.participants == old(store.participants)
    {
      store.log := store.log + [Call.Commit];
      open := false;
      if fails {
        err := Some(ErrOther);
      } else {
        store.trips, store.participants := trips, participants;
        err := None;
      }
    }

    /** `Rollback`: discards the working copy; on a closed transaction it does nothing. */
    method Rollback()
      modifies this`open, store`log
      ensures !open
      ensures store.log == old(store.log) + [Call.Rollback]
    {
      store.log := store.log + [Call.Rollback];
      open := false;
    }
  }

  /** A batch insert adds exactly one row per entry, entry `i` under `ids(i)`, duplicates included. */
  lemma {:induction false} ParticipantRowsShape(batch: seq<InviteParticipantsToTripParams>, ids: nat -> Uuid)
    requires DistinctIds(ids, |batch|)
    ensures ParticipantRows(batch, ids).Keys == IdSet(ids, |batch|)
    ensures |ParticipantRows(batch, ids)| == |batch|
    ensures forall i | 0 <= i < |batch| :: ParticipantRows(batch, ids)[ids(i)] == ParticipantRow(ids(i), batch[i])
  {
    ParticipantRowsKeys(batch, ids);
    ParticipantRowsAt(batch, ids);
    IdSetSize(ids, |batch|);
    assert |ParticipantRows(batch, ids)| == |ParticipantRows(batch, ids).Keys|;
  }

  lemma {:induction false} ParticipantRowsKeys(batch: seq<InviteParticipantsToTripParams>, ids: nat -> Uuid)
    ensures ParticipantRows(batch, ids).Keys == IdSet(ids, |batch|)
  {
    if batch != [] {
      var n := |batch| - 1;
      ParticipantRowsKeys(batch[..n], ids);
      IdSetStep(ids, n);
    }
  }

  lemma {:induction false} ParticipantRowsAt(batch: seq<InviteParticipantsToTripParams>, ids: nat -> Uuid)
    requires DistinctIds(ids, |batch|)
    ensures forall i | 0 <= i < |batch| :: ids(i) in ParticipantRows(batch, ids)
    ensures forall i | 0 <= i < |batch| :: ParticipantRows(batch, ids)[ids(i)] == ParticipantRow(ids(i), batch[i])
  {
    if batch != [] {
      var n := |batch| - 1;
      var prefix := batch[..n];
      ParticipantRowsAt(prefix, ids);
      var before := ParticipantRows(prefix, ids);
      var rows := ParticipantRows(batch, ids);
      assert rows == before[ids(n) := ParticipantRow(ids(n), batch[n])];
      forall i | 0 <= i < n
        ensures ids(i) in rows && rows[ids(i)] == ParticipantRow(ids(i), batch[i])
      {
        assert ids(i) != ids(n);
        assert prefix[i] == batch[i];
      }
    }
  }

  lemma IdSetStep(ids: nat -> Uuid, n: nat)
    ensures IdSet(ids, n + 1) == IdSet(ids, n) + {ids(n)}
  {
    assert forall x | x in IdSet(ids, n + 1) :: x in IdSet(ids, n) + {ids(n)};
  }

  /** Distinct keys make a set of `n` keys. */
  lemma {:induction false} IdSetSize(ids: nat -> Uuid, n: nat)
    requires DistinctIds(ids, n)
    ensures |IdSet(ids, n)| == n
  {
    if n > 0 {
      var m := n - 1;
      IdSetSize(ids, m);
      IdSetStep(ids, m);
      assert ids(m) !in IdSet(ids, m);
    }
  }

  /** A batch insert with fresh keys adds one key per entry to the participant table. */
  lemma InsertedRowsKeys(
    participants: map<Uuid, Participant>, batch: seq<InviteParticipantsToTripParams>, ids: nat -> Uuid)
    requires FreshIds(ids, |batch|, participants)
    ensures (participants + ParticipantRows(batch, ids)).Keys == participants.Keys + IdSet(ids, |batch|)
    ensures |participants + ParticipantRows(batch, ids)| == |participants| + |batch|
  {
    var rows := ParticipantRows(batch, ids);
    ParticipantRowsShape(batch, ids);
    var after := participants + rows;
    assert after.Keys == participants.Keys + rows.Keys;
    assert participants.Keys !! rows.Keys;
    assert |after| == |after.Keys| == |participants.Keys| + |rows.Keys|;
  }

  /** A batch insert with fresh keys keeps every row it had and puts entry `i` under `ids(i)`. */
  lemma InsertedRowsAt(
    participants: map<Uuid, Participant>, batch: seq<InviteParticipantsToTripParams>, ids: nat -> Uuid)
    requires FreshIds(ids, |batch|, participants)
    ensures forall k | k in participants :: (participants + ParticipantRows(batch, ids))[k] == participants[k]
    ensures forall i | 0 <= i < |batch| ::
              && ids(i) in participants + ParticipantRows(batch, ids)
              && (participants + ParticipantRows(batch, ids))[ids(i)] == ParticipantRow(ids(i), batch[i])
  {
    var rows := ParticipantRows(batch, ids);
    ParticipantRowsKeys(batch, ids);
    ParticipantRowsAt(batch, ids);
    assert forall k | k in participants :: k !in rows;
  }

  /** Every row a batch insert adds sits under its own key and names a trip of some entry. */
  lemma {:induction false} ParticipantRowsWellKeyed(
    trips: map<Uuid, Trip>, batch: seq<InviteParticipantsToTripParams>, ids: nat -> Uuid)
    requires forall i | 0 <= i < |batch| :: batch[i].tripId in trips
    ensures forall id | id in ParticipantRows(batch, ids) ::
              ParticipantRows(batch, ids)[id].id == id && ParticipantRows(batch, ids)[id].tripId in trips
  {
    if batch != [] {
      ParticipantRowsWellKeyed(trips, batch[..|batch| - 1], ids);
    }
  }

  /** A batch insert whose entries name stored trips keeps the tables consistent. */
  lemma InsertedRowsConsistent(
    trips: map<Uuid, Trip>, participants: map<Uuid, Participant>,
    batch: seq<InviteParticipantsToTripParams>, ids: nat -> Uuid)
    requires Consistent(trips, participants)
    requires forall i | 0 <= i < |batch| :: batch[i].tripId in trips
    ensures Consistent(trips, participants + ParticipantRows(batch, ids))
  {
    ParticipantRowsWellKeyed(trips, batch, ids);
  }
}
