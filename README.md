# trip-pass-go: atomic trip creation and the trip handlers, in Dafny

trip-pass-go is a small Go web service for planning trips. This project
models the two parts of it that make decisions:

- **Atomic trip creation** (`Queries.CreateTrip`). It opens a transaction
  and defers its rollback. It inserts the trip row. It allocates the
  participant batch and fills it in an index loop, one entry per guest
  email, each carrying the new trip id. It inserts the batch and commits.
  Every failure returns the nil UUID and an error, and nothing persists.
- **The HTTP handlers over the store**:
  - `PatchParticipantsConfirm` follows read, decide, write: parse the id,
    read the participant, refuse one that is already confirmed, then write
    the confirmation unconditionally.
  - `PostTrips` decodes, validates, creates and responds. On success it
    hands the trip id to a detached mail task.
  - `GetTrips` reads a trip and copies its fields into the response.

The model is organised as follows.

- `uuid.dfy` (module `Uuids`) holds identifiers: 16-byte UUIDs and their
  textual form from section 3 of RFC 4122. `Parse` accepts the 36-character
  form in either letter case. `String` writes it in lower case.
- `domain.dfy` (module `Domain`) holds the rows of the `trip` and
  `participant` tables, the creation request, and `Consistent`. That
  predicate says what the schema guarantees: each row sits under its own
  key, and every participant's trip exists.
- `store.dfy` (module `Database`) holds the store.
  - `Store` is a class with the two tables as `map` fields. Its ghost call
    log lets contracts say which calls were made and which were not.
  - `Tx` is a pgx transaction. It works on a copy of the rows. `Commit`
    publishes the copy and `Rollback` discards it.
  - The sqlc queries are methods of these classes. Whether each call fails
    is a boolean parameter. The keys the database generates are parameters
    too. A taken key is a primary-key violation, and a batch entry naming an
    absent trip is a foreign-key violation.
- `transactions.dfy` (module `Transactions`) holds `CreateTrip` as a method.
  - `BuildBatch` fills the batch array in a loop.
  - `CreateTripInTx` is the body between `Begin` and the deferred
    `Rollback`.
  - Both are proved against `CreateTripSpec`, a function of the rows
    before the call and the outcome of each database call.
  - The lemmas about `CreateTripSpec` state all-or-nothing, consistency,
    the contents of the new rows, and the order of calls.
- `api.dfy` (module `Api`) holds the handlers as methods of the class `Api`
  over the same `Store`, each proved against a specification function
  (`ConfirmSpec`, `PostTripsSpec`, `GetTripsSpec`). A response is a status
  and a body; the error messages are the handlers' own strings.

Where the code and the design notes differ, the model follows the code:

- Store failures other than "no rows" answer 400 "something went wrong, try
  again", not a 5xx status.
- The deferred rollback also runs after a successful commit. There it does
  nothing, and the call log records it.
- The creation failure message keeps its misspelling ("try againd").

## Model

| member | source | states |
|---|---|---|
| Uuids.Parse | internal/api/api.go:49 | `uuid.Parse` on the canonical form: it accepts a text exactly when the text is well formed (hyphens at 8, 13, 18 and 23, hexadecimal digits of either case elsewhere), and byte `k` is then the one its two digits denote |
| Uuids.String | internal/api/api.go:114 | `UUID.String`: the text is well formed and has no upper-case letter |
| Uuids.ParseString | internal/api/api.go:114 | the textual id `PostTrips` answers with parses back to the same UUID |
| Uuids.StringParse | internal/api/api.go:119-138 | printing a parsed id gives the requested text in lower case, so the form is canonical up to letter case |
| Uuids.StringInjective | internal/api/api.go:114 | distinct UUIDs have distinct texts |
| Database.Store.Begin | internal/pg/transactions.go:18-22 | a failed begin gives no transaction; otherwise a fresh transaction sees the current rows; the store is not written |
| Database.Store.GetTrip | internal/api/api.go:125 | the row under the key, `ErrNoRows` when absent, any other failure kept apart; the rows are not changed |
| Database.Store.GetParticipant | internal/api/api.go:55 | the row under the key, `ErrNoRows` when absent, any other failure kept apart; the rows are not changed |
| Database.Store.ConfirmParticipant | internal/api/api.go:77 | the unconditional update sets `confirmed` on that one row (a missing row updates nothing), fails exactly when the call fails, and keeps the tables consistent |
| Database.Tx.InsertTrip | internal/pg/transactions.go:28-38 | succeeds exactly when the call does not fail and the generated key is free, and then adds one unconfirmed row with the request's columns under that key and returns the key; on failure the working copy is unchanged |
| Database.Tx.InviteParticipantsToTrip | internal/pg/transactions.go:49-51 | succeeds exactly when the call does not fail, the generated keys are fresh and distinct and every entry names a trip; then it adds one row per entry, otherwise none |
| Database.Tx.Commit | internal/pg/transactions.go:53-55 | closes the transaction; publishes the working copy exactly when the commit does not fail, and otherwise leaves the store's rows as they were |
| Database.Tx.Rollback | internal/pg/transactions.go:24 | closes the transaction and writes no row of the store |
| Database.ParticipantRowsShape | internal/pg/transactions.go:49 | with distinct keys a batch insert adds exactly one row per entry, entry `i` under key `i`, duplicates included |
| Database.ParticipantRowsWellKeyed | internal/pg/transactions.go:49 | every row a batch insert adds sits under its own key and names the trip of an entry |
| Database.InsertedRowsKeys | internal/pg/transactions.go:49 | with fresh keys the participant table gains exactly the generated keys, one per entry |
| Database.InsertedRowsAt | internal/pg/transactions.go:49 | with fresh keys every existing row is kept and entry `i` is stored under key `i` |
| Database.InsertedRowsConsistent | internal/pg/transactions.go:49 | a batch whose entries name stored trips keeps the tables consistent (no orphan participant) |
| Transactions.BuildBatch | internal/pg/transactions.go:40-47 | the batch has one entry per guest email, entry `i` carrying the new trip id and guest email `i`, in order |
| Transactions.CreateTrip | internal/pg/transactions.go:13-58 | result, rows and the calls made are those of `CreateTripSpec`; the tables stay consistent |
| Transactions.CreateTripInTx | internal/pg/transactions.go:26-57 | the inserts and the commit, each returning the nil id with its own error on failure, match `CreateTripSpec` |
| Transactions.CreateTripFailureChangesNothing | internal/pg/transactions.go:20-55 | every failed creation returns the nil id and leaves both tables as they were |
| Transactions.CreateTripAddsOneTrip | internal/pg/transactions.go:28-57 | a successful creation adds exactly one trip, under a key that was free, and returns that key |
| Transactions.CreateTripAddsOneParticipantPerGuest | internal/pg/transactions.go:40-57 | a successful creation adds exactly one participant per guest email and loses none |
| Transactions.CreateTripKeepsConsistent | internal/pg/transactions.go:24-57 | succeeded or not, every participant's trip is stored |
| Transactions.CreateTripTripMatchesRequest | internal/pg/transactions.go:28-34 | the new trip carries the request's destination, owner email, owner name, start and end unchanged, unconfirmed; other trips are untouched |
| Transactions.CreateTripParticipantsMatchRequest | internal/pg/transactions.go:40-49 | the participant for entry `i` belongs to the new trip and has guest email `i`, unconfirmed and not owner |
| Transactions.CreateTripKeepsParticipants | internal/pg/transactions.go:49-57 | the participant table gains exactly the generated keys and its old rows are untouched |
| Transactions.DuplicateEmailsKept | internal/pg/transactions.go:42-47 | two equal guest emails become two rows under different keys of the same trip |
| Transactions.CreateTripSucceedsIff | internal/pg/transactions.go:18-57 | creation succeeds exactly when every call succeeds and the generated keys are fresh; a begin or trip-insert failure is reported as such |
| Transactions.CreateTripCallOrder | internal/pg/transactions.go:18-55 | begin comes first; once begun a rollback closes every exit; after a failed trip insert the calls are exactly begin, trip insert, rollback; the commit is reached exactly when both inserts succeeded |
| Transactions.NonNilIdOnlyAfterCommit | internal/pg/transactions.go:53-57 | a non-nil id is returned only after a commit, with the trip and all its participants stored |
| Api.Details | internal/api/api.go:137-143 | the trip object's id text parses back to the stored id, and confirmed, destination, start and end are the stored row's |
| Api.Api.PatchParticipantsConfirm | internal/api/api.go:44-86 | response, participants and calls are those of `ConfirmSpec`; trips are not touched; the tables stay consistent |
| Api.Api.PostTrips | internal/api/api.go:88-115 | response, mail-task id, rows and calls are those of `PostTripsSpec` |
| Api.Api.GetTrips | internal/api/api.go:118-146 | response and calls are those of `GetTripsSpec`; no row is written |
| Api.ConfirmMalformedId | internal/api/api.go:49-53 | a malformed id gives 400 "uuid inválido!" with no store call at all |
| Api.ConfirmOutcomes | internal/api/api.go:55-85 | 204, not-found, already-confirmed, invalid-id and the generic "something went wrong, try again" (a failed read, or a failed write on an unconfirmed participant) each happen exactly in their case; every refusal leaves the rows as they were; the confirm write is made exactly when the id parsed, the read succeeded and the row was unconfirmed |
| Api.ConfirmOneWay | internal/api/api.go:77-85 | no participant is added or removed, none goes from confirmed to unconfirmed, and only the addressed one can change, only in `confirmed` |
| Api.ConfirmKeepsConsistent | internal/api/api.go:77 | confirming keeps the tables consistent |
| Api.ConfirmTwice | internal/api/api.go:71-85 | confirming the same unconfirmed participant twice gives 204 and then the already-confirmed 400, and the second attempt changes nothing |
| Api.ConfirmTwiceOnStore | internal/api/api.go:44-86 | the same two calls run against the store: 204, then 400 "participant já confirmado", with exactly that participant confirmed |
| Api.PostRejectsBeforeStore | internal/api/api.go:93-99 | an undecodable or invalid body gives 400 before any store call, with no trip id and no mail task |
| Api.PostCreatedIff | internal/api/api.go:101-114 | 201 exactly when creation succeeds; a trip id goes to the mail task exactly then, and it is the new trip's; the 201 body is exactly that id's lower-case text, which parses back to it; a failed creation of a valid request answers 400 "failed to create trip, try againd"; every other outcome is a 400 with no row changed |
| Api.GetTripsOutcomes | internal/api/api.go:119-135 | 200, invalid-id, not-found and the generic "something went wrong, try again" (a failed read of a parsed id) each happen exactly in their case; a malformed id is not looked up |
| Api.GetTripsCopiesRow | internal/api/api.go:137-145 | the trip object copies confirmed, destination, start and end unchanged, and its id is the requested id in lower case |
| Api.PostThenGet | internal/api/api.go:114-145 | reading back, by the id `PostTrips` answered with, the trip just created gives the request's destination and dates, unconfirmed, under that id |

## Left out

- HTTP and JSON machinery (request decoding, response writers, the generated response constructors) are reduced to the `Response` datatype. A body that does not decode is an absent request.
- The field validator's rules live in generated struct tags that are not part of this model. The validator is a parameter: its message, or none.
- The mail goroutine is concurrent and does network I/O (internal/mailer/mailpit/mailpit.go). The model records only the trip id handed to it. Its outcome never reaches the response.
- Concurrent confirmations, which race between the read at internal/api/api.go:55 and the write at :77, are left out. The handlers are modelled sequentially.
- The sqlc-generated queries and pgx are not part of this model. Their outcomes (failure or not, the generated keys) are parameters. Their effects are those of the `Store` and `Tx` methods.
- Transaction isolation is not modelled. A transaction works on a copy taken at `Begin`, and `Commit` publishes that copy.
- Column defaults (`confirmed` and `is_owner` false) are taken as the schema's.
- Database.TripRow: timestamps are integers and are stored unchanged. The `timestamp` columns keep no zone offset and no digits below a microsecond, and pgx reads them back as UTC. The model does not capture either loss.
- Transactions.CreateTripTripMatchesRequest: "the request's start and end unchanged" holds for the service only for UTC instants at microsecond precision, because the integer timestamps carry no zone offset and no sub-microsecond digits.
- Api.PostThenGet: reading back "the request's dates" holds for the service only for UTC instants at microsecond precision, for the same reason.
- Non-canonical forms accepted by `uuid.Parse` (a `urn:uuid:` prefix, braces, 32 digits without hyphens) are not modelled; only the canonical form from section 3 of RFC 4122 is. On such an id the model answers 400 "uuid inválido!" without a lookup, while the service parses it and goes on to read the row.
- The endpoints that only `panic("unimplemented")` (internal/api/api.go:149-186), zap logging, journey.go (process lifecycle and server setup) and gen.go (generate directives) carry no logic to model.
- Errors are reduced to which step failed. The wrapped Go error text is not modelled.
