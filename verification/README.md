# Krane event management: the store and the seed, verified

This project models the PostgreSQL-backed store of the event management platform
and the generator of its seed data, and proves what their comments, tests and
migrations promise.

The model has three layers.

* **Tables and transactions.** `Tables` holds one map per table, the append-only
  audit and exception logs and every integrity rule (`Tables.Inv`). `EventTx`,
  `MemberTx`, `InvitationTx`, `RoomTx`, `SessionTx` and `SeriesTx` give each
  repository transaction as a function of the tables, with its error precedence.
  `Effects` says what each of them answers and stores in terms of rows and columns alone.
  `StoreMachine` makes a state machine of them; `Evolution`, `History`,
  `Provenance`, `Bookings`, `Keyset`, `Listing` and `Batch` prove properties of one
  transaction, of a call, or of every run.
* **Protocols.** Where the code needs several statements, the steps between them are
  modelled and anything may run in between: `LockProtocol` (role changes under the
  event-row lock), `BulkProtocol` (the idempotent bulk invite; a call without a token
  is a single invite), `Diagnosis` (a versioned write and its separate diagnostic
  read). `System` runs any number of all three together and projects every run onto
  each protocol, so each protocol's theorems hold in the whole; `SystemLaws` shows that
  every such run is a run of the store, so the theorems over all store runs hold there
  too. `BulkScenarios` holds two concrete runs that end in surprising answers.
* **The code's own form.** `Database.Pool` keeps the tables as mutable fields, and the
  repository classes (`EventRepo`, `MemberRepo`, `InvitationRepo`, `RoomRepo`,
  `SessionRepo`) run statement by statement on it, with rollbacks; `Pool.Others` is a
  moment at which other connections may commit. Each method is proved against the
  transaction functions. The `Seed...` modules, `Random`, `Sampling` and
  `OverlapChecker` do the same for the seed generator: lists that grow, a speaker calendar that is written, a
  random stream that is read.

A call's fresh identifiers and the times of its transactions are parameters. The
random stream is an arbitrary sequence. Sampling by rejection ends exactly when the
stream offers enough acceptable accounts, which is what
`SeedGenerator.Generator.PickDistinctUsers` requires; a fair stream, on which every
account keeps coming up, always does. A run that ends has read finitely many draws, and
`SeedGenerator.GenerateFromDraws` states the result for any finite list of them with no
assumption at all. Days become instants through an almanac: an arbitrary increasing
function per time zone, and the times of the two sessions that cross a clock change.

Properties that are tempting but false of the code, and what is true instead:

* A taken slot is not always a conflict. Booking it is; moving a session into it is an
  unclassified failure. Session updates and cancellations never report a conflict
  (`Bookings.ChangesNeverConflict`); they succeed exactly when the result satisfies
  every rule (`Bookings.ChangeAcceptedExactlyWhenValid`), and a move fails exactly when
  the new slot is empty or held (`Bookings.MoveFailsExactlyWhenTakenOrEmpty`).
* A failed call may have changed the store: a recurring booking whose room belongs to
  another event, or whose range is empty, has committed its series row when its first
  occurrence fails. These are the only such failures (`SeriesTx.SeriesFailsExactlyWhen`),
  and the room can never be deleted afterwards (`Bookings.SeriesPinsItsRoom`).
* A call refused for a reused idempotency key may have processed all of its items. It
  has processed none exactly when its own lookup found the key taken
  (`BulkProtocol.RefusedUnprocessedExactlyWhenTakenAtLookup`,
  `BulkScenarios.LateRefusalIsReachable`).
* The idempotency key belongs to the actor, not to the event: the same key and body
  sent for another event replays the first event's answer
  (`BulkProtocol.ReplayCrossesEvents`, `BulkScenarios.CrossedReplayIsReachable`).
* "Forbidden" on adding a member does not always mean that the actor may not grant the
  role: to an actor who may, it means that the account signed up between the insert and
  its diagnosis (`MemberRepo.CreateErrorsMean`, `MemberRepo.SignUpInBetweenIsForbidden`).
* Series offsets are exact if and only if the last one fits 64 bits, which for 52
  occurrences bounds the interval by 2093 days or 299 weeks
  (`SeriesTx.FiftyTwoOccurrencesExactIff`); nothing validates that bound, and beyond it
  an occurrence can land in the past (`SeriesTx.LongIntervalWrapsIntoThePast`).
* Without the event-row lock two demotions can leave an event without an admin
  (`LockProtocol.UnlockedDemotionsOrphanTheEvent`).

A comment in `room_repo.go` names only sessions as what blocks a room's deletion; the
series table has a foreign key to rooms as well
(`migrations/20260824200000_recurring_sessions.up.sql`), and the model follows it. The
membership an event's creator is granted is audited without its version column; the
history reads such an entry as version 1. The series row is committed before any
occurrence and is not audited.

## Model

| member | source | states |
|---|---|---|
| StoreMachine.ApplyKeepsInv | migrations/20260823164421_init_schema.up.sql:47-240 | every transaction, whatever its outcome, keeps every declared constraint on the modelled columns: unique subjects and emails of users, memberships, invitation addresses and room names, every foreign key (those of audit, key and exception rows included), no double booking - and an admin per event and identifiers never reused |
| StoreMachine.RunKeepsInv | internal/adapter/postgres/session_repo.go:81-139 | in every state of every run of transactions all of these hold, so no two live sessions ever share a room or a speaker at one instant, across events too |
| StoreMachine.FailureChangesNothing | internal/adapter/postgres/member_repo.go:102-171 | a single transaction that reports any error has changed no table and no log; for the one call that is not a single transaction see SeriesTx.SeriesFailsExactlyWhen |
| StoreMachine.EmptyStoreIsValid | migrations/20260823164421_init_schema.up.sql:47-240 | the empty database satisfies the invariant every run starts from |
| Effects.InviteAnswers | internal/adapter/postgres/roles.go:21-33 | in terms of rows: any membership row of the actor in the event suffices to invite an attendee, a higher role takes an admin row of the actor there, anybody else is forbidden; then an address already invited is a conflict; everything else succeeds |
| Effects.InviteStores | internal/adapter/postgres/invitation_repo.go:63-114 | the stored invitation is for this event and address at exactly the role asked for, names the account with that address if and only if there is one, and is audited by the actor; nothing else changes |
| Effects.AddMemberAnswers | internal/adapter/postgres/member_repo.go:102-171 | not found without an account, then forbidden by the same rule over rows, then a conflict for an account that is a member already, else success |
| Effects.AddMemberStores | internal/adapter/postgres/member_repo.go:113-118 | the table gains exactly the account's membership in this event at exactly the role asked for, with its audit row |
| Effects.ChangeRoleAnswers | internal/adapter/postgres/member_repo.go:357-374 | not found outside the event, else a mismatch at another version, else a conflict for the only admin, else success |
| Effects.ChangeRoleStores | internal/adapter/postgres/member_repo.go:265-300 | a successful change leaves every other row alone and this one at exactly the new role, one version higher, its event, user and creation time as before; a removal takes exactly this row away |
| Effects.CreateEventStores | internal/adapter/postgres/event_repo.go:77-128 | an event with a non-empty range is stored as asked for, with its creator's admin row and both audit rows |
| Effects.WriteEventStores | internal/adapter/postgres/event_repo.go:196-250 | an edit gives each column the value asked for or leaves it, a deletion only marks the row; one version higher, audited, nothing else |
| Effects.WriteEventAnswers | internal/adapter/postgres/event_repo.go:257-297 | an edit of a live event at this version fails only if the resulting range would be empty |
| Effects.CreateRoomStores | internal/adapter/postgres/room_repo.go:67-108 | a capacity that is not positive fails, a name used in the event is a conflict; otherwise the room is stored with name and capacity as given |
| Effects.WriteRoomStores | internal/adapter/postgres/room_repo.go:177-297 | a rename or resize gives each column the value asked for or leaves it, a deletion takes exactly this row away, audited |
| Effects.WriteRoomAnswers | internal/adapter/postgres/room_repo.go:198-290 | a rename onto another room's name is a conflict, and so is deleting a room that a session row or a series names |
| Effects.BookStores | internal/adapter/postgres/session_repo.go:81-139 | invalid room, then failure for an empty range, then a conflict with a live session of the room or the speaker, then invalid speaker; otherwise the session is stored as asked for |
| Effects.WriteSessionStores | internal/adapter/postgres/session_repo.go:246-295 | an edit gives title and times the values asked for or leaves them, a cancellation only marks the row; audited, and recorded as an exception with the start it deviated from when it belongs to a series |
| Effects.WriteSessionAnswers | internal/adapter/postgres/session_repo.go:304-334 | an edit of a live session at this version fails only for an empty slot or one that meets another live session of its room or speaker |
| Effects.InsertSeriesStores | internal/adapter/postgres/session_repo.go:376-390 | a series row is refused exactly for an interval that is not positive or exceeds 32 bits, occurrences outside 1 to 52, or an unknown event, room or speaker |
| Effects.SignInStores | internal/adapter/postgres/user_repo.go:32-57 | a known subject gets its own account and changes nothing; a new one is stored as it presents itself unless its address is taken |
| Effects.OneSessionAtATime | migrations/20260824190000_sessions_no_overlap_excl.up.sql:7-11 | in a valid store, at any instant a room hosts and a speaker gives at most one live session |
| Effects.OverlapIsASharedInstant | cmd/seed/generate.go:451-458 | two non-empty half-open intervals overlap if and only if some instant lies in both |
| Effects.EveryEntryNamesItsAuthor | migrations/20260823164421_init_schema.up.sql:207-222 | in every run each audit row was written by a transaction of the very actor it names |
| EventTx.CreateEventKeepsInv | internal/adapter/postgres/event_repo.go:77-128 | a new event comes with its creator as admin, so at no moment is there an event without one |
| MemberTx.CreateMemberKeepsInv | internal/adapter/postgres/member_repo.go:102-171 | adding a member takes no lock, yet keeps memberships unique and never takes an admin away |
| MemberTx.GuardRefusesLastAdmin | internal/adapter/postgres/member_repo.go:265-275 | for a row that matches, the write's guard refuses exactly the changes after which the event would have no admin |
| MemberTx.ConflictExactlyLastAdmin | internal/adapter/postgres/member_repo.go:350-374 | ErrConflict is reported if and only if row, event and version match and the change would leave the event without an admin |
| MemberTx.WriteRoleKeepsInv | internal/adapter/postgres/member_repo.go:253-348 | a role change or removal keeps every rule, the admin rule included |
| InvitationTx.InviteKeepsInv | internal/adapter/postgres/invitation_repo.go:63-114 | at most one invitation per event and email, whoever invites |
| RoomTx.DropRoomKeepsBooking | internal/adapter/postgres/room_repo.go:253-297 | deleting a room keeps the booking rules exactly when no session row, live or cancelled, and no series names it: the veto is neither too weak nor too strong |
| Bookings.AcceptedExactlyWhenValid | internal/adapter/postgres/session_repo.go:81-139 | a booking is accepted if and only if the store with that session added still satisfies every rule |
| Bookings.CancelFreesExactlyItsSlot | internal/adapter/postgres/session_repo.go:275-295 | cancelling a live session always succeeds, and for any candidate booking it removes that session and nothing else from what stands in the way |
| Bookings.CancelledSlotIsBookable | internal/adapter/postgres/session_repo.go:275-295 | right after a cancellation the same room and speaker can be booked for the same time |
| Bookings.ChangesNeverConflict | internal/adapter/postgres/session_repo.go:319-334 | no update or cancellation of a session is ever answered with a conflict, in any store whatever |
| Bookings.ChangeAcceptedExactlyWhenValid | internal/adapter/postgres/session_repo.go:246-295 | a change of a matching session is accepted if and only if the store with the changed row still satisfies every rule; any other is an unclassified failure that changes nothing |
| Bookings.MoveFailsExactlyWhenTakenOrEmpty | internal/adapter/postgres/session_repo.go:246-272 | an update fails exactly when it asks for an empty slot or for one held by another live session of the room or speaker; a change of the title alone always succeeds |
| Bookings.SameSlotTwoAnswers | internal/adapter/postgres/session_repo.go:319-322 | in a valid store with two sessions, booking a taken slot anew is a conflict and moving a session there is an unclassified failure |
| Bookings.SeriesPinsItsRoom | internal/adapter/postgres/room_repo.go:253-297 | from the moment a series row is stored, its room is there at every later moment of the run and no attempt to delete it that matches id, event and version ever succeeds: each is a conflict |
| Evolution.ApplyEvolves | internal/adapter/postgres/event_repo.go:257-297 | what no transaction ever undoes: immutable columns, versions that only grow and fix the row, deleted rows that stay gone, logs and keys that are only added to |
| Evolution.RunEvolves | internal/adapter/postgres/room_repo.go:177-297 | the same between any two moments of a run |
| History.ApplyKeepsHistories | internal/adapter/postgres/session_repo.go:304-366 | every transaction keeps the audit log a complete, lossless history of every row and the exception log the projection of it |
| History.RunKeepsHistories | internal/adapter/postgres/event_repo.go:77-297 | in every run each entity's log starts with a create, each later entry finds the row the previous one left, and the last one left the current row, or none |
| History.VersionIsHistoryLength | internal/adapter/postgres/room_repo.go:177-245 | a row's version is one more than the number of update and delete entries about it |
| History.OneWritePerVersion | internal/adapter/postgres/session_repo.go:246-272 | no two entries of one history replaced the same version: at most one write per version succeeds |
| History.DeleteIsLast | internal/adapter/postgres/room_repo.go:247-297 | a delete entry, soft or hard, is the last one about its row |
| History.InvitationAuditedOnce | internal/adapter/postgres/invitation_repo.go:100-110 | every stored invitation has exactly one audit row, its create, showing the stored row |
| History.SeriesExceptionsAreComplete | internal/adapter/postgres/session_repo.go:336-360 | a series session has one exception row per update or delete, in order, each with the start it deviated from; "cancelled" only on the last, exactly when it is deleted; other sessions have none |
| Provenance.EveryMemberIsLinked | internal/adapter/postgres/roles.go:21-33 | everyone who is or was a member of an event is linked to its creation by a finite chain of successful member creations, each by a member of that time, and by an admin when the role is above attendee |
| Provenance.ChainStartsAtCreator | internal/adapter/postgres/event_repo.go:84-96 | following any such chain back ends at the step that created the event |
| Provenance.EveryRowWasGiven | internal/adapter/postgres/member_repo.go:109-348 | every membership row of any moment of a run was given by one earlier transaction that asked for exactly its role - creating the event, a grant by somebody entitled to it at that moment, or a role change - and has been unchanged since |
| Provenance.EveryAdminWasMade | internal/adapter/postgres/roles.go:21-33 | every admin row comes from creating the event, from a grant that asked for an admin by somebody who was one then, or from a role change that assigned Admin |
| LockProtocol.EveryEventKeepsAnAdmin | internal/adapter/postgres/member_repo.go:244-348 | under every interleaving of demotions, removals, additions and crashes, every event has an admin in every committed state |
| LockProtocol.RoleChangesAreLinearizable | internal/adapter/postgres/member_repo.go:253-374 | every role change that returned, success or any refusal, returned what the whole change would have returned run in one piece at one of its own steps; and the answer is true of the rows at that step: success means exactly the assigned role was stored, each refusal its own reason |
| LockProtocol.CommitStoresTheRole | internal/adapter/postgres/member_repo.go:265-300 | the commit step gives this row exactly the role asked for, or takes it away, and touches no other |
| LockProtocol.NeverStuck | internal/adapter/postgres/member_repo.go:253-301 | at every moment of every run an unfinished call can take its next step or waits for another unfinished call of the same event that can, and that one's last step frees the event row |
| LockProtocol.StepRefinesStore | internal/adapter/postgres/member_repo.go:253-301 | each step of the lock protocol is no change or one atomic transaction of the store |
| LockProtocol.CommitIsAtomic | internal/adapter/postgres/member_repo.go:277-300 | what was decided at the guarded write is still right at the commit |
| LockProtocol.UnlockedDemotionsOrphanTheEvent | internal/adapter/postgres/member_repo.go:244-252 | without the lock, two demotions that each saw the other admin can both go through and leave none |
| BulkProtocol.SameKeySameAnswer | internal/adapter/postgres/invitation_repo.go:192-276 | under every interleaving, all calls answered for one actor and key sent the same request and hold the same items, and at most one of them is not a replay |
| BulkProtocol.StoredAnswerNeverChanges | internal/adapter/postgres/invitation_repo.go:215-229 | a stored key row is the same at every later moment of the run |
| BulkProtocol.OutcomesAreTrueAndUnique | internal/adapter/postgres/invitation_repo.go:200-214 | each "created" names a stored row of that call's event, email and role, each "conflict" an invited email, and no invitation is reported created twice, by whatever calls, retries or crashes |
| BulkProtocol.EveryOutcomeWasDecided | internal/adapter/postgres/roles.go:31-33 | in every interleaving each outcome of each call is the one its item deserved, by the rows of the store at the very step that processed it: forbidden, conflict and created each tied both ways to its reason |
| BulkProtocol.LostRaceAlwaysFindsTheWinner | internal/adapter/postgres/invitation_repo.go:230-247 | a call that lost the insert always finds the winner's row: the "vanished" error cannot happen |
| BulkProtocol.AnswerBelongsToWinner | internal/adapter/postgres/invitation_repo.go:176-191 | every answer was computed by one call of the same actor, key and hash, from that call's own items; every "created" in it is a stored invitation to that call's event |
| BulkProtocol.ReplayCrossesEvents | internal/http/handler/invitation.go:136-139 | the same key and body sent for a different event replays the first event's outcomes: nothing changes, and every "created" in the answer is an invitation to the other event |
| BulkScenarios.CrossedReplayIsReachable | internal/adapter/postgres/invitation_repo.go:176-191 | a run from a valid store that ends in such an answer: the guest reported created was never invited to the asker's event |
| BulkProtocol.RefusedUnprocessedExactlyWhenTakenAtLookup | internal/adapter/postgres/invitation_repo.go:192-276 | in every run, a refused call with items has processed none of them if and only if its own lookup found the key under another request's hash; every other refused call has processed all of them, with outcomes that are true of the store |
| BulkProtocol.LateLoserIsRefusedAfterProcessing | internal/adapter/postgres/invitation_repo.go:200-242 | the step-by-step mechanism: of two finished calls with one key and different requests, whoever records first is answered and the other is refused, its outcomes still in the store |
| BulkScenarios.LateRefusalIsReachable | internal/adapter/postgres/invitation_repo.go:200-242 | a run from a valid store that ends in a refused call whose guest has been invited |
| Diagnosis.DiagnosisIsSound | internal/adapter/postgres/event_repo.go:252-297 | under every interleaving, for a row that existed when the call began: a reported mismatch means live with another version at the write and still live at the read, not found means gone at the read, and a row gone at the write is never called a mismatch |
| Diagnosis.NoResurrection | internal/adapter/postgres/session_repo.go:323-334 | a row live later was live all along with a version no higher than later |
| Diagnosis.UninterruptedDiagnosisIsExact | internal/adapter/postgres/session_repo.go:304-334 | with nothing in between, mismatch is reported exactly for a live row at another version, not found exactly for no live row, and nothing changes |
| System.StepProjects | internal/adapter/postgres/member_repo.go:244-252 | one step of the whole system is one step of each of the three protocols |
| System.SystemRunProjects | internal/adapter/postgres/invitation_repo.go:159-191 | every run of the whole system is, seen by each protocol, one of its own runs |
| System.StoreGuarantees | internal/adapter/postgres/member_repo.go:244-348 | with all protocols running together, constraints, complete histories and the admin rule hold at every moment |
| System.BulkGuarantees | internal/adapter/postgres/invitation_repo.go:192-276 | the one-key-one-answer law holds in the whole system |
| System.OutcomeGuarantees | internal/adapter/postgres/invitation_repo.go:200-214 | in the whole system too, every outcome of a bulk call is the one deserved at the step that processed it |
| System.RoleGuarantees | internal/adapter/postgres/member_repo.go:253-374 | in the whole system every role change that returned did so for a step of its own at which its answer is that of the whole change on the store of that moment and, on success, the store after the step is exactly the one the whole change leaves |
| System.DiagnosisGuarantees | internal/adapter/postgres/event_repo.go:257-297 | in the whole system: mismatch means live at another version at the write and still live, no older, at the read; not found means gone at the read; a row gone at the write is never a mismatch |
| SystemLaws.SystemRunIsStoreRun | internal/adapter/postgres/member_repo.go:244-252 | a run of the whole system, its steps that commit nothing left out, is a run of the store's transactions from the empty database, with every moment of the one placed in the other |
| SystemLaws.StoreEvolves | internal/adapter/postgres/room_repo.go:177-297 | between any two moments of the whole system nothing that is final is undone |
| SystemLaws.EveryMemberIsLinkedInSystem | internal/adapter/postgres/roles.go:21-33 | with all protocols running together, every member of any moment is linked by a chain of permitted grants to the creator of the event |
| SystemLaws.EveryRowWasGivenInSystem | internal/adapter/postgres/member_repo.go:109-348 | with all protocols running together, every membership row, role included, was given by a transaction that asked for exactly it |
| SystemLaws.RowsListedExactlyOnceInSystem | internal/adapter/postgres/invitation_repo.go:119-157 | whatever the whole system does between fetches, a row that matches at every fetch is listed exactly once |
| Batch.BatchClosedForm | internal/adapter/postgres/invitation_repo.go:200-214 | an uninterrupted batch: item i is forbidden if the grant rule refuses it, else a conflict if its email is already invited or an earlier permitted item has it, else created; the table and the log grow by exactly the created rows |
| Batch.BatchByRows | internal/adapter/postgres/invitation_repo.go:200-214 | the same in terms of rows: forbidden exactly without a membership row of the actor in the event, or for more than an attendee without an admin row; created exactly when permitted, not invited before and the first such item with its address |
| Batch.CreatedIsDistinctNewEmails | internal/adapter/postgres/roles.go:31-33 | as many items are created, and audit rows written, as there are distinct new emails among the permitted items |
| Keyset.WalkAscends | internal/adapter/postgres/event_repo.go:150-190 | whatever changes between fetches, following cursors yields strictly increasing keys |
| Keyset.WalkMissesNothing | internal/adapter/postgres/invitation_repo.go:119-157 | a row there at every fetch is returned |
| Keyset.WalkInventsNothing | internal/adapter/postgres/invitation_repo.go:119-157 | every returned row was in the table when its page was fetched |
| Keyset.EachRowExactlyOnce | internal/adapter/postgres/room_repo.go:132-170 | a row there at every fetch is returned exactly once |
| Keyset.StaticWalk | internal/adapter/postgres/invitation_repo.go:119-157 | without changes the pages concatenate to the whole sorted result in max(1, ceil(n / limit)) fetches |
| Keyset.Fetch | internal/adapter/postgres/invitation_repo.go:124-134 | ORDER BY (created_at, id) LIMIT n beyond the cursor: the sorted remainder, cut at n |
| Keyset.TrimmedIsPage | internal/adapter/postgres/invitation_repo.go:150-156 | reading one row beyond the limit and trimming it gives the page and the right cursor |
| Listing.RowsListedExactlyOnce | internal/adapter/postgres/event_repo.go:150-190 | for each of the five listings and every run: a row that matches the filter at every fetch comes back exactly once, in the place it always had |
| Listing.InvitationsListedExactlyOnce | internal/adapter/postgres/invitation_repo.go:119-157 | invitations are never withdrawn, so one that is there at the first fetch comes back exactly once |
| Listing.PlaceNeverChanges | internal/adapter/postgres/member_repo.go:202-242 | no edit moves a row within a listing |
| Listing.ListedExactlyTheMatches | internal/adapter/postgres/invitation_repo.go:119-128 | each of the five listings holds exactly the rows its filter asks for, under their own creation times: no other event's, none deleted, nobody else's |
| Listing.PageIsExact | internal/adapter/postgres/member_repo.go:202-242 | a page shows matching rows only, as stored, ordered by creation and identifier, beyond the cursor; a match it leaves out comes after a full page that carries a cursor |
| Listing.WalkReturnsOnlyMatches | internal/adapter/postgres/room_repo.go:132-170 | whatever happens between fetches, every row a walk returns matched the filter when its page was fetched |
| Listing.SessionsListedAreTheJoin | internal/adapter/postgres/session_repo.go:173-218 | the sessions listed are exactly those the three-way join produces |
| Listing.EventsListedAreTheJoin | internal/adapter/postgres/event_repo.go:150-190 | the events listed are exactly those the join with memberships produces |
| Listing.JoinedListingIsExact | internal/adapter/postgres/session_repo.go:173-218 | in every reachable state the join of sessions, rooms and users, scanned in any order, equals filtering the sessions and looking each name up: none dropped, none repeated |
| Listing.EventListingIsExact | internal/adapter/postgres/event_repo.go:150-190 | a user's event listing shows exactly the live events the user belongs to, none twice |
| SeriesTx.OffsetsExactIff | internal/adapter/postgres/session_repo.go:392-402 | all 64-bit occurrence offsets are exact if and only if the last one fits |
| SeriesTx.FiftyTwoOccurrencesExactIff | internal/http/request/session.go:115-120 | for 52 occurrences: exact if and only if the interval is at most 2093 days or 299 weeks |
| SeriesTx.LongIntervalWrapsIntoThePast | internal/adapter/postgres/session_repo.go:392-402 | at 2094 days the last of 52 occurrences lands before the first |
| SeriesTx.MaterializeIsGreedy | internal/adapter/postgres/session_repo.go:399-421 | on any schedule the loop books exactly the occurrences whose slot was free and that meet no booked earlier one, reports every other as a conflict, and adds exactly those rows |
| SeriesTx.ShortOccurrencesAreIndependent | internal/adapter/postgres/session_repo.go:392-420 | when an occurrence is no longer than the step, each is booked exactly when its slot was free before the call |
| SeriesTx.FreeScheduleBooksMultiples | internal/adapter/postgres/session_repo.go:392-420 | on a free schedule occurrence i is booked exactly when i is a multiple of ceil(D / S) |
| SeriesTx.SeriesFailsExactlyWhen | internal/adapter/postgres/session_repo.go:375-423 | a recurring booking by a known actor errs if and only if its series row is refused, its room is another event's, or its range is empty; it leaves the store unchanged only in the first case, and in the other two exactly the committed series row with no occurrence |
| SeriesTx.SeriesClosedForm | internal/adapter/postgres/session_repo.go:375-423 | a whole recurring booking, whatever is asked for: it errs exactly as above, and otherwise runs to its end with an answer all three closed forms describe |
| SeriesTx.SeriesStores | internal/adapter/postgres/session_repo.go:375-423 | a successful recurring booking stores the series as asked for and, for each occurrence it reports booked, one live session so many whole days or weeks after the first and as long as the first, and nothing else |
| Database.Pool.Others | internal/adapter/postgres/event_repo.go:270-283 | what other connections may do between two statements: anything that keeps the invariant and only moves the store forward; nothing when alone |
| EventRepo.EventRepository.Create | internal/adapter/postgres/event_repo.go:77-128 | event, membership and both audit rows appear together, or the store is as it was |
| EventRepo.EventRepository.Update | internal/adapter/postgres/event_repo.go:196-231 | the version-gated transaction, or a classification of the store as others left it by then |
| EventRepo.EventRepository.Delete | internal/adapter/postgres/event_repo.go:235-250 | the same for the soft delete |
| EventRepo.EventRepository.VersionedWrite | internal/adapter/postgres/event_repo.go:257-297 | the shared write, audit and late diagnosis are the specified outcome |
| EventRepo.EventRepository.List | internal/adapter/postgres/event_repo.go:150-190 | exactly one keyset page of the caller's live events with its cursor |
| MemberRepo.MemberRepository.Create | internal/adapter/postgres/member_repo.go:102-171 | the guarded insert is the specified transaction; when it matches nothing, a second statement classifies the store as others have left it by then; the invariant holds after |
| MemberRepo.CreateErrorsMean | internal/adapter/postgres/member_repo.go:136-148 | not found means no account with that email when the call began; forbidden, if the account existed then, means the guard refused, and if the guard would have granted, that the account has come into being since; with nothing in between the whole is the transaction |
| MemberRepo.SignUpInBetweenIsForbidden | internal/adapter/postgres/member_repo.go:136-148 | a sign-up between the two statements makes the call of somebody who may grant the role end in forbidden, although the same call made then succeeds |
| MemberRepo.MemberRepository.AssignRole | internal/adapter/postgres/member_repo.go:253-301 | guarded update, audit and rollback are the specified role change |
| MemberRepo.MemberRepository.Delete | internal/adapter/postgres/member_repo.go:307-348 | guarded delete, audit and rollback are the specified removal |
| MemberRepo.MemberRepository.DiagnoseAdminGuardedFailure | internal/adapter/postgres/member_repo.go:357-374 | the classification of a refused write |
| MemberRepo.MemberRepository.List | internal/adapter/postgres/member_repo.go:202-242 | exactly one keyset page of the roster, with each user's email and name |
| MemberRepo.RosterHas | internal/adapter/postgres/member_repo.go:202-242 | each roster entry shows the membership with its own user's email and name |
| InvitationRepo.InvitationRepository.Create | internal/adapter/postgres/invitation_repo.go:63-114 | the guarded insert, resolved account, audit and rollback are the specified invite |
| InvitationRepo.InvitationRepository.LoadIdempotencyResult | internal/adapter/postgres/invitation_repo.go:256-276 | an error exactly for a key reused with another request, a stored answer exactly when the key is known |
| InvitationRepo.InvitationRepository.BulkCreate | internal/adapter/postgres/invitation_repo.go:192-248 | with others running between its transactions: an answer is always the stored one for key and hash, fresh outcomes are all true, a conflict means a reused key, the winner is always found; alone, the whole specified call |
| InvitationRepo.InvitationRepository.List | internal/adapter/postgres/invitation_repo.go:119-157 | exactly one keyset page of the event's invitations with its cursor |
| RoomRepo.RoomRepository.Create | internal/adapter/postgres/room_repo.go:67-108 | insert, name conflict, audit and rollback are the specified transaction |
| RoomRepo.RoomRepository.Update | internal/adapter/postgres/room_repo.go:177-245 | the version-gated rename or resize, or a classification of the store as others left it |
| RoomRepo.RoomRepository.Delete | internal/adapter/postgres/room_repo.go:253-297 | the version-gated hard delete with its foreign-key veto, or a classification |
| RoomRepo.RoomRepository.List | internal/adapter/postgres/room_repo.go:132-170 | exactly one keyset page of the event's rooms with its cursor |
| SessionRepo.SessionRepository.Create | internal/adapter/postgres/session_repo.go:81-139 | room lookup, exclusion, speaker check, audit and rollback are the specified booking, in the documented precedence |
| SessionRepo.SessionRepository.Update | internal/adapter/postgres/session_repo.go:246-272 | the version-gated edit, or a classification of the store as others left it |
| SessionRepo.SessionRepository.Delete | internal/adapter/postgres/session_repo.go:279-295 | the version-gated cancellation, or a classification |
| SessionRepo.SessionRepository.VersionedWrite | internal/adapter/postgres/session_repo.go:304-366 | write, audit, exception row and late diagnosis are the specified outcome |
| SessionRepo.SessionRepository.CreateSeries | internal/adapter/postgres/session_repo.go:375-423 | with others running between occurrences: every reported booking is a stored session of the series in its room and with its speaker, at exactly the occurrence's own start and end as long as nobody has edited it; alone, the whole specified call |
| SessionRepo.SessionRepository.List | internal/adapter/postgres/session_repo.go:173-218 | exactly one keyset page of the event's live sessions, with each room's and speaker's name |
| SessionRepo.EntriesHas | internal/adapter/postgres/session_repo.go:173-218 | each listed session carries its own room's name and its own speaker's name |
| OverlapChecker.NeighboursSuffice | cmd/seed/generate.go:485-511 | in a start-sorted group of non-empty intervals, clear neighbours are equivalent to no overlapping pair |
| OverlapChecker.FreeByGroups | cmd/seed/generate.go:492-497 | no two sessions with one key overlap if and only if every group is free |
| OverlapChecker.NoOverlapByKey | cmd/seed/generate.go:492-511 | for non-empty intervals an error is found if and only if two sessions with one key overlap, and what is reported does share the key and start too early |
| OverlapChecker.NoSpeakerOrRoomOverlap | cmd/seed/generate.go:479-490 | for non-empty intervals the check passes exactly when no two sessions clash in the sense of the store's exclusion constraints |
| Random.ContinuedIsFair | cmd/seed/generate.go:314-340 | any finite list of draws is the start of a stream on which every account keeps coming up |
| Sampling.FairOffers | cmd/seed/generate.go:322-340 | on such a stream, from any position and whatever is excluded, rejection sampling finds everything that is available |
| Random.Rand.Shuffle | cmd/seed/generate.go:97-99 | a permutation on every stream |
| SeedSchedule.PickSpeaker | cmd/seed/generate.go:470-477 | the first candidate free for the slot; none exactly when all are busy |
| SeedSchedule.SomeoneIsFree | cmd/seed/generate.go:347-354 | while fewer users have been booked than the pool holds, a candidate list that contains the pool offers a free speaker |
| SeedNames.RoomNamesDiffer | cmd/seed/generate.go:271-276 | room names are pairwise distinct, letters and numbers included |
| SeedNames.AccountEmailsDiffer | cmd/seed/generate.go:134-153 | generated accounts, demo identities included, have pairwise distinct emails |
| SeedNames.AccountSubjectsDiffer | cmd/seed/generate.go:134-153 | and pairwise distinct subjects |
| SeedNames.DemoAccounts | cmd/seed/demo.go:25-29 | the three fixed identities |
| SeedNames.NumbersRead | cmd/seed/generate.go:142-151 | how numbered accounts, rooms and made-up addresses read |
| SeedNames.ExternalEmailsDiffer | cmd/seed/generate.go:418-424 | made-up addresses of one event are pairwise distinct |
| SeedPlan.DefaultConfigIsRunnable | cmd/seed/generate.go:62-74 | the shipped configuration meets every bound: at most 1446 sessions for 5000 users |
| SeedPlan.RealCountIsFourFifths | cmd/seed/generate.go:398 | four fifths of the invitations, rounded down, go to accounts |
| Sampling.SomeoneIsLeft | cmd/seed/generate.go:322-340 | while fewer than all accounts are taken an acceptable one is left |
| SeedGenerator.Generator.PickDistinctUsers | cmd/seed/generate.go:322-340 | min(n, available) distinct accounts, none excluded, from literal rejection sampling on every stream that offers that many - the exact condition for the loop to end - and they are precisely the acceptable accounts among the draws read |
| SeedGenerator.Generator.FindSpeaker | cmd/seed/generate.go:342-354 | somebody free is found; six times in ten a member of the event, as long as one of them is free |
| SeedGenerator.Generator.AddStandardMembers | cmd/seed/generate.go:282-312 | distinct new members: the demo identities at their roles, then one or two admins, two to five contributors, ten to forty attendees, fewer only when the pool runs out; the event has its admin |
| SeedGenerator.Generator.PlaceSession | cmd/seed/generate.go:372-390 | while fewer sessions than users exist a speaker is always found, and the session at exactly this place and time keeps every constraint |
| SeedGenerator.Generator.AddGenericSessions | cmd/seed/generate.go:368-390 | exactly the requested sessions of 30, 60 or 90 minutes, numbered, back to back in one room from the given time with half an hour between, and no other room touched |
| SeedGenerator.Generator.DistributeSessions | cmd/seed/generate.go:356-366 | exactly the requested number of sessions, each room its share, and room after room each room's share back to back from nine hours after the event's start |
| SeedPlan.SharesFit | cmd/seed/generate.go:356-366 | the shares sum to the requested number |
| SeedGenerator.Generator.AddInvitations | cmd/seed/generate.go:397-427 | exactly the configured number of invitations for the event: four fifths to distinct accounts at their own addresses, the others to numbered made-up ones, no address twice |
| SeedGenerator.Generator.AddDSTFixtureEvent | cmd/seed/generate.go:221-248 | the event keeps every rule, has its fixed name and days, and adds the fixture session alone in the first room at exactly its times and two fillers in the second from nine hours after the start |
| SeedGenerator.GenerateDataset | cmd/seed/generate.go:91-132 | for every runnable configuration, fair stream and almanac: BulkEventCount + 4 events in the documented order, each with its name and days, its roster at the documented roles, its named rooms, its sessions split evenly over them and back to back from nine hours after its start, and its InvitationsPerEvent invitations; the whole satisfies the store's invariant, with no panic on the way |
| SeedGenerator.GenerateFromDraws | cmd/seed/generate.go:91-132 | the same from any finite list of draws, fair or not: the dataset is what was promised and read no draw beyond the list, or the generator says that the list ran out |
| SeedCheck.CheckGenerated | cmd/seed/generate_test.go:29-35 | the overlap check accepts every generated dataset |
| SeedCheck.CheckDataset | cmd/seed/generate_test.go:29-35 | it accepts every dataset that satisfies the store's constraints |

## Left out

- HTTP routing, handlers, presenters, validation of request bodies, configuration, logging and shutdown: plumbing around the calls modelled here.
- Token verification, OIDC, hashing, JSON and base64: a request hash is an opaque string, a stored response is the item list itself, an audit payload is the row.
- Row columns that no modelled rule reads: descriptions, time zones, `updated_at`.
- Widths of integer columns other than the series interval: versions and capacities are unbounded here.
- The second statement of adding a member in the state machines: `StoreMachine` and the protocols take it in one piece; the refusal changes nothing, and what the late read may say is `MemberRepo`'s subject.
- Email case folding (`citext`): emails are compared as given, in the store and in the seed.
- Local-time resolution: sessions enter as instants; the seed's two fixture sessions enter as a start before an end.
- Saturation of an instant's addition at the ends of the time type: durations and offsets wrap as 64-bit numbers, instants do not.
- Invalid role names and series frequencies: both are closed types here; the database rejects any other value.
- Statements that fail for reasons outside the data (connection loss, cancelled contexts): the protocols let a call stop after any step, the repository methods do not.
- The lock inside `MemberRepository`: the class runs the role change in one piece; waiting for the event row and what others do meanwhile is `LockProtocol`'s subject.
- Database.Pool.Others: its own body does nothing; the methods that call it are proved from its contract alone, so they hold for any interference within that contract. Inside one transaction the repository methods are interrupted only where a second statement reads on its own (the diagnostic reads); what may happen between a guarded write and its commit is `LockProtocol`'s subject.
- The role-permission lookup and the agent loop: single lookups and network calls with no rule that interacts with the tables beyond the grant guard.
- Loading the dataset into the database, truncation, UUID bytes and the concrete random generator: identifiers are drawn from a counter, the stream is arbitrary.
- Rounding of `0.8 * InvitationsPerEvent` in floating point: the share is computed as a whole-number four fifths, rounded down.
- SeedGenerator.Generator.PickDistinctUsers: makes no claim about streams that never offer enough acceptable accounts, on which the loop does not end.
- Sorting of groups in `noOverlapByKey` is by insertion into a new list; the original sorts each group in place with the library.
