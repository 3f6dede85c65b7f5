# KelmaSync: a verified model

KelmaSync keeps Anki collections on several devices in step through one server.
The server holds canonical notes, notetypes, decks, cards, review history and
daily study counters; a client plans from a manifest, pulls, pushes and deletes.
This project models both sides and proves what the protocol is meant to
guarantee, across their boundary and over whole runs.

* **Server.** `ServerSpec` gives one request, or one item of a batch, as a step
  over the tables; `Server` is the handlers over mutable tables, each proved to
  take the tables from one state of the specification to the next; `ServerRuns`,
  `Incremental` and `Migration` prove what every run keeps.
* **Clocks.** `Clock` and `Fleet` put the server's five-minute clamp, the client's
  300-second ceiling, one-second resolution and truncation together and show that
  newest-wins comes to rest, for one client and for any number.
* **Client passes.** `StructureSync`, `NoteSync`, `CardSync`, `ReviewSync` and
  `StudyDays` are the passes; each loop is proved to take every item to a stated
  outcome, and of the outcomes it is proved when they are a fixpoint: for notes,
  cards, reviews and counters after one or two passes without a conflict, for decks
  and notetypes exactly when no pull leaves keys behind. `Deletes`, `Cleaning`,
  `Phases` and `ContentPass` add snapshots, tombstones and the whole pass, from the
  manifest to the new snapshot, under any routes; `OwnDeletes` and `Echo` follow
  deletions over runs of passes.
* **Rest.** `CalmPass`, `Rest` and `Idle` take the whole pass of one client without
  routes: two passes that clean, delete, restore and add nothing lead to a state in
  which no phase has anything to do, if and only if a condition on that state holds,
  and from such a state a pass changes nothing.
* **Client algorithms.** `Duplicates`, `Scoping` and `Routing`, `Namespace`,
  `Media` and `DayShift`.

A pass under routes plans on what it sees and acts on what is there: each side of a
pair is visible or hidden, and the outcomes say what becomes of the actual pair. A
pass without routes sees everything.

Times are microseconds; an Anki `mod` is whole seconds. A checksum is the
checksummed content itself, the ideal injective digest. Unicode normalisation,
case folding, Anki's rewriting of a note and its card generation are function
parameters with the few properties the proofs need stated as preconditions. One
request, or one item of a batch, is an atomic step.

## Where a property needs a condition

* Review history converges only if no two rows of one id contradict each other.
  A client that deleted a card keeps its reviews without an identity; if it
  uploads such a review first, every client that still has the card conflicts for
  ever (`ReviewSync.OrphanBesideAttachedIsIncompatible`,
  `ReviewSync.IncompatibleNeverConverges`).
* A client that keys cards by id can follow the delta if and only if ids are unique
  at both ends: without uniqueness at the start it has no table
  (`Incremental.TableNeedsUniqueIds`), and with one the delta is exact if and only
  if ids are unique at the end (`Incremental.CardDeltaRefinesFull`). A client that
  keys cards by logical identity is right if and only if no card it knew is gone
  while its id lives on under another card (`Incremental.KeyedDeltaRefinesFull`).
  The schema no longer keeps ids unique, and a run shows the failure
  (`Incremental.SharedIdDefeatsTheCardDelta`). A shared id also brings down cards no
  pull was planned for (`CardSync.UniqueIdsPullThePlan`).
* The day shift looks at the queue alone, so a suspended or buried review card
  moves by the difference of the creation days, although the comments promise
  that day-based due values are converted; the comparison does not notice
  (`DayShift.SuspendedReviewDrifts`, exact condition in `DayShift.ChainKeepsDaysIff`).
* A pulled note that had to be padded or truncated conflicts on the next pass
  (`NoteSync.PulledNoteConflictsIffResized`).
* A pulled deck or notetype is merged into the definition the client has, or into
  what Anki starts a new one with, and keys that only this base has survive. Then the
  digests still differ while the pull has tied the times, so every later pass reports
  a conflict and ends there; a restore pulls again. It happens if and only if the
  server's definition does not cover the base
  (`StructureSync.StructurePassSettlesIff`), as with a deck that the create-only
  request made with an empty or partial configuration
  (`StructureSync.ImmersionDeckConflictsForEver`).
* A note that a client holds without having it in a snapshot for the current scope
  comes back after the server deleted it (`ContentPass.PassDecidesNotes`). A pass
  without routes and one with an empty list of routes share one scope, although the
  first sees the whole server and the second only its notetypes.
* A deletion received from the server is echoed after all when the pass that
  applied it fails later: the record of what the server removed is not kept, the
  snapshot still knows the child cards of a deleted note, and the server still has
  them. `Echo.FailedPassEchoesChildCards` is such a run,
  `Echo.RemovedContentIsEchoedIff` the exact condition. The echoed cards count
  toward the limits, so after a large deletion elsewhere and one failed pass the
  next unapproved pass may be refused.
* What Anki removes along with a tombstoned card or deck, such as a note left without
  cards or the children of a deck, is not in the record of what the server removed:
  the record is complete if and only if nothing was taken along
  (`Deletes.RecordIsCompleteIff`). The very pass sends such rows for deletion if and
  only if the snapshot knew them, the server lists them, and the deletes are approved
  or within the limits (`Echo.TakenAlongIsEchoedIff`).
* A pass leaves both sides fit for the next one under every routes, with one
  exception: two server cards may come to share an id, and a routed pass needs them
  unique (`ContentPass.ReadyAgain`).
* Two passes bring one client to rest only if the collection then holds every note
  and card of the server. A note whose notetype is missing, and a card Anki does not
  generate, is pulled again and again (`Rest.TwoCalmPassesRestIff`). Non-zero counters
  are uploaded in every pass, at rest too.
* Under routes, a note pushed as new although the server holds another text of it
  outside the routes is refused in every pass, because the refusal ends each before
  the cards are uploaded that would bring the note into the routes
  (`NoteSync.HiddenRivalConflictsForEver`). A card in that position overwrites the
  server's row unless that row is strictly later
  (`CardSync.PassOverwritesHiddenCardUnlessLater`), and a review that differs ends the
  pass after its batch (`ReviewSync.SyncHistory`).
* A copy and a row that differ are reconciled by a pass if and only if the copy's
  time is known and either a second or more from the row's or beyond the 300-second
  ceiling of that pass, in which case the row wins; otherwise they stay apart for
  ever (`Fleet.PassReconcilesIff`, for fleets `Fleet.FleetAgreesIff`).
* Cards are independent of order only for source times the server does not clamp:
  a clamped push takes the time of its arrival (`ServerRuns.LastWriterWins`).
* A batch refused for a bad review id or study day keeps what it wrote before.
* The migration drops rows without tombstones (`Migration.RemovedIdsAreForgotten`),
  and duplicate repair drops the reviews of the cards it removes
  (`Duplicates.DeleteCard`).
* Cleaning a media name is not idempotent, so a downloaded file may land under
  another key and the reference stay on one side for ever
  (`Media.EscapedSpaceIsCleanedTwice`, exact condition in
  `Media.ReferencedMediaIsOnBothSidesIff`).

## Model

| member | source | states |
|---|---|---|
| Clock.UtcWriteTime | internal/handler/upsert.go:23-29 | A stored source time is never more than five minutes ahead of the server clock, whatever the client sent. |
| Clock.ClampingTwiceIsClampingOnce | internal/handler/batch.go:113-134 | The handler clamps and the upsert clamps again; the second clamp never changes the first. |
| Clock.OneSecondDecides | clients/python/kelma_sync_v2/conflict_policy.py:69-89 | Between plausible clocks a difference of a second decides, in either direction and symmetrically; a local clock beyond the ceiling never wins. |
| Clock.WinnerIff | clients/python/kelma_sync_v2/conflict_policy.py:55-89 | For every pair of times, who wins and when nobody does: a row with an unknown or too late source time counts by its receipt, a copy more than five minutes ahead loses to any known row, and otherwise a second decides. |
| Clock.PulledSeconds | clients/python/kelma_sync_v2/anki_apply.py:17-25 | A pull stores the source time in whole seconds, or the receipt time if the source time is unknown or more than five minutes later than it. |
| Clock.PullSettlesIffBounded | clients/python/kelma_sync_v2/anki_apply.py:17-25 | After a pull, truncated to whole seconds, no later clock ever makes newest-wins choose a side again, if and only if the row respects the server's five-minute bound. |
| Clock.NewestWinsSettles | clients/python/kelma_sync_v2/conflict_policy.py:55-89 | Whichever side newest-wins picks, carrying it out leaves nothing to pick at any later clock: a pull ties, and a push is neither clamped nor refused as older. |
| Fleet.RoundDominates | clients/python/kelma_sync_v2/conflict_policy.py:55-89 | After a client's pass, and through any later passes of anyone, its copy never outranks the server row. |
| Fleet.RoundQuiets | clients/python/kelma_sync_v2/conflict_policy.py:55-89 | Once no copy outranks the row, a round of passes leaves the row as it is and every visited client with nothing left to do. |
| Fleet.FleetSettles | clients/python/kelma_sync_v2/conflict_policy.py:55-89 | For any number of clients in any order: after two rounds of newest-wins passes nobody ever pulls or pushes that resource again. |
| Fleet.FleetAgrees | clients/python/kelma_sync_v2/card_sync.py:122-148 | A start from which the fleet agrees: with versions at least a second apart, two rounds of passes in any order leave every client with the server's version. |
| Fleet.UndecidedIffTooClose | clients/python/kelma_sync_v2/conflict_policy.py:69-89 | For every row, copy and pass: no side is chosen, now and at all later clocks, if and only if the copy's time is unknown, or less than a second from the row's and below the ceiling. |
| Fleet.PassReconcilesIff | clients/python/kelma_sync_v2/conflict_policy.py:55-89 | For every row and client whose versions differ: the pass gives both one version if and only if the times are a second apart or the copy is beyond the ceiling; a copy beyond the ceiling is replaced by the row; otherwise nothing moves in this or any later pass. |
| Fleet.FleetAgreesIff | clients/python/kelma_sync_v2/card_sync.py:122-148 | Once every client has passed: after any further passes a client holds the row's version if and only if it did before or one of its visits found its copy reconcilable; a copy that is not reconcilable stays apart through every later run. |
| ServerRuns.WritesAreWellWritten | internal/handler/upsert.go:31-148 | Every write of every request kind stamps the server time, respects the clock bound, keeps a stored card's id, never touches a stored review, and clears the tombstone of what it writes. |
| ServerRuns.StoredTimes | internal/handler/upsert.go:23-29 | Every row that any request adds or changes carries the receipt time, and as source time the one the client sent, or the receipt time if it sent none or one more than five minutes ahead. |
| ServerRuns.ClearedIsLive | internal/handler/upsert.go:142-148 | A tombstone is cleared only for a resource that is live after the write, also in the create-only transaction. |
| ServerRuns.RunIdentity | internal/handler/tombstone.go:7-15 | Over every run of puts, batches, deletes and create-only requests, whatever was ever live or deleted is live or tombstoned at the end, and never both. |
| ServerRuns.CardIdIsStable | internal/handler/upsert.go:66-88 | A logical card keeps its first writer's card id over every run, for as long as that id is not deleted. |
| ServerRuns.RunKeepsClocksBounded | internal/handler/upsert.go:18-29 | The bound pulls rely on holds of every row in every reachable state. |
| ServerRuns.EditsFormAChain | internal/handler/notes.go:64-80 | Without forced writes and deletes, the versions of a note, notetype or deck form a chain in which each change names the version it replaces. |
| ServerRuns.ItemOutcome | internal/handler/batch.go:89-110 | Each item of an unforced batch is stored as pushed or, when the live row is at neither its base nor its content, left alone and reported; one item never affects another. |
| ServerRuns.StalePlanNeverOverwrites | internal/handler/batch.go:100-109 | A batch planned from a manifest of any age never overwrites a version it did not see: such a row is untouched and reported as a conflict, every other item is stored. |
| ServerRuns.ReviewsAreAppendOnly | internal/handler/reviews.go:86-105 | Over every run no stored review ever changes or disappears. |
| ServerRuns.StudyDayIsTheJoin | internal/handler/reviews.go:188-199 | A study-day row is the pointwise maximum of its initial value and everything ever pushed to it, over any run. |
| ServerRuns.StudyDayIsOrderIndependent | internal/handler/reviews.go:175-203 | Order, repetition and interleaving of counter pushes do not matter. |
| ServerRuns.NewestPushIsStored | internal/handler/batch.go:112-139 | Over any run in which this card is written only by pushes with unclamped clocks, other resources by anything, the stored card is a newest one ever pushed. |
| ServerRuns.LastWriterWins | internal/handler/cards.go:59-79 | Two runs with the same pushes of a card in any order, mixed with any requests that do not create or delete that card otherwise, with distinct unclamped source times, end with the same deck, scheduling and source time. |
| ServerRuns.CardTimeNeverDecreases | internal/handler/cards.go:70-74 | Clamped or not, the stored source time of a card never decreases between deletes. |
| Incremental.DeltaRefinesFull | internal/handler/manifest.go:69-88 | Full manifest at t0, minus the delta's tombstones, overwritten by the delta's entries, is the full manifest at t1: for notes, decks and notetypes over any run after t0. |
| Incremental.LogDeltaRefinesFull | internal/handler/manifest.go:114-165 | The same for reviews and study days, which need no tombstones. |
| Incremental.TableNeedsUniqueIds | migrations/002_card_logical_identity.sql:29-35 | A card manifest has a table by card id if and only if no two cards share one. |
| Incremental.CardDeltaRefinesFull | internal/handler/manifest.go:90-112 | For a client whose table by card id was right at t0: the delta brings it to the full manifest at t1 if and only if no two cards share an id then. |
| Incremental.KeyedDeltaRefinesFull | internal/handler/manifest.go:90-112 | For a client that keys cards by logical identity: the delta brings it to the full manifest at t1 if and only if no card it knew is gone while its id is live under another card. |
| Incremental.SharedIdDefeatsTheCardDelta | migrations/002_card_logical_identity.sql:29-35 | A concrete run, possible since the schema gave up unique card ids, after which a client keeps a deleted card for ever; ids are unique at the end but were not at the start. |
| Server.Handler.UpsertRecord | internal/handler/upsert.go:31-57 | A guarded upsert replaces exactly one row, with clamped time, and clears exactly its tombstone. |
| Server.Handler.PutRecord | internal/handler/notes.go:42-86 | Optimistic concurrency: accepted exactly when forced, new, at the named base, or already the pushed content; a refusal changes nothing. |
| Server.Handler.UpsertCard | internal/handler/upsert.go:59-89 | Insert or update by (note_guid, ord); the first card id stays, and its tombstone is cleared. |
| Server.Handler.PutCard | internal/handler/cards.go:44-85 | Silent newest-wins: an older push and a blank guid change nothing. |
| Server.Handler.Delete | internal/handler/notes.go:89-104 | The row goes and a tombstone is written; deleting a note leaves its cards. |
| Server.Handler.LoadReviews | internal/handler/reviews.go:214-251 | Exactly the requested reviews that exist. |
| Server.Handler.InsertReviews | internal/handler/reviews.go:60-148 | First writer wins per id; the collisions returned are exactly the items whose stored digest differs from their own. |
| Server.Handler.UpsertStudyDay | internal/handler/reviews.go:178-212 | A nameless deck is refused; otherwise every counter becomes the maximum of old and new. |
| Server.Handler.PushRecords | internal/handler/batch.go:89-110 | A list of guarded items as a run of single puts, with exactly the refused ones as conflicts. |
| Server.Handler.PushCards | internal/handler/batch.go:112-139 | A list of cards as a run of single card pushes, with the exact accepted count. |
| Server.Handler.PushStudyDays | internal/handler/batch.go:164-170 | Everything before the first nameless deck is written. |
| Server.Handler.CreateImmersion | internal/handler/immersion.go:125-225 | The transaction as one step of the specification, and the canonical card id it answers with. |
| Server.Handler.BatchPush | internal/handler/batch.go:55-216 | The whole request as a run of its items in handler order, with the exact conflicts of each kind; a request is refused exactly for a review id that is not positive or a study day without a deck, and keeps what it wrote before the offending item. |
| Server.Handler.BatchDelete | internal/handler/batch.go:250-325 | All or nothing: over 12000 ids and repeated ids are refused without effect, otherwise every id is deleted and tombstoned. |
| Server.Handler.OldestNotetypeNamed | internal/handler/immersion.go:147-151 | A notetype of that name with the least receipt time, or none. |
| Server.Handler.PostImmersionCard | internal/handler/immersion.go:76-231 | Refused exactly if a name, the guid, the front field or an id is missing; otherwise create-only and idempotent: deck, notetype, note and card are there afterwards with the content sent where they were missing, nothing stored changes, the notetype is the oldest of its name if there is one, and the answer is the canonical card id. |
| Server.Handler.GetManifest | internal/handler/manifest.go:14-67 | Exactly the rows and tombstones written after `since`, or all of them, each with its own digest, deck, times and counters. |
| Migration.CardTable.Deduplicate | migrations/002_card_logical_identity.sql:18-27 | The DELETE ... USING statement, judged against one snapshot of the table. |
| Migration.MigrationKeepsTheGreatest | migrations/002_card_logical_identity.sql:17-35 | Of each logical card exactly the (modified_at, id) maximum survives, blank guids all survive, no group is lost, and the unique index can be created. |
| Migration.MigrationStartsTheInvariant | migrations/002_card_logical_identity.sql:29-35 | From the migrated table on, every run keeps each resource live or tombstoned and never both. |
| Migration.RemovedIdsAreForgotten | migrations/002_card_logical_identity.sql:18-27 | The migration itself is the one exception: the id of a removed row is afterwards neither live nor tombstoned. |
| ReviewSync.ReviewCardMap | clients/python/kelma_sync_v2/review_sync.py:117-122 | Every card of a known note is found under its logical identity, and the occupied ids are exactly those found. |
| ReviewSync.ApplyReview | clients/python/kelma_sync_v2/review_sync.py:125-166 | A pulled row attaches to the card of its identity, else to a free source id, else to a negative id no card has; an existing row is never replaced. |
| ReviewSync.FindConflicts | clients/python/kelma_sync_v2/review_sync.py:312-332 | Among the shown and listed ids exactly those whose immutable fields contradict each other; a row that lost its card never does. |
| ReviewSync.DownloadHistory | clients/python/kelma_sync_v2/review_sync.py:334-351 | Every listed server row arrives if it was missing, well attached, and no local row changes. |
| ReviewSync.UploadHistory | clients/python/kelma_sync_v2/review_sync.py:358-383 | First writer wins, batch by batch; the pass is aborted exactly when the server holds another review under some id, and names only such reviews. |
| ReviewSync.SyncHistory | clients/python/kelma_sync_v2/review_sync.py:284-385 | One pass over the selected decks: a visible contradiction ends it with both sides unchanged; otherwise the collection gains every listed row, the server every row whose card is in a selected deck or borrowed from one, under the deck the card belongs to, and a hidden clash ends it after its batch. A conflict is reported exactly in these two cases. |
| ReviewSync.SeeingAllIsPlain | clients/python/kelma_sync_v2/review_sync.py:306-385 | Without a selection nothing clashes out of sight, and a pass is the union of both logs or, on a contradiction, no change at all. |
| ReviewSync.PulledRowAgrees | clients/python/kelma_sync_v2/review_sync.py:137-148 | A remapped, orphaned or negative-id row that was pulled never contradicts the server's row. |
| ReviewSync.RowsAreKept | clients/python/kelma_sync_v2/review_sync.py:150-165 | Over any trace of passes of any clients, no row anywhere changes its card, its answer, or disappears. |
| ReviewSync.ReviewLogsConverge | clients/python/kelma_sync_v2/review_sync.py:306-385 | For any number of clients: after every one has passed and then every one again, all revlogs and the server hold exactly the ids anyone held, with agreeing fields, and no pass conflicts. |
| ReviewSync.DisagreementIsForEver | clients/python/kelma_sync_v2/review_sync.py:312-332 | A row that contradicts the server's can never be reconciled: both are immutable. |
| ReviewSync.IncompatibleNeverConverges | clients/python/kelma_sync_v2/review_sync.py:312-332 | The condition of convergence is exact: from any other start some client exists whose passing first makes convergence impossible, however long the trace. |
| ReviewSync.OrphanBesideAttachedIsIncompatible | clients/python/kelma_sync_v2/review_sync.py:315-323 | The usual way to violate it: one client deleted the card of a review before anyone uploaded it. |
| StudyDays.LocalStudyDays | clients/python/kelma_sync_v2/review_sync.py:178-210 | One portable record per selected deck with a counter, on the newest day any of its four counters names; a counter of an earlier day reads as zero. |
| StudyDays.MergeJoinsSuprema | clients/python/kelma_sync_v2/review_sync.py:217-231 | Merging two suprema is the supremum of both sets in the order (day, then counter by counter). |
| StudyDays.Combine | clients/python/kelma_sync_v2/review_sync.py:406-411 | The first fold holds, per day and deck, the supremum of all records of that key, in whatever order they came. |
| StudyDays.LatestByDeck | clients/python/kelma_sync_v2/review_sync.py:412-416 | Both folds together hold, per deck, the supremum of all its records. |
| StudyDays.WrittenReadsBack | clients/python/kelma_sync_v2/review_sync.py:246-272 | A written record reads back as itself for every creation day of the collection. |
| StudyDays.ApplyStudyDay | clients/python/kelma_sync_v2/review_sync.py:234-272 | A deck takes all four counters of the record and keeps its bookkeeping, unless it is to be published; unknown decks change nothing. |
| StudyDays.PushCounters | clients/python/kelma_sync_v2/review_sync.py:389-404 | Every record with any of its four counters non-zero is on the server afterwards, counter by counter at least; a new row is such a record's, and no row falls. |
| StudyDays.SyncCounters | clients/python/kelma_sync_v2/review_sync.py:406-428 | Every deck with a record ends with the supremum of the server's records and its own. |
| StudyDays.PassNeverLowers | clients/python/kelma_sync_v2/review_sync.py:217-231 | No pass lowers the day of a selected deck or a counter of that day; a deck outside the selection stays as it is under a scoped manifest, and takes the server's supremum under an unscoped one. |
| StudyDays.SecondPassIsIdle | clients/python/kelma_sync_v2/review_sync.py:387-428 | With no other writer, the next pass leaves every counter of every deck as it is. |
| StudyDays.SyncReviewsOnce | clients/python/kelma_sync_v2/review_sync.py:284-436 | Under any selection: history first, then counters; a conflict ends the pass before the counters, and a visible one with both sides unchanged. A pass that ends well leaves the server with at least what every selected deck counts, and with no new row of another origin. |
| NoteSync.NoteManifest | clients/python/kelma_sync_v2/anki_local.py:56-97 | Exactly the notes with a guid, by guid, with digest and time. |
| NoteSync.ApplyNote | clients/python/kelma_sync_v2/anki_apply.py:165-207 | A pull updates the note of that guid in place or creates it, with the server's text resized and rewritten, and touches no other note. |
| NoteSync.TriageFollowsPlan | clients/python/kelma_sync_v2/note_sync.py:111-144 | Deciding on manifest entries alone agrees with deciding on the two notes themselves, whose direction SharedPairDecided fixes, and every push names the digest that was seen. |
| NoteSync.SharedPairDecided | clients/python/kelma_sync_v2/note_sync.py:119-144 | A note seen on both sides: equal texts stay; under newest-wins the side a second or more later gives the other its text, resized and rewritten when pulled; without a winner an equivalent text is relayed and any other reported, and the note stays. |
| NoteSync.PlanNotes | clients/python/kelma_sync_v2/note_sync.py:108-144 | The push, pull and ambiguous lists are exactly what the triage of every guid says, without repetition. |
| NoteSync.Hydrate | clients/python/kelma_sync_v2/note_sync.py:146-171 | Among the ambiguous, exactly the canonically equivalent texts are relayed; the others are the conflicts. |
| NoteSync.PullNotes | clients/python/kelma_sync_v2/note_sync.py:173-187 | Each listed guid takes its outcome; every other note stays. |
| NoteSync.PushNotes | clients/python/kelma_sync_v2/note_sync.py:189-214 | Relays and pushes, in batches: the server then holds each listed note as the collection has it unless its row is at neither the base nor that text, nothing else moved, and the conflicts are exactly those notes. |
| NoteSync.SyncNotesOnce | clients/python/kelma_sync_v2/note_sync.py:58-222 | Under any scope one pass takes every guid to its outcome, and reports exactly the mismatches neither a clock nor equivalence decides and the uploads refused for a text outside the scope. By texts and times alone: the later text wins by a second in either direction, a note only the collection shows is published as it is, and one only the server has is created with its text. |
| NoteSync.HiddenRivalConflictsForEver | clients/python/kelma_sync_v2/note_sync.py:119-121 | Over every run of note passes in which the server's text stays unlisted: a shown note with another text is a conflict in every pass, whatever the policies and clocks, and neither side ever moves. |
| NoteSync.PassReconciles | clients/python/kelma_sync_v2/note_sync.py:128-164 | After a conflict-free pass a note is byte-identical on both sides, or equivalent with nothing for newest-wins to decide. |
| NoteSync.NotesReachFixpoint | clients/python/kelma_sync_v2/note_sync.py:111-212 | If one pass has no conflict, the second has none, after it both sides are equal, and every later pass skips the note; with and without newest-wins. |
| NoteSync.TwoPassesSettleNote | clients/python/kelma_sync_v2/note_sync.py:111-212 | Whatever its field counts, a note the collection holds if the server does is skipped by every pass after two without a conflict. |
| NoteSync.PulledNoteConflictsIffResized | clients/python/kelma_sync_v2/anki_apply.py:184-199 | The field counts matter exactly: a pulled note conflicts on the next pass if and only if it had to be padded or truncated. |
| NoteSync.CanonicalPullIsExact | clients/python/kelma_sync_v2/note_sync.py:36-55 | Text already in Anki's form is stored byte for byte, so a relay happens once and not once per client. |
| CardSync.GeneratedCardIsTakenBack | clients/python/kelma_sync_v2/card_sync.py:34-69 | A pristine card of the default deck whose ids and change name one moment is overwritten by the server's, however late its clock. |
| CardSync.CardManifest | clients/python/kelma_sync_v2/anki_local.py:210-270 | Exactly the cards of notes with a guid, by logical identity. |
| CardSync.ApplyCard | clients/python/kelma_sync_v2/anki_apply.py:52-128 | A pull overwrites deck, day-shifted scheduling and time of the card with that identity; a card the collection lacks is not invented. |
| CardSync.PlanCards | clients/python/kelma_sync_v2/card_sync.py:89-154 | The push, pull and conflict lists are exactly what the plan of every key says. |
| CardSync.SharedPairDecided | clients/python/kelma_sync_v2/card_sync.py:102-148 | A card seen on both sides, in the same deck or in different ones: who wins, what the server's row or the local card then holds, with days converted to the other creation date, and when the pair is reported. |
| CardSync.PullCards | clients/python/kelma_sync_v2/card_sync.py:156-170 | Pulling by server card id brings down exactly the cards that share an id with a planned one, each applied to the card of its identity. |
| CardSync.PushedCards | internal/handler/batch.go:112-139 | After a batch of cards with distinct keys each row is the pushed card or an outranking stored one, under its canonical id, and every other row is untouched. |
| CardSync.SyncCardsOnce | clients/python/kelma_sync_v2/card_sync.py:72-202 | Under any scope and with any card ids one pass takes every logical card to its outcome and reports exactly the structural mismatches no clock decides. By states and times alone: for a row that shares its id with no other, the scheduling and deck that are a second later win in either direction, below a second nothing moves, and authority or an untouched generated card yields to the server; a new card is published whole. |
| CardSync.UniqueIdsPullThePlan | clients/python/kelma_sync_v2/card_sync.py:156-170 | Where ids are unique, exactly the cards planned for a pull come down. |
| CardSync.PassOverwritesHiddenCardUnlessLater | clients/python/kelma_sync_v2/card_sync.py:149-151 | What a pass does to a card the collection shows and the scoped manifest does not list: the server's row survives if and only if its source time is strictly later, and otherwise takes the collection's deck and scheduling under its own id. |
| CardSync.WinningPushSettlesCard | clients/python/kelma_sync_v2/card_sync.py:128-148 | A push that won is stored whole, under the client's own time and the canonical id. |
| CardSync.SharedCardSettlesAtOnce | clients/python/kelma_sync_v2/card_sync.py:122-148 | A card both sides hold needs one conflict-free pass: no later one moves it, and if it moved, both sides have the same comparison fingerprint. |
| CardSync.NewCardSettlesInTwo | clients/python/kelma_sync_v2/card_sync.py:149-154 | A card only the collection has is published; even with a clamped clock, the third pass has nothing to do and both sides match. |
| CardSync.TwoPassesSettleCard | clients/python/kelma_sync_v2/card_sync.py:122-154 | Whatever the creation times, a card the collection holds if the server does is skipped by every pass after two without a conflict, and the second leaves it in its deck. |
| DayShift.HopKeepsFingerprintIff | clients/python/kelma_sync_v2/full_diff.py:63-103 | Applying a record and re-exporting it keeps the comparison fingerprint exactly when the writer stated its creation time or nothing is shifted. |
| DayShift.SameFingerprintIff | clients/python/kelma_sync_v2/full_diff.py:63-103 | Two cards compare as equal if and only if they agree in everything but the deck they were borrowed from and their data, shifted days taken by the calendar. |
| DayShift.RelayIsPathIndependent | clients/python/kelma_sync_v2/anki_apply.py:78-102 | Through any chain of collections only the last one matters: the shifts telescope. |
| DayShift.ChainKeepsFingerprint | clients/python/kelma_sync_v2/full_diff.py:63-103 | Any chain of collections with known creation times keeps the fingerprint, for all queues and filtered-deck states. |
| DayShift.ChainKeepsDaysIff | clients/python/kelma_sync_v2/anki_apply.py:82-88 | The calendar days a card is due survive a chain exactly when its queue is a shifted one, it has no such day, or both ends count from the same day. |
| DayShift.SuspendedReviewDrifts | clients/python/kelma_sync_v2/anki_apply.py:85-88 | A suspended review card that drifts by a hundred days while both sides compare as equal. |
| Duplicates.Group | clients/python/kelma_sync_v2/anki_local.py:169-184 | The groups are exactly the logical keys in scope, each listing its cards in ascending id order. |
| Duplicates.DeleteCard | clients/python/kelma_sync_v2/anki_local.py:192-198 | One duplicate goes with its reviews, and its note exactly when no card of it is left in any deck. |
| Duplicates.RepairDuplicateCards | clients/python/kelma_sync_v2/anki_local.py:149-207 | A card goes if and only if a card of the same guid and ordinal, or without a guid of the same type, text and ordinal, has a higher id in scope; its reviews go with it, and a note that loses its last card; the count is cards minus keys. |
| Duplicates.RepairKeepsEveryKey | clients/python/kelma_sync_v2/anki_local.py:152-160 | Each logical key keeps exactly one card, the highest id of its group; no key is lost; notes go only when no card is left; a second repair finds nothing. |
| Duplicates.RemovedCount | clients/python/kelma_sync_v2/anki_local.py:186-207 | The number of superseded cards is the number of cards in scope minus the number of keys. |
| Media.PoolAdvances | clients/python/kelma_sync_v2/media_sync.py:146-170 | Handling one returned worker keeps at most fifty out, exactly fifty while work is left, and each transfer submitted once. |
| Media.PoolDrains | clients/python/kelma_sync_v2/media_sync.py:149-170 | An empty pool means the plan is exhausted and every transfer handled. |
| Media.UploadAll | clients/python/kelma_sync_v2/media_sync.py:143-170 | For every completion order: success exactly when no transfer fails, and then every planned upload is handled once; never more than fifty run, and fewer only once all were submitted. |
| Media.DownloadAll | clients/python/kelma_sync_v2/media_sync.py:238-265 | The same for downloads, with the same bound; a missing blob is skipped, a bad name fails. |
| Media.PlanUploads | clients/python/kelma_sync_v2/media_sync.py:104-116 | Exactly the references the server lacks and the directory has. |
| Media.PlanDownloads | clients/python/kelma_sync_v2/media_sync.py:177-194 | Every referenced server key the directory lacks, once per key. |
| Media.CleanIsFlat | clients/python/kelma_sync_v2/media_sync.py:279-287 | A media name is what is left after trimming and unescaping unless that is empty, a path, a dot segment or data; nothing else is refused or changed. |
| Media.SyncMediaOnce | clients/python/kelma_sync_v2/media_sync.py:70-272 | Plans and their exact effects on both sides; aborted exactly when some transfer fails. |
| Media.ReferencedMediaIsOnBothSidesIff | clients/python/kelma_sync_v2/media_sync.py:177-194 | With no failed or missing transfer, every referenced key either side held is on both, if and only if each planned download lands under its own key. |
| Media.CleanNamesLand | clients/python/kelma_sync_v2/media_sync.py:177-194 | If the server's names are already clean, a pass with no failed or missing transfer leaves every referenced key either side held on both. |
| Media.EscapedSpaceIsCleanedTwice | clients/python/kelma_sync_v2/media_sync.py:279-287 | A completed pass after which the reference of a field is on the server and not in the directory, and stays so after every further pass. |
| Scoping.HasManifestDecks | clients/python/kelma_sync_v2/content_sync.py:162-165 | Whether every manifest card with an id names its deck. |
| Scoping.SelectCards | clients/python/kelma_sync_v2/content_sync.py:154-183 | The card ids to pull, and what deck names in the manifest put in scope already. |
| Scoping.PullAndEnrich | clients/python/kelma_sync_v2/content_sync.py:185-218 | Exactly the entries of pulled cards are completed in place, and the ids and guids in scope are those of the pulled records. |
| Scoping.ScopeManifest | clients/python/kelma_sync_v2/content_sync.py:129-233 | Either way of scoping yields the manifest the card store alone determines; with deck names only cards in scope are pulled. |
| Scoping.StrippingChangesNothing | clients/python/kelma_sync_v2/content_sync.py:158-183 | A manifest and the same one stripped of deck names have the same scoped cards, notes, decks, reviews and study days. |
| Scoping.ScopedDecksAreSubtrees | clients/python/kelma_sync_v2/content_sync.py:147-152 | The scoped decks are exactly the listed ones equal to or below a selected name. |
| Routing.RouteManifest | clients/python/kelma_sync_v2/content_sync.py:129-233 | From the card list and the pulled records the client computes exactly the manifest restricted to cards in the routes, the notes of those cards, the routed decks, reviews and study days, and all notetypes and tombstones. |
| Routing.RoutedFromServer | clients/python/kelma_sync_v2/content_sync.py:129-233 | What the routes leave, told by the server's tables: the cards with an id in these decks, their notes, these decks, their reviews and study days, all notetypes and tombstones. |
| Namespace.IndexMembers | clients/python/kelma_sync_v2/namespace_compare.py:36-45 | Per folded deck name, exactly the logical keys of its cards. |
| Namespace.IndexSignatures | clients/python/kelma_sync_v2/namespace_compare.py:46-51 | Per membership, exactly the decks that have it. |
| Namespace.MatchSignature | clients/python/kelma_sync_v2/namespace_compare.py:61-76 | A signature is paired exactly when each source has one deck with that membership, listed, and the paths differ. |
| Namespace.Comparison.ApplyGroup | clients/python/kelma_sync_v2/namespace_compare.py:85-99 | One group tags, replaces and removes in every source consistently. |
| Namespace.Comparison.Prepare | clients/python/kelma_sync_v2/namespace_compare.py:8-109 | The groups applied are exactly the pairable memberships, the count is theirs, and each source is rewritten accordingly. |
| Namespace.CardsAreTaggedAlike | clients/python/kelma_sync_v2/namespace_compare.py:94-96 | With unique keys per source, a logical card is tagged with the same group in every source or in none. |
| Namespace.PopulatedRowsStay | clients/python/kelma_sync_v2/namespace_compare.py:97-99 | A populated deck's row is removed only when its own deck was paired. |
| Namespace.RowsAreAccountedFor | clients/python/kelma_sync_v2/namespace_compare.py:103-109 | Each source gains exactly as many synthetic rows as there are groups and keeps every row not removed. |
| StructureSync.SyncStructure | clients/python/kelma_sync_v2/deck_sync.py:27-118 | One structural pass takes every deck or notetype either manifest names to its outcome, a pull merging the server's definition into the local or default one key by key, and reports exactly those no clock decides, unless the server refuses a new one; no other row moves, and no deck's counters. By definitions and times alone: the definition that is a second later wins in either direction, a restore takes the server's, one that only one side has goes to the other, the empty stock deck apart. |
| StructureSync.MergedMatchesIff | clients/python/kelma_sync_v2/anki_apply.py:28-44 | A merged definition has the server's digest if and only if the server's keys cover those it was merged into, and a notetype's own name key agrees. |
| StructureSync.StructurePassSettlesIff | clients/python/kelma_sync_v2/deck_sync.py:52-106 | For a resource a pass saw whole and did not report: the next pass skips it if and only if the pass did not pull a definition that leaves keys of its base behind; otherwise it is a conflict at every later clock, or under a restore pulled again. |
| StructureSync.TwoPassesSettleStructure | clients/python/kelma_sync_v2/deck_sync.py:52-106 | Two passes without a conflict settle a structure for good, so a pull that leaves keys behind always shows up as a conflict of the next pass; only a stock deck that stops being empty is still to be published. |
| StructureSync.ImmersionDeckConflictsForEver | internal/handler/immersion.go:88-90 | A deck created by the create-only request with a configuration that lacks a key of Anki's defaults: the client that pulls it reports it as a conflict in every later pass. |
| Deletes.DeleteNote | clients/python/kelma_sync_v2/anki_apply.py:210-216 | The note of that guid goes with exactly its cards, whose ids are reported. |
| Deletes.ApplyNoteTombstones | clients/python/kelma_sync_v2/tombstone_sync.py:31-66 | Exactly the tombstoned notes and their cards go, and exactly these are recorded. |
| Deletes.ApplyDeckTombstones | clients/python/kelma_sync_v2/tombstone_sync.py:48-49 | In the order listed, a deck goes only when no card is left in it, with whatever Anki takes along; exactly the decks named are recorded, none of them is there or holds a card any more, and every listed deck that held no card is among them. |
| Deletes.ApplyNotetypeTombstones | clients/python/kelma_sync_v2/tombstone_sync.py:50-51 | A listed notetype stays if and only if some note is of it; every other one stays. |
| Deletes.ApplyTombstones | clients/python/kelma_sync_v2/tombstone_sync.py:21-66 | Ordered application with whatever Anki takes along, and the exact record of what the server removed, child cards included: every listed note goes with its cards, every listed card, every listed deck that held no card; a listed notetype stays exactly if a note of it is left; all else stays unless taken along. |
| Deletes.GoneIsRecordedOrTaken | clients/python/kelma_sync_v2/tombstone_sync.py:31-66 | For every list of tombstones and every way Anki takes rows along: a note or card is gone if and only if it was recorded or taken along, and never both. |
| Deletes.RecordIsCompleteIff | clients/python/kelma_sync_v2/tombstone_sync.py:54-61 | The record names everything that is gone if and only if no note or card was taken along, and no deck without a recorded tombstone. |
| Deletes.SnapshotIsLastSuccess | clients/python/kelma_sync_v2/sync_state.py:40-55 | Over every run of passes the snapshot is what the last successful pass left, under that pass's scope. |
| Deletes.FinalKeysAreRecorded | clients/python/kelma_sync_v2/content_sync.py:550-591 | The new snapshot records exactly the notes with a guid, their cards and the decks the collection holds in the routes, and of its notetypes those in use or listed by the server. |
| Deletes.DeletesAreOwnAndCurrent | clients/python/kelma_sync_v2/content_sync.py:428-444 | Over every run: an id sent for deletion was held at the end of the last successful pass, under the same scope, is gone locally, is in the scoped view, and was not removed by the server. |
| OwnDeletes.SentIff | clients/python/kelma_sync_v2/content_sync.py:428-452 | What a pass deletes on the server, exactly: what the snapshot of this scope knew, the cleaned collection does not hold in scope, the server still has in the routes, and no tombstone of this pass removed; all of it if approved or modest, and otherwise nothing. |
| OwnDeletes.OwnDeleteIsSent | clients/python/kelma_sync_v2/sync_state.py:58-70 | Over every run: a note, card, deck or notetype that was held in scope at the end of the last completed pass and is gone since is among the deletes of the next pass under the same routes, if the server still has it there and has no tombstone of it; they are sent if approved or modest. |
| Deletes.RouteChangeDeletesNothing | clients/python/kelma_sync_v2/content_sync.py:324-338 | The pass after a change of routes deletes nothing in either direction. |
| Deletes.UnapprovedDeletesAreSmall | clients/python/kelma_sync_v2/content_sync.py:445-452 | Without approval a pass deletes no deck or notetype, at most 100 resources, and at most ten or a tenth of the known content. |
| Deletes.UnapprovedPassIsRefusedIffImmodest | clients/python/kelma_sync_v2/content_sync.py:445-452 | The limits are exact: an unapproved pass sends all its deletes if they are modest and none otherwise. |
| Cleaning.PushLocalDeletes | clients/python/kelma_sync_v2/content_sync.py:252-271 | Kind by kind in batches the server never refuses; afterwards exactly these resources are gone and tombstoned. |
| Cleaning.SafeFreshOrInterruptedRestore | clients/python/kelma_sync_v2/content_sync.py:87-126 | True exactly when every local note matches the server and every local card is known there and pristine. |
| Cleaning.IsFreshRestore | clients/python/kelma_sync_v2/content_sync.py:411-421 | A restore exactly without routes, on an empty snapshot, with a note or card on the server, and when every local note matches and every local card is known there and pristine. |
| Cleaning.RepairKeepsNotes | clients/python/kelma_sync_v2/anki_local.py:186-198 | Duplicate repair never removes a note that has a guid. |
| Cleaning.DetectDeletes | clients/python/kelma_sync_v2/content_sync.py:327-444 | Phases 2 to 5 under any routes: what the tombstones remove, and exactly which deletes are to be sent. |
| ContentPass.AuthoritativeKeys | clients/python/kelma_sync_v2/content_sync.py:365-381 | Exactly the keys the scoped manifest lists and the pass did not see in the collection before the pulls. |
| ContentPass.PassDecidesNotes | clients/python/kelma_sync_v2/content_sync.py:324-348 | Under any routes, a note the server lost stays in the collection after a successful pass if and only if it outlives the tombstones and whatever they take along; it is back on the server exactly if it was also in scope, and in the snapshot exactly if it is in scope at the end. |
| ContentPass.UnroutedPassDecidesNotes | clients/python/kelma_sync_v2/content_sync.py:327-348 | Without a selection it is gone from collection, server and snapshot, or back on all three. |
| Echo.ServerDeleteIsNotEchoed | clients/python/kelma_sync_v2/content_sync.py:431-444 | Under any routes no pass ever sends a delete for a note the server lost; and the pass that applies its tombstone sends none for the cards that went with it. |
| Echo.TakenAlongIsEchoedIff | clients/python/kelma_sync_v2/content_sync.py:428-452 | A note or card that Anki took along with a tombstone is sent for deletion by that very pass if and only if its snapshot knew it, the server lists it, and the deletes are approved or within the limits. |
| Echo.FailedPassEchoesChildCards | clients/python/kelma_sync_v2/tombstone_sync.py:35-63 | A concrete run: a pass that removed a note and its card for a tombstone and then failed is followed by one that sends the card for deletion. |
| Echo.RemovedContentIsEchoedIff | clients/python/kelma_sync_v2/content_sync.py:428-452 | Over every run, with any changes of routes and of both sides in between: a note or card that a pass removed for the server and that did not come back is sent for deletion by a later pass if and only if none from the first to the later one succeeded, the snapshot knew it, the scope is the same, the server still lists it, and the deletes are approved or within the limits. |
| ContentPass.PlanPass | clients/python/kelma_sync_v2/content_sync.py:316-444 | Under any routes: the collection cleaned, and the exact deletes, authoritative keys and restore decision, with a log of what was seen. |
| Phases.SyncResources | clients/python/kelma_sync_v2/content_sync.py:468-555 | Decks, notetypes, notes, cards, reviews and media in order, ended by the first problem: if none, every phase took everything to its outcome under the policy, the manifest's clock and the authority of the pass, and found no conflict; a restore publishes nothing and loses no note and no studied card, authoritative rows stay. |
| ContentPass.SyncContentOnce | clients/python/kelma_sync_v2/content_sync.py:291-593 | A whole pass under any routes, whatever phase ends it: the deletes it sends are legal for what the log says it saw, only a complete pass renews the snapshot, with exactly the notes, cards, decks and notetypes the collection then holds in scope; a restore happens exactly on a fresh client, publishes nothing and changes no note with a guid and no studied card; listed foreign cards are never overwritten; both sides stay fit for another pass. A complete pass has decided the lost notes on all sides and taken every deck, notetype, note, card, review and counter to its outcome, phase by phase; referenced files are on the server. |
| ContentPass.ReadyAgain | clients/python/kelma_sync_v2/content_sync.py:291-593 | However a pass ended, the next one under any routes may start, if no blank note is tombstoned and, for routes, no two server cards share an id. |
| Rest.TwoCalmPassesRestIff | clients/python/kelma_sync_v2/content_sync.py:291-593 | After two complete passes of one client that cleaned, deleted, restored and added nothing, with no other writer: at every later clock and under either policy no phase of the next pass has anything to push, pull, relay, merge or delete, if and only if the collection holds every note and card of the server, no tombstone counts and no card is superseded, the client does not look fresh, and Anki generates no card. |
| Idle.RestingPassIsIdle | clients/python/kelma_sync_v2/content_sync.py:291-593 | From a state at rest, a pass that runs to the end sends no delete, is no restore, and leaves every note, card, deck, notetype and review of both sides and every counter of the collection as it was. |
| Idle.ThirdPassIsIdle | clients/python/kelma_sync_v2/content_sync.py:291-593 | Both together: after two such passes under that condition, a third one that runs to the end changes nothing but the study-day rows it uploads again. |

## Left out

- Server.Handler.PutCard: a blank note guid is skipped as the batch does it; the single-card endpoint stores such a row outside the unique index.
- Server.Handler.PostImmersionCard: without its media files.
- Server.Handler.BatchDelete: repeated ids are judged over the whole request, and a failing database is not modelled.
- StructureSync.SyncStructure: what Anki does to the notes of a notetype whose fields a pull changes; a definition is a map from key to value, and whatever Anki adds to a new one is a parameter.
- NoteSync.ApplyNote: the cards Anki generates for a new note are added between the note and the card pass, by a function parameter.
- CardSync.ApplyCard: the deck row Anki creates when a pulled card names an unknown deck.
- CardSync.PlanCards: keys are pairs of guid and ordinal instead of one joined string.
- Deletes.ApplyTombstones: which rows Anki takes along is a function of the collection and the tombstone, of which only that it leaves no card without its note is assumed.
- Routing.RouteManifest: servers on which two cards share an id, which records by id cannot tell apart; a pass without routes needs no such assumption.
- ContentPass.SyncContentOnce: no other writer acts during a pass, and two cards of one logical identity lie within the selected decks, where the repair reaches them.
- Rest.TwoCalmPassesRestIff: passes under routes; what one phase leaves for the next pass is stated for them pair by pair.
- Namespace.Comparison.Prepare: display fields of a synthetic row, and the order of the signatures; a signature is the membership it digests.
- Media.UploadAll: a failed pass is described by the transfers handled before it stopped; workers still running may finish later.
- Media.DownloadAll: temporary files and retries; a retried transfer has one final fate.
- Pulling notes switched off, the single test-deck mode, incremental planning, and forced publication.
- Two clocks: the server process and its database are one clock here, and times are not rounded by floating point or the database.
- Concurrency inside one request: the load and the upsert of an item are one step.
- HTTP, JSON, gzip, authentication, quotas, blob storage, checksum encoders, read models, progress messages and counters kept for display.
