# Contact merging, zoned key storage, call recordings and the database key, verified

A Dafny model of four stateful cores of the desktop client, with their hard properties proved
for every input, every run and every interleaving. `dafny verify dfyconfig.toml` checks it.

**Contacts** (`Identifiers`, `ContactBook`, `ContactMerge*`, `ContactLookupRebuild`,
`ConversationController`, `ConversationUpdates`, `ConversationNumbers`). A book is the list of
conversations with their attributes and the five lookup tables. `ContactMerge.Merge` is the walk of
`maybeMergeContacts`, branch by branch. Beside it stands an independent closed form: `Chosen` says
which conversation the identifiers gather on, `Gathered` and `Stripped` what it and every other
conversation end up with, `Requests` who is handed over as obsolete. That both agree is the main
theorem (`MergeIsOutcome`): it holds on every consistent book, that is, with exact lookups and
unshared identifiers, whatever earlier merges left in it. Everything else about merging follows from
the closed form. The class `ConversationController` does it all in place, each method equal to its
book operation.

**Zones** (`KyberTriples`, `ZoneStore`, `ZoneLock`, `ZoneTransactions`, `SignalProtocolStore`).
`ZoneStore` is the data: rows, cached entries, six pending collections, and as the reference one
plain map in two versions, committed and tentative. `ZoneLock` is `withZone` with every await a
step of its own, so anything may happen between a body's end and the landing of its commit.
`ZoneTransactions` says what becomes of writes, first in every interleaving and then with each
commit a single step. The class `SignalProtocolStore` holds the real fields; it has a commit both
in its two halves, around the wait, and joined.

**Identity keys** (`IdentityRecords`, `IdentityTrust`, `IdentityKeyStore`). The calls that save,
approve, verify, sync and remove identity keys, with failing writes and records migrating from
conversation ids, and which key may be sent to after them.

**Recordings** (`RecordingQueue`, `RecordingPublish`, `RecordingSessions`). The bounded write queue
over two files, publishing with rollback against a disk where every operation may fail, and the
registry of live and aborted sessions.

**Database key** (`DatabaseKey`). `getSQLKey` run any number of times, cut off between any two
configuration writes, against secret storage that may answer anything.

## What the code turns out not to do

- A merge leaves the `pni` field contradicting the service id exactly when no ACI is given, a PNI is,
  and the conversation known by the number has another PNI as its service id and an empty `pni`
  field (`LeavesForeignPni`; `ForeignPniReached` is an input). If every PNI in a service id slot
  equals the `pni` field to begin with, that is kept by every run of merges (`PairedForever`).
- Once the slots disagree, a later merge can lose the PNI it is asked for, exactly under `LosesPni`
  (`TargetHoldsAll`; `PniLostByTwoMerges` is a run); asked again, it puts the PNI back.
- A merge can hand the same obsolete conversation over twice; `HandedOverTwice` says exactly when,
  and `SameRequestTwice` is an input.
- The comment on `maybeMergeContacts` invites passing any service id as `aci`; normalising the ACI
  throws on a PNI, and so does the model (`PniGivenForAci`).
- A body that enters its zone while the zone's commit is being written, and finishes first, commits
  nothing: its pending write outlives the lock and can be dropped by an unrelated failure, although
  every body of its zone succeeded (`SucceededWriteCanBeLost`). `LeftBehindExactly` says exactly when
  writes are left behind a free zone.
- A comment on the last-resort prekeys says that a pending removal makes the key inaccessible; it does
  not, and a use then makes the whole commit fail (`RemovalAndUseCannotCommit`). A failed commit also
  drops the triple of an accepted use, so that the same use is accepted again (`UseThenCommit`).
- A revert keeps pending kyber triples; the next commit of any body writes them
  (`RevertedTripleIsCommitted`).
- On Flatpak, a first start killed between writing the encrypted and the plaintext key leaves
  nothing to check a wrong decryption against (`KilledBetweenWritesOnFlatpak`).
- A finalize that failed has closed the handles, so finalizing the same session again always fails
  (`RecordingPublish.Finalize`).
- `mp3Renamed` in `finalize` is set by the last statement of its try block, so the rollback branch
  that tests it never runs; the model has no such branch.
- When a number moves between two conversations in one batch and a removal falls between their
  changes, the user interface's lookup by number can lose it (`RemovalBetweenLosesNumber`);
  `BatchExactIff` says exactly when a batch keeps that lookup exact. Dispatching the changes one at a
  time would lose numbers even without a removal (`OneByOneLosesNumber`).

## Hypotheses

The identifier spaces are disjoint, numbers carry exactly one leading `+`, and new conversation and
session ids were never used before. Merges start from a consistent book, and the controller is
loaded and not read-only. The closed form of a merge is for ACIs in the `aci` parameter. Lemmas over
whole commits take each commit as one step; the lock lemmas and `LeftBehindExactly` do not.
Progress assumes that the commits ending an occupancy succeed and that no body awaits a call for a
different zone; a body whose commit has nothing to write goes on before a later one can end.
Kyber prekey ids are formed from a UUID and a number, and triples add a number and hex text, so no part
contains a colon. A failed rename or removal leaves the files as they were.

## Model

| member | source | states |
|---|---|---|
| `ContactBook.ReindexKeepsInverse` | ts/ConversationController.preload.ts:1885-1943 | removing the old key and binding the new one keeps a table the exact inverse of the attribute |
| `ContactBook.ApplyChangeKeepsIndex` | ts/ConversationController.preload.ts:90-136 | a change with its three PNI fix-ups keeps all five tables exact if nobody else holds the new values |
| `ContactBook.AddKeepsIndex` | ts/ConversationController.preload.ts:351-373 | adding a conversation under fresh identifiers keeps the book exact |
| `ContactBook.GetFindsHolder` | ts/ConversationController.preload.ts:446-464 | the six probes find the one conversation holding the identifier, if and only if there is one |
| `ContactBook.NumberWithoutPlus` | ts/ConversationController.preload.ts:446-464 | a number written without its plus finds its holder too |
| `ContactBook.ChangeMeans` | ts/ConversationController.preload.ts:90-136 | what a suggested change becomes, field by field: the number clears a stale PNI, the PNI fills or leaves the service id slot |
| `ContactBook.RemovalTakesOnlyOwn` | ts/ConversationController.preload.ts:2038-2095 | taking a conversation out of exact lookups takes exactly its own entries; everybody else's stay |
| `ContactMergeTheorems.MergeIsOutcome` | ts/ConversationController.preload.ts:733-1022 | on every consistent book the walk equals the closed form: target, every attribute of every conversation, the list, the requests, exact lookups |
| `ContactMergeConsequences.TargetMeans` | ts/ConversationController.preload.ts:836-894 | which conversation is answered, and when one is made, by who is found and what it has |
| `ContactMergeConsequences.TargetAfter` | ts/ConversationController.preload.ts:898-968 | what the target's number, PNI and service id are afterwards, from what they were |
| `ContactMergeConsequences.OthersAfter` | ts/ConversationController.preload.ts:918-934 | what exactly every other conversation loses, and that it loses nothing else |
| `ContactMergeConsequences.CreatedIsFound` | ts/ConversationController.preload.ts:487-615 | getting or creating by an identifier gives the conversation a lookup by it gives from then on, with just that identifier if it is new |
| `ContactMergeTheorems.MergeKeepsWellFormed` | ts/ConversationController.preload.ts:813-980 | identifiers stay exclusive and lookups exact, from any consistent book; from a well-formed one the two PNI slots do not contradict each other afterwards if and only if the guard is off |
| `ContactMergeTheorems.MergeKeepsPaired` | ts/ConversationController.preload.ts:813-980 | where every PNI in a service id slot equals the pni field, it still does after any merge |
| `ContactMergeTheorems.TargetHoldsAll` | ts/ConversationController.preload.ts:898-968 | the target holds every identifier given, the re-added PNI included, if and only if the book does not meet `LosesPni`, which no well-formed book does; ACI and number it holds always, and nobody else holds any |
| `ContactMergeConsequences.MergeTwice` | ts/ConversationController.preload.ts:733-1022 | an identical second call gives the same conversation, changes no attribute or lookup and requests nothing, unless the first lost the PNI |
| `ContactMergeConsequences.LostPniIsPutBack` | ts/ConversationController.preload.ts:960-968 | if the first lost the PNI, the second call gives the same conversation and puts it back |
| `ContactMergeConsequences.HolderAnswers` | ts/ConversationController.preload.ts:790-802 | a query whose identifiers are all on one conversation is answered with it and changes nothing |
| `ContactMergeConsequences.AcisKept` | ts/ConversationController.preload.ts:842-894 | from any consistent book no conversation loses or changes its ACI |
| `ContactMergeConsequences.AcisKeptForever` | ts/ConversationController.preload.ts:733-1022 | over every run of merges a conversation that ever held an ACI holds it for good |
| `ContactMergeConsequences.ConsistentForever` | ts/ConversationController.preload.ts:733-1022 | over every run of merges identifiers stay exclusive and all five lookups exact |
| `ContactMergeConsequences.PairedForever` | ts/ConversationController.preload.ts:733-1022 | over every run of merges PNIs in service id slots equal the pni fields, if they did at first, and so no call meets either exception |
| `ContactMergeConsequences.ObsoleteExactlyEmptied` | ts/ConversationController.preload.ts:936-959 | the conversations handed over are exactly the non-targets left with no identifier, and none had an ACI |
| `ContactMergeConsequences.RequestsAreProper` | ts/ConversationController.preload.ts:946-959 | at most two requests, each from an existing conversation to the target, never to itself |
| `ContactMergeConsequences.HandedOverTwice` | ts/ConversationController.preload.ts:790-802 | when exactly the same obsolete conversation is handed over twice, on any consistent book |
| `ContactMergeExamples.ForeignPniReached` | ts/ConversationController.preload.ts:820-829 | a well-formed book and a query after which the PNI slots disagree |
| `ContactMergeExamples.PniLostByTwoMerges` | ts/ConversationController.preload.ts:850-872 | two merges from a well-formed book, the second of which loses the PNI it is asked for |
| `ContactMergeExamples.SameRequestTwice` | ts/ConversationController.preload.ts:946-959 | a book and a query for which one conversation is handed over twice |
| `ContactLookupRebuild.TableElects` | ts/ConversationController.preload.ts:1977-2036 | a table built in list order binds every held identifier to the first preferred holder, else the last |
| `ContactLookupRebuild.SlotsAreFields` | ts/ConversationController.preload.ts:1977-2036 | which attribute each table goes by and whom it prefers |
| `ContactLookupRebuild.ElectedIsUnique` | ts/ConversationController.preload.ts:1977-2036 | that rule names one conversation |
| `ContactLookupRebuild.RebuildElects` | ts/ConversationController.preload.ts:2097-2101 | all five rebuilt tables follow the rule, duplicates or not, each with its own preference |
| `ContactLookupRebuild.RebuildRestores` | ts/ConversationController.preload.ts:1972-1975 | rebuilding an exact book changes nothing |
| `ContactLookupRebuild.RemoveUndoesAdd` | ts/ConversationController.preload.ts:2038-2095 | removing a just added conversation restores all five tables |
| `ConversationController.ConversationController.Get` | ts/ConversationController.preload.ts:446-464 | the probes on the real tables answer as the book's lookup |
| `ConversationController.ConversationController.IdUpdated` | ts/ConversationController.preload.ts:1885-1943 | re-indexes the one table of the changed attribute, nothing else |
| `ConversationController.ConversationController.UpdateServiceId` | ts/models/conversations.preload.ts:2237-2275 | sets the field and re-indexes, or does nothing when unchanged |
| `ConversationController.ConversationController.UpdateE164` | ts/models/conversations.preload.ts:2203-2235 | the same for the number |
| `ConversationController.ConversationController.UpdatePni` | ts/models/conversations.preload.ts:2300-2373 | the same for the PNI |
| `ConversationController.ConversationController.ApplyChangeToConversation` | ts/ConversationController.preload.ts:90-136 | the in-place change is the book's change, attributes and lookups |
| `ConversationController.ConversationController.AddToLookup` | ts/ConversationController.preload.ts:1977-2036 | binds the five tables by their preferences |
| `ConversationController.ConversationController.RemoveFromLookup` | ts/ConversationController.preload.ts:2038-2095 | takes exactly the conversation's own entries out |
| `ConversationController.ConversationController.GenerateLookups` | ts/ConversationController.preload.ts:2097-2101 | the loop over the list is the rebuild specification |
| `ConversationController.ConversationController.ResetLookups` | ts/ConversationController.preload.ts:1972-1975 | erases and rebuilds |
| `ConversationController.ConversationController.GetOrCreate` | ts/ConversationController.preload.ts:487-615 | finds the conversation or adds one with the given initial values |
| `ConversationController.ConversationController.MaybeMergeContacts` | ts/ConversationController.preload.ts:733-1022 | the loop over mutable target, unused matches and conversations is the walk; the two error cases change nothing |
| `ConversationUpdates.SameConversations` | ts/ConversationController.preload.ts:206-238 | for every batch, grouped dispatch ends with the conversations that one dispatch per item would give |
| `ConversationUpdates.BatchIsLastSaid` | ts/ConversationController.preload.ts:206-238 | after a batch each conversation is what the last item about it says: gone, changed, or as before |
| `ConversationNumbers.DispatchExactIff` | ts/state/ducks/conversations.preload.ts:5276-5384 | one dispatch of any changes or a removal keeps the lookup by number exact if and only if numbers end up on one conversation each |
| `ConversationNumbers.LastHolderGetsEntry` | ts/state/ducks/conversations.preload.ts:5351-5356 | among changes with one number the last gets the entry |
| `ConversationNumbers.DispatchesAreGrouped` | ts/ConversationController.preload.ts:206-238 | the grouped batch is its dispatches in order |
| `ConversationNumbers.BatchExactIff` | ts/ConversationController.preload.ts:206-238 | a whole batch keeps the lookup exact if and only if numbers end up exclusive and none still held was taken by a dispatch with nothing giving it from then on |
| `ConversationNumbers.ExclusiveThroughout` | ts/ConversationController.preload.ts:206-238 | if every dispatch leaves numbers exclusive, the lookup is exact after each |
| `ConversationNumbers.RemovalBetweenLosesNumber` | ts/ConversationController.preload.ts:225-235 | a batch of two changes with a removal between them that loses a number |
| `ConversationNumbers.OneByOneLosesNumber` | ts/state/ducks/conversations.preload.ts:5955-5973 | one change at a time loses a number that one dispatch of the same changes keeps |
| `ConversationUpdates.ProcessBatch` | ts/ConversationController.preload.ts:206-238 | the batching loop is the grouped specification and agrees with one-at-a-time on conversations |
| `KyberTriples.PrefixMatchesOwnTriples` | ts/SignalProtocolStore.preload.ts:1274-1281 | the string-prefix test matches a triple's key if and only if the triple is of that prekey |
| `KyberTriples.KeysAreInjective` | ts/SignalProtocolStore.preload.ts:221-230 | different triples have different cache keys, colons in prekey ids notwithstanding |
| `KyberTriples.BarePrefixWouldMatchTooMuch` | ts/SignalProtocolStore.preload.ts:1274-1281 | without the final colon another prekey's triples would match |
| `ZoneStore.WriteRefines` | ts/SignalProtocolStore.preload.ts:1488-1506 | noting a write changes the tentative map like a plain map write, and nothing committed |
| `ZoneStore.LoadSessionRefines` | ts/SignalProtocolStore.preload.ts:1392-1435 | reads answer from the tentative map; hydration write-back moves no row |
| `ZoneStore.GetSenderKeyRefines` | ts/SignalProtocolStore.preload.ts:992-1038 | the same, although write-back always goes to the committed cache |
| `ZoneStore.LoadPreKeyRefines` | ts/SignalProtocolStore.preload.ts:625-658 | the same, with pending removals hidden |
| `ZoneStore.AllSessionsRefines` | ts/SignalProtocolStore.preload.ts:2771-2782 | the union scanned by all session searches is the tentative map |
| `ZoneStore.CommitRefines` | ts/SignalProtocolStore.preload.ts:1210-1313 | a commit makes the tentative map the committed one with caches equal to rows; a failed one drops pending |
| `ZoneStore.CommitGoesThrough` | ts/sql/Server.node.ts:1806-1867 | with a working database a commit writes all that is pending whenever every pending triple is new and its prekey there and staying |
| `ZoneStore.CommitIsRejected` | ts/sql/Server.node.ts:1188-1213 | otherwise neither database nor caches change |
| `ZoneStore.RevertRefines` | ts/SignalProtocolStore.preload.ts:1315-1330 | readers are back at the committed map; triples stay pending |
| `ZoneStore.CommitForgetsExactly` | ts/SignalProtocolStore.preload.ts:1270-1282 | a commit forgets a cached triple if and only if it removes that triple's prekey |
| `ZoneStore.CommitRemembers` | ts/SignalProtocolStore.preload.ts:1263-1265 | every pending triple of a last-resort key is remembered after the commit |
| `ZoneStore.DuplicateMeansSeen` | ts/SignalProtocolStore.preload.ts:559-582 | the duplicate verdict holds exactly for this very triple, committed or pending |
| `ZoneStore.DuplicateUntilRemoved` | ts/SignalProtocolStore.preload.ts:535-583 | a committed triple is rejected as a duplicate exactly until a commit removes its prekey, over every run |
| `ZoneStore.UseMeans` | ts/SignalProtocolStore.preload.ts:535-583 | the verdict on a use by what the database holds, and what it then leaves pending |
| `ZoneStore.UsedOnce` | ts/SignalProtocolStore.preload.ts:559-582 | from the accepted use on, the same triple is rejected over every run whose commits go through, until a commit removes the prekey |
| `ZoneStore.UseThenCommit` | ts/SignalProtocolStore.preload.ts:559-582 | what the commit after a use means for the next use: rejected if it went through, accepted again if it failed, with the exact condition |
| `ZoneStore.UsedUp` | ts/SignalProtocolStore.preload.ts:585-613 | a one-time prekey is unknown after the first commit that goes through |
| `ZoneStore.RemovalAndUseCannotCommit` | ts/SignalProtocolStore.preload.ts:566-568 | a last-resort prekey about to be removed can still be used, and then the commit is rejected |
| `ZoneStore.CoherentForever` | ts/SignalProtocolStore.preload.ts:1261-1313 | over any writes, reads, commits and reverts, caches hold the database's rows and pending entries are hydrated |
| `ZoneStore.RevertedTripleIsCommitted` | ts/SignalProtocolStore.preload.ts:1325-1330 | a reverted body's triple is written by the next commit |
| `ZoneLock.BatchLength` | ts/SignalProtocolStore.preload.ts:1375-1382 | the maximal same-zone run at the queue's front |
| `ZoneLock.StepKeepsLockInv` | ts/SignalProtocolStore.preload.ts:1158-1208 | every step keeps one zone, exact depth, a head waiting for another zone, first in first out |
| `ZoneLock.LockInvAlways` | ts/SignalProtocolStore.preload.ts:1158-1390 | so it holds in every interleaving |
| `ZoneLock.OwnZoneEntersAtOnce` | ts/SignalProtocolStore.preload.ts:1165-1189 | a call for a free lock or the zone held enters at once whoever is queued; one for another zone goes to the end of the queue |
| `ZoneLock.InnerEndsTouchNothing` | ts/SignalProtocolStore.preload.ts:1191-1207 | an end that is not the outermost touches no data; the outermost one hands pending over or reverts |
| `ZoneLock.AwaitedEndMeans` | ts/SignalProtocolStore.preload.ts:1248-1312 | a batch lands whole beside what has become pending since, or nothing changes and its body stays |
| `ZoneLock.StuckForGood` | ts/SignalProtocolStore.preload.ts:1202-1205 | a body whose commit threw stays inside and its zone stays held |
| `ZoneLock.WakesMaximalBatch` | ts/SignalProtocolStore.preload.ts:1368-1390 | a leaving body takes only itself out; a wake-up takes exactly the maximal same-zone batch, each as a running body, when the last one leaves |
| `ZoneLock.SettlingProgresses` | ts/SignalProtocolStore.preload.ts:1189-1207 | each body end, commit, revert or landed flush uses up work; a write adds none, or one step if it is flushed at once |
| `ZoneLock.NeverDeadlocked` | ts/SignalProtocolStore.preload.ts:1158-1390 | unless a commit threw, someone can always go on |
| `ZoneLock.EveryWaiterRuns` | ts/SignalProtocolStore.preload.ts:1348-1390 | with no new calls and the commits that end occupancies succeeding, while bodies write, flush and fail freely: boundedly many ends, and then the zone is free and every waiter was woken in order |
| `ZoneTransactions.LeftBehindExactly` | ts/SignalProtocolStore.preload.ts:1202-1207 | in every interleaving, with the zone free: revertible writes are left behind if and only if a call entered in the middle of a non-empty commit and afterwards a write was kept pending with no flush or outermost end after it |
| `ZoneTransactions.PendingIsLastWord` | ts/SignalProtocolStore.preload.ts:1218-1244 | at every moment something revertible is pending if and only if a write came after the last flush or outermost end |
| `ZoneTransactions.NothingLeftWithoutJoining` | ts/SignalProtocolStore.preload.ts:1239-1259 | if no call enters a zone while its commit is being written, nothing is left behind |
| `ZoneTransactions.GlobalZoneLeavesNothing` | ts/SignalProtocolStore.preload.ts:1488-1506 | with calls for the global zone only, nothing revertible is ever left pending between steps |
| `ZoneTransactions.SucceededWriteCanBeLost` | ts/SignalProtocolStore.preload.ts:1202-1207 | a run in which a succeeded body's write, made while another's was being written, is dropped by another zone's failure |
| `ZoneTransactions.NothingPendingWhenFree` | ts/SignalProtocolStore.preload.ts:1189-1207 | with whole commits, the five revertible collections are empty whenever no zone is held |
| `ZoneTransactions.LastBodyDecides` | ts/SignalProtocolStore.preload.ts:1189-1207 | the last body of an occupancy decides: every write of every body since the zone was free or last flushed, in order, or none |
| `SignalProtocolStore.SignalProtocolStore.WithZone` | ts/SignalProtocolStore.preload.ts:1158-1187 | enters at once if and only if no zone or this one is held, and queues otherwise, as the lock machine does |
| `SignalProtocolStore.SignalProtocolStore.LeaveZone` | ts/SignalProtocolStore.preload.ts:1348-1390 | the shift loop and the re-entries give the lock machine's state and batch |
| `SignalProtocolStore.SignalProtocolStore.ApplyBatch` | ts/SignalProtocolStore.preload.ts:1261-1312 | the loops over removals and cached keys give the specified caches |
| `SignalProtocolStore.SignalProtocolStore.CommitZoneChanges` | ts/SignalProtocolStore.preload.ts:1210-1313 | the whole commit with nothing in between is the specified one, and goes through exactly if nothing was pending or the database works and takes every triple |
| `SignalProtocolStore.SignalProtocolStore.BeginCommit` | ts/SignalProtocolStore.preload.ts:1211-1244 | the part before the wait: pending is handed over whole, or nothing if all six are empty |
| `SignalProtocolStore.SignalProtocolStore.FinishCommit` | ts/SignalProtocolStore.preload.ts:1248-1312 | the write and what follows it: the batch lands on whatever the store has become meanwhile, or nothing changes |
| `SignalProtocolStore.SignalProtocolStore.RevertZoneChanges` | ts/SignalProtocolStore.preload.ts:1315-1330 | clears five of the six collections |
| `SignalProtocolStore.SignalProtocolStore.BodySettled` | ts/SignalProtocolStore.preload.ts:1189-1207 | only the outermost end commits or reverts, and a throwing commit never leaves |
| `SignalProtocolStore.SignalProtocolStore.StoreSession` | ts/SignalProtocolStore.preload.ts:1488-1506 | notes the session, committing at once in a zone without pending sessions |
| `SignalProtocolStore.SignalProtocolStore.SaveSenderKey` | ts/SignalProtocolStore.preload.ts:949-990 | the same for a sender key, where a failed immediate commit is swallowed |
| `SignalProtocolStore.SignalProtocolStore.RemovePreKeys` | ts/SignalProtocolStore.preload.ts:715-741 | every id of the list is noted, then committed at once where the zone cannot wait |
| `SignalProtocolStore.RemovalsAreAll` | ts/SignalProtocolStore.preload.ts:731-735 | every id of the list is then about to be removed, and nothing else changes |
| `SignalProtocolStore.SignalProtocolStore.AddUnprocessed` | ts/SignalProtocolStore.preload.ts:2517-2529 | the same for an unprocessed envelope |
| `SignalProtocolStore.SignalProtocolStore.MaybeRemoveKyberPreKey` | ts/SignalProtocolStore.preload.ts:535-583 | unknown, one-time, duplicate and new last-resort uses, with immediate commits and their failures |
| `SignalProtocolStore.SignalProtocolStore.LoadSession` | ts/SignalProtocolStore.preload.ts:1392-1435 | the overlay read with write-back to where the entry came from |
| `SignalProtocolStore.SignalProtocolStore.GetSenderKey` | ts/SignalProtocolStore.preload.ts:992-1038 | the overlay read with write-back to the committed cache |
| `SignalProtocolStore.SignalProtocolStore.LoadPreKey` | ts/SignalProtocolStore.preload.ts:625-658 | the overlay read that hides pending removals |
| `IdentityRecords.VerifiedKeyIsVouched` | ts/SignalProtocolStore.preload.ts:2290-2455 | over all runs and restarts, a VERIFIED record, cached or stored, carries the key of the latest call that made it so |
| `IdentityRecords.CallKeepsVouched` | ts/SignalProtocolStore.preload.ts:2074-2206 | every single call keeps that, failing writes and migrations included |
| `IdentityRecords.ReplacingUnverifies` | ts/SignalProtocolStore.preload.ts:2139-2175 | a replaced key is unverified exactly if it had a non-default status, and never verified |
| `IdentityRecords.ReplacedKeyStaysBlocked` | ts/SignalProtocolStore.preload.ts:1974-2023 | sending is then refused for every key at every time under any further saves, approvals and restarts |
| `IdentityRecords.VouchersChangeOnly` | ts/SignalProtocolStore.preload.ts:2290-2455 | a voucher changes only with a call that makes the record verified, or moves with it |
| `IdentityTrust.OnlyTheStoredKey` | ts/SignalProtocolStore.preload.ts:2003-2022 | with a record, no key but the stored one is ever trusted |
| `IdentityTrust.WithoutRecord` | ts/SignalProtocolStore.preload.ts:1979-2001 | without a record, any key is unless another one is known from before |
| `IdentityTrust.NewContactIsTrusted` | ts/SignalProtocolStore.preload.ts:2109-2127 | the key a new contact is saved with is trusted at once and for good, and no other |
| `IdentityTrust.ReplacedKeyMatures` | ts/SignalProtocolStore.preload.ts:2208-2214 | after replacing the key of a contact of default status, the old key is never trusted, the new one exactly once approved or five seconds old |
| `IdentityTrust.ApprovalUnblocks` | ts/SignalProtocolStore.preload.ts:2260-2287 | approving changes just the approval, and when the stored key is then trusted |
| `IdentityTrust.SaveAnswers` | ts/SignalProtocolStore.preload.ts:2074-2206 | exactly when a save replaces a key, what it keeps otherwise, and why it throws |
| `IdentityTrust.SaveOfSameKey` | ts/SignalProtocolStore.preload.ts:2194-2203 | an unchanged key has its approval set exactly while that is pending |
| `IdentityTrust.VerifyStores` | ts/SignalProtocolStore.preload.ts:2290-2322 | exactly when a status is set, and the record it leaves |
| `IdentityTrust.SyncStores` | ts/SignalProtocolStore.preload.ts:2378-2455 | a sync stores the key and status it brings, and which key is then trusted |
| `IdentityTrust.SyncAnswers` | ts/SignalProtocolStore.preload.ts:2378-2455 | exactly when a sync gets done |
| `IdentityTrust.ThrowingKeeps` | ts/SignalProtocolStore.preload.ts:2074-2455 | a call that throws leaves key, status and age of the record alone |
| `IdentityTrust.ApprovalShowsAnyway` | ts/SignalProtocolStore.preload.ts:2280-2287 | an approval shows at once in the cache even if its write fails |
| `IdentityTrust.RemovalRemoves` | ts/SignalProtocolStore.preload.ts:2481-2490 | a removed record is gone from the cache in any case, from the database if that works |
| `IdentityTrust.RecordMoves` | ts/SignalProtocolStore.preload.ts:1881-1926 | a record moves over to the service id unchanged and leaves its old id |
| `IdentityTrust.OthersUntouched` | ts/SignalProtocolStore.preload.ts:2074-2490 | no call touches anybody else's record |
| `IdentityKeyStore.IdentityKeyStore.SaveIdentity` | ts/SignalProtocolStore.preload.ts:2074-2206 | the in-place method is the specified call |
| `IdentityKeyStore.IdentityKeyStore.GetOrMigrateIdentityRecord` | ts/SignalProtocolStore.preload.ts:1881-1926 | moves a record over from its conversation id, or throws having moved nothing |
| `IdentityKeyStore.IdentityKeyStore.SetApproval` | ts/SignalProtocolStore.preload.ts:2260-2287 | changes the cached record before the write |
| `IdentityKeyStore.IdentityKeyStore.SetVerified` | ts/SignalProtocolStore.preload.ts:2290-2322 | validates first, then sets the status |
| `IdentityKeyStore.IdentityKeyStore.UpdateIdentityAfterSync` | ts/SignalProtocolStore.preload.ts:2378-2455 | the specified call, and exactly when a notification is due |
| `IdentityKeyStore.IdentityKeyStore.RemoveIdentityKey` | ts/SignalProtocolStore.preload.ts:2481-2490 | drops the cached record even if the database fails |
| `RecordingQueue.FilesFollowAcceptedPrefix` | app/minutes_call_recording_channel.main.ts:257-296 | in every interleaving: bytes queued are those unsettled, within the limit; both files are projections of one accepted prefix plus one torn chunk |
| `RecordingQueue.AcceptedIffRoom` | app/minutes_call_recording_channel.main.ts:262-270 | a chunk is accepted, last in line, exactly if with it no more than the limit is unsettled |
| `RecordingQueue.SettlingWrites` | app/minutes_call_recording_channel.main.ts:278-295 | what a settled write leaves in each file |
| `RecordingQueue.NothingAfterFailure` | app/minutes_call_recording_channel.main.ts:278-296 | nothing is written after the first failure |
| `RecordingQueue.DrainOnlyShrinks` | app/minutes_call_recording_channel.main.ts:426-438 | from an abort on nothing more is accepted and the queue only drains |
| `RecordingQueue.DrainKeepsAccount` | app/minutes_call_recording_channel.main.ts:429-433 | draining to the tail of the chain writes everything accepted, or everything before the first failure |
| `RecordingQueue.RecordingSession.AppendBytes` | app/minutes_call_recording_channel.main.ts:257-271 | accepts exactly what fits and queues it last |
| `RecordingQueue.RecordingSession.WriteAfterPending` | app/minutes_call_recording_channel.main.ts:273-296 | the head of the chain is written, torn or skipped, and its bytes released |
| `RecordingQueue.RecordingSession.DrainAndClose` | app/minutes_call_recording_channel.main.ts:429-437 | waits for the chain's tail, however the writes go, and only then closes the handles |
| `RecordingPublish.Finalize` | app/minutes_call_recording_channel.main.ts:298-408 | all or nothing; every state on the way safe whatever fails; success means media synced, handles closed and no failure passed over; without faults it succeeds exactly if the handles are open, no queued write failed and no stale companion partial is in the way; after a failed queued write the MP3 partial is untouched |
| `RecordingPublish.RollBack` | app/minutes_call_recording_channel.main.ts:369-391 | if cleanup succeeds, just the two media partials are left and both handles are closed |
| `RecordingPublish.SettlePartials` | app/minutes_call_recording_channel.main.ts:326-358 | success means both media synced, companions written, both handles closed, and no failure passed over |
| `RecordingPublish.SidecarsRenamed` | app/minutes_call_recording_channel.main.ts:343-368 | partials written and renamed are the published recording |
| `RecordingPublish.PublishesWhatWasAccepted` | app/minutes_call_recording_channel.main.ts:321-326 | the MP3 is the accepted chunks and final frame with the lametag over their start, the PCM the accepted chunks |
| `RecordingSessions.MemoryIsLastAborts` | app/minutes_call_recording_channel.main.ts:452-467 | over every run the abort memory is the last min(n, 32) aborts in order, disjoint from live sessions |
| `RecordingSessions.RepeatedAbort` | app/minutes_call_recording_channel.main.ts:410-424 | a repeated abort answers the same path exactly for its owner and within 32 later aborts |
| `RecordingSessions.AbortMeans` | app/minutes_call_recording_channel.main.ts:414-427 | what every caller's abort answers and changes: the owner's, a stranger's, and one of an unknown session |
| `RecordingSessions.FinalizeMeans` | app/minutes_call_recording_channel.main.ts:303-401 | a finalize ends the session exactly if it is the caller's and was published |
| `RecordingSessions.OthersUntouched` | app/minutes_call_recording_channel.main.ts:469-475 | no call changes, adds or removes another owner's session |
| `RecordingSessions.OnlyTheOwnerEnds` | app/minutes_call_recording_channel.main.ts:234-255 | over every run a session lasts until its owner publishes or aborts it |
| `RecordingSessions.CallRecordingFileWriter.AppendTo` | app/minutes_call_recording_channel.main.ts:234-255 | touches only the caller's own session |
| `RecordingSessions.CallRecordingFileWriter.BeginAbort` | app/minutes_call_recording_channel.main.ts:410-428 | the lookup, removal and memory, leaving the drain to the session |
| `RecordingSessions.CallRecordingFileWriter.Abort` | app/minutes_call_recording_channel.main.ts:410-439 | the whole abort: answer, memory, drained queue, closed handles |
| `RecordingSessions.CallRecordingFileWriter.Retire` | app/minutes_call_recording_channel.main.ts:401-401 | a published session is no longer live |
| `DatabaseKey.CustodyKept` | app/main.main.ts:1750-1860 | wherever a start is cut off, the key held is still held in coherent copies |
| `DatabaseKey.ReturnedIsHeld` | app/main.main.ts:1836-1859 | a returned key is on disk exactly unless it was misread |
| `DatabaseKey.PlaintextErasedOnlyWithCopy` | app/main.main.ts:1798-1812 | the plaintext copy goes only with a confirmed or brand new sealed copy |
| `DatabaseKey.ReturnsAgain` | app/main.main.ts:1771-1786 | after a start got through or was cut off on its way, a settled machine returns the held key |
| `DatabaseKey.BackendMustMatch` | app/main.main.ts:1773-1786 | exactly when a start is refused for its backend, with nothing written |
| `DatabaseKey.SealedKeyIsRead` | app/main.main.ts:1789-1817 | with secret storage in order a rightly decrypted key is the answer, its plaintext copy goes and the backend is recorded |
| `DatabaseKey.ContradictedKey` | app/main.main.ts:1803-1811 | a decryption that contradicts the plaintext copy: quit with nothing written, or that copy used and kept |
| `DatabaseKey.SealedKeyNotRead` | app/main.main.ts:1762-1796 | exactly when a sealed key cannot be read, with nothing written |
| `DatabaseKey.KeyIsStored` | app/main.main.ts:1818-1859 | without a sealed key: which key is the answer, when it is sealed, and when a plaintext copy is kept |
| `DatabaseKey.WritesInOrder` | app/main.main.ts:1836-1853 | each write changes one entry, the sealed key comes first, the backend last |
| `DatabaseKey.CutOffMeans` | app/main.main.ts:1836-1859 | when a start is cut off, and that it leaves one of the configurations on its way |
| `DatabaseKey.SameKeyIff` | app/main.main.ts:1750-1860 | over all starts, a later start returns the first key if and only if it does not misread |
| `DatabaseKey.SameKeyAlways` | app/main.main.ts:1750-1860 | with decryption right once no plaintext is left, all returning starts agree |
| `DatabaseKey.SealedForGood` | app/main.main.ts:1789-1817 | the sealed key is never rewritten, plaintext never comes back, the backend stays pinned |
| `DatabaseKey.FlatpakConfirms` | app/main.main.ts:1841-1846 | on Flatpak plaintext goes only after some start decrypted correctly |
| `DatabaseKey.KilledBetweenWritesOnFlatpak` | app/main.main.ts:1838-1846 | why the hypothesis on decryption is needed |
| `DatabaseKey.HandleSafeStorageDecryptionError` | app/main.main.ts:1864-1895 | quit, continue, or continue from before, with the one write it makes |
| `DatabaseKey.GetSQLKey` | app/main.main.ts:1750-1860 | outcome, final configuration and the exact sequence of writes, for every cut-off |

## Left out

- `combineConversations` and conflict checks: a merge request is recorded, not carried out.
- Phone number discovery, title data, logs, events, unread counts and mute timers of the controller.
- Usernames, and the setter of group ids, which is like the other three; group ids are looked up and rebuilt.
- UUIDs are not generated: the id of a new conversation is an argument and its object is allocated up front.
- ConversationController.ConversationController.UpdateServiceId: does not model normalising the value, removing the old identity key, carrying over blocking, or saving; none of them touches the identifiers or lookups.
- ConversationController.ConversationController.UpdateE164: does not model carrying over blocking, the change-number notice, or saving.
- ConversationController.ConversationController.UpdatePni: does not model the signature-verified flag, keeping the previous identity key, or removing the old one.
- ConversationController.ConversationController.GetOrCreate: makes private conversations only; group creation, the read-only error and the promise of saving are not modelled.
- ConversationNumbers.DispatchExactIff: models the lookup by number only; the interface's other lookups are built by the same code.
- Asynchronous effects of a removal on selection and composer state in the user interface.
- SignalProtocolStore.SignalProtocolStore.CommitZoneChanges: joins the two halves of a commit with nothing in between; `BeginCommit`, `FinishCommit` and `ZoneLock` have them apart.
- Session, sender key and prekey contents, their serialisation and in-place archiving; hydration is a pure function.
- Sessions are looked up by id only; device filtering in `getOpenDevices` is a filter over the union proved here.
- Writers that go straight to cache and database outside a commit (storing and confirming prekeys, removing or clearing rows).
- A body that awaits a call for a different zone waits on itself; the machine has no such dependency.
- `saveIdentityWithAttributes` as an entry point, session archiving and key-change notices after a save.
- Schema checks on identity records are reduced to the timestamp being positive.
- Files are maps from name to bytes; file names and the exclusive creation of the two partials are not modelled.
- `recoverInterruptedCallRecordings`, reaping of stale partials, and the video writer, which is the same machine.
- RecordingPublish.Finalize: a rename that reports failure after taking effect is not modelled.
- The dialog, the automatic backend migration, and deleting all data, which remove or bypass the stored key.
- Configuration entries of a wrong type are read as missing.
