# dee-relay, modelled and proved in Dafny

dee-relay is a store-and-forward relay for sealed messages. It keeps everything in
memory, replicates by pulling pages from its peers, passes attachments through in
small windows, hands out one-time prekeys, reports presence and admits callers by
challenge and response. This project models the parts where state, time and
bookkeeping meet, and proves what they promise over every run.

`dafny verify dfyconfig.toml` checks everything.

## How it is laid out

Each component has a value model (a state and what each locked method body does to
it, written with plain scans), rules (what holds over every run of that model) and a
class (the source's tables updated in place, loop by loop, each method proved to do
to its abstract view exactly what the model's step does).

| component | model | rules over runs | class |
|---|---|---|---|
| queue store | `QueueModel`, `QueueRequest` | `QueueMoves`, `QueueSteps`, `QueueInvariant`, `QueueAckLane`, `QueueSafety`, `QueueQuotas`, `QueueTags`, `QueueImport`, `QueueArrivals`, `QueueDrain`, `QueueContents`, `QueueAnswers` | `QueueStore` (with `QueueIndex`, `QueuePaging`) |
| pull replication | `Mesh` | `MeshPaging`, `MeshOutcome`, `MeshFullTable`, `MeshOnce`, `MeshDrain`, `SyncDrain` | `Syncer` |
| attachment relay | `Attachment`, `TransitRing`, `Bitmap` | `AttachmentLives`, `AttachmentTransit`, `AttachmentAnswers` | `AttachmentRelay`, `TransitRing.TransitWindow` |
| prekey pools | `Prekey` | `PrekeyIssue`, `PrekeyLimits`, `PrekeyAnswers` | `PrekeyStore` |
| presence | `Presence` | `PresenceRules`, `PresenceRevocations`, `PresenceAnswers` | `PresenceStore` |
| admission sessions | `Sessions` | `SessionRules`, `SessionAnswers` | `SessionStore` |
| redemption codes | `RedemptionCode` | | `RedemptionCode.NewCode`, `NormalizeCode` |
| queue capabilities | `Capability` | | `Capability.NewAuth` |

The modules named `Answers` tie the models to the requests alone: what each call is
answered, as the first failing entry of a table of checks or as an if-and-only-if over
the run, and what its effect is, written without the models' own functions.

`Text` holds trimming, byte lengths and the NUL-joined key; `Groups`, `Sorting`,
`Sizes` and `Common` are shared vocabulary.

Conventions. A method body under its mutex is one step; `now` is the clock reading
that call used, and readings may come out of order unless a theorem says otherwise.
Go's `range` over a map is a loop that takes keys in any order. Instants are integers
in nanoseconds and zero is Go's zero time. Random tokens, secrets' hashes and Ed25519
verification (section 5.1.7 of RFC 8032) are parameters. A few predicates are written
as `forall i {:trigger Unsealed(i)} :: Unsealed(i) ==> body`, with a lemma that supplies
`Unsealed(0)`: it keeps a large body out of proofs that only pass the predicate on.

## Where the code and its comments part

- `pairKey` is said never to confuse two pairs. Trimming does not remove a NUL, so two
  pairs of trimmed names can share a key (`Text.JoinNulCollision`). A pair has its key to
  itself exactly if no NUL but the joining one stands between two non-space characters
  of the key (`Text.JoinNulUnambiguous`), and then its lane is its own mail
  (`QueueQuotas.LaneIsThePair`).
- A lane is said never to hold more than the pair quota. A post meets it always;
  replicated mail is not asked (`QueueQuotas.ImportCanOverfill`, `OnlyImportsOverfill`),
  and an adoption meets it exactly if it finds the lane below the quota
  (`QueueQuotas.AdoptionMeetsQuotaIff`). Of the mail posted here no lane ever holds more
  than the quota, imports or not (`QueueQuotas.LaneQuotaHolds`).
- Ack pressure is said never to refuse a posted message. It can between sweeps of the
  ack lane (`QueueAckLane.AckPressureCanRefuse`); `QueueAckLane.PostRefusedForAcksIff`
  says exactly when, and `PostNeverRefusedForAcks` that it cannot once the lane is swept.
- A terminal ack wins over its message on import but not on a post that comes later:
  `QueueSafety.TerminalAckThenPost`, and `QueueSafety.PostSettledIff`.
- The daily transit ceiling is not applied to the first push of a circle that has no
  window yet: `AttachmentTransit.FirstPushPassesTheCeiling` and `CeilingMetIff`.

Two things no comment promises but a reader may expect, and how far they hold:

- Paging carries every record to the puller but the puller may have no room for one, and
  then its cursor passes it all the same: `MeshFullTable.FullTablePassesOver`, and
  `MeshOutcome.PassedIsSettled` for every other way a passed record can have ended.
- A presence revocation keeps older leases of its owner out, but not for as long as it
  runs: a newer lease of that owner lifts it, and older ones get in again:
  `PresenceRevocations.StaleLeaseReturns`, and `StaleLeaseStoredIff` for exactly when.

## Model

| member | source | states |
|---|---|---|
| Common.LowerOf | internal/queue/store.go:54-66 | a credential's figure only ever lowers the box's, zero or less means the box's own, and the result stays positive |
| Text.JoinNulUnambiguous | internal/queue/store.go:926-931 | among pairs of trimmed nonempty names, a pair shares its key with no other if and only if the key has no NUL between two non-space characters except the joining one |
| Text.NulFreeUnambiguous | internal/queue/store.go:926-931 | a pair without a NUL in it shares its key with no pair of strings at all |
| Text.JoinNulCollision | internal/queue/store.go:926-931 | two different pairs of trimmed nonempty names with one key |
| Text.TrimCuts | internal/queue/store.go:268-274 | trimming takes white space off both ends, all of it and nothing else |
| QueueModel.CoupledIdInjective | internal/queue/store.go:904-924 | different messages have different coupled ack ids |
| QueueInvariant.MoveKeepsSound | internal/queue/store.go:776-808 | each single change of the records keeps ids, arrival numbers and tag bindings sound |
| QueueInvariant.MoveKeepsCapped | internal/queue/store.go:789-808 | each single change keeps messages, acks and tombstones within their caps |
| QueueInvariant.RunKeeps | internal/queue/store.go:93-184 | what every legal move and the passing of time keep holds after every run |
| QueueInvariant.Reachable | internal/queue/store.go:93-184 | in every reachable state records are under their own ids, arrival numbers are distinct across both kinds and never above the counter, an id is bound exactly while a record names it, and all caps hold |
| QueueSteps.StepMoves | internal/queue/store.go:268-343 | every public call is a list of legal moves, each justified by the call's own arguments |
| QueueAckLane.AckLaneReserve | internal/queue/store.go:190-200 | in every reachable state, at every time from the clock on, live acks number at most the external budget plus the live messages whose coupled ack is stored |
| QueueAckLane.PostNeverRefusedForAcks | internal/queue/store.go:268-343 | with no expired ack unswept, a post that passes the earlier checks with an unused ack id is accepted |
| QueueAckLane.PostRefusedForAcksIff | internal/queue/store.go:789-808 | in any reachable state such a post is refused if and only if the whole lane is occupied, which takes an expired unswept ack |
| QueueAckLane.SweptAfterPrune | internal/queue/store.go:653-674 | right after PruneExpired or SnapshotSince no expired ack is stored |
| QueueAckLane.AckPressureCanRefuse | internal/queue/store.go:190-200 | a family of three-call runs after which a valid post is refused for ack capacity |
| QueueSafety.BoundedLifetime | internal/queue/store.go:286-300 | in every run every stored record expires within maxTTL of the clock |
| QueueSafety.PurgedMailStaysGone | internal/queue/store.go:311-315 | while an owner's tombstone is stored and unexpired none of that owner's mail is queued, posted or replicated |
| QueueSafety.MailLeavesOnlyForCause | internal/queue/store.go:398-463 | a queued message a call removes was removed by an accepted terminal ack permitted by the bound tag, a sweep at or past its expiry, a purge of its own hash, or a page carrying a terminal ack or tombstone for it |
| QueueSafety.RunLosesMailOnlyForCause | internal/queue/store.go:999-1022 | the same of every call of every run |
| QueueSafety.PostSettledIff | internal/queue/store.go:268-343 | an accepted post leaves no message beside its terminal ack if and only if no stored terminal ack names its id |
| QueueSafety.TerminalAckWins | internal/queue/store.go:459-461 | in every run whose posts avoid acked ids no queued message is named by a stored terminal ack, whichever came first and by post or import |
| QueueSafety.TerminalAckThenPost | internal/queue/store.go:886-902 | terminal ack first, post second: both are stored |
| QueueQuotas.AcceptedWithinQuotas | internal/queue/store.go:317-334 | an accepted post found its lane and its circle strictly below their quotas |
| QueueQuotas.LaneQuotaHolds | internal/queue/store.go:316-321 | over every run, imports included, no sender-recipient lane ever holds more of the mail posted here than the pair quota |
| QueueQuotas.OnlyImportsOverfill | internal/queue/store.go:316-321 | in every reachable state, a call that makes a lane longer and leaves it over the quota is an import |
| QueueQuotas.AdoptionMeetsQuotaIff | internal/queue/store.go:810-853 | an adopted message leaves its lane within the quota if and only if it found the lane below the quota, and leaves every other lane as it was |
| QueueQuotas.ImportCanOverfill | internal/queue/store.go:810-853 | a page of two messages that takes a lane past a quota of one |
| QueueQuotas.LaneQuotaWithoutImports | internal/queue/store.go:316-321 | on a relay that imports nothing every lane stays within the quota |
| QueueQuotas.RequestsAreTrimmed | internal/queue/store.go:268-271 | what reaches the store by a post or a page has trimmed names |
| QueueQuotas.LaneIsThePair | internal/queue/store.go:926-931 | in every reachable state a lane holds exactly the messages of its own sender and recipient, for every pair whose key can be cut in one place only |
| QueueQuotas.SlotsHold | internal/queue/store.go:323-333 | whatever is imported, a circle whose posts all come with at most that many slots never has more queued |
| QueueTags.TagIsWriteOnce | internal/queue/store.go:933-973 | the first nonempty tag bound to an id stays until the last record naming it leaves, the envelope's own removal included |
| QueueTags.AcceptedAckMatchesFirstTag | internal/queue/store.go:434-476 | every caller-posted ack accepted for the id in that span was permitted by that first tag |
| QueueImport.ImportIsIdempotent | internal/queue/store.go:608-651 | if the first import met no full table, importing the same page again at the same time changes nothing, the arrival counter included |
| QueueArrivals.StepOnlyNewer | internal/queue/store.go:978-989 | whatever a call stores new gets a number above the old counter, and no stored record is renumbered |
| QueueDrain.ImportNeverExtends | internal/queue/store.go:810-902 | each record an import leaves was there before or came on the page under that id, and ends no later than the page said if it said when |
| QueueDrain.ImportDue | internal/queue/store.go:810-902 | one bound on every expiry stored and on the page bounds every expiry after the import |
| QueueDrain.StepDue | internal/queue/store.go:413-423 | a bound on all stored expiries survives every call that does not store beyond it |
| QueueDrain.DrainedBooks | internal/queue/store.go:93-184 | with no records every counter and index is empty |
| QueueDrain.SweepDrains | internal/queue/store.go:653-674 | a sweep once everything is due leaves no record, number, charge or binding |
| QueueDrain.StaysDrained | internal/queue/store.go:810-893 | from then on pages still in flight bring nothing back |
| QueueContents.RecordsAreAsSent | internal/queue/store.go:268-300 | over every run of requests each stored letter was posted or came on a page, names and payload trimmed, a post's tags trimmed and a page's as they came, life as asked and clamped, all else unchanged; each stored ack was posted, came on a page or is the receipt of a posted letter, field by field |
| QueueAnswers.PostAnswered | internal/queue/store.go:268-343 | a post is answered by the first failing of ten checks, stated on the request and the tables |
| QueueAnswers.PostReceipted | internal/queue/store.go:268-343 | it comes with a receipt exactly if it is accepted or its id is queued already, and the receipt names its sender, recipient, id and tags and lasts as long |
| QueueAnswers.PostTakesEffect | internal/queue/store.go:268-343 | a refused post changes nothing; an accepted one adds the letter and its receipt, charges the circle, and binds the letter's tag unless a nonempty one is bound |
| QueueAnswers.ReceiptIsTheSenders | internal/queue/store.go:904-924 | the receipt of an accepted post is fetched by whoever asks in the sender's name and proves the sender's tag, and by nobody else |
| QueueAnswers.AckAnswered | internal/queue/store.go:398-463 | a posted ack is answered by the first failing of five checks, the bound tag among them |
| QueueAnswers.AckTakesEffect | internal/queue/store.go:398-463 | a refused ack changes nothing; an accepted one is stored under the bound tag and removes its message exactly if it is of the five settling kinds |
| QueueAnswers.ImportAnswered | internal/queue/store.go:810-855 | a replicated message is answered by the first failing of its checks |
| QueueAnswers.ImportAckAnswered | internal/queue/store.go:857-893 | and so is a replicated ack |
| QueueAnswers.FetchSees | internal/queue/store.go:349-379 | a fetch sees exactly the unexpired letters to that name whose tag the caller proves |
| QueueAnswers.AckFetchSees | internal/queue/store.go:480-510 | the same of acks and the sender's tag |
| QueueAnswers.FetchedWasSent | internal/queue/store.go:349-379 | over every run whoever fetches gets only what was sent to that name, as it was sent, under a tag they prove |
| QueueAnswers.PurgeTakesEffect | internal/queue/store.go:682-730 | exactly the owner's letters and the acks about them go, and the tombstone stands if there is room or the owner had one |
| QueueSteps.PurgeIsBurial | internal/queue/store.go:682-691 | an owner's purge is that, with a tombstone for the default time |
| QueueAnswers.SweepKeepsTheLiving | internal/queue/store.go:653-674 | a sweep keeps exactly what has not run out, of all three tables |
| QueueIndex.NamedIffCounted | internal/queue/store.go:933-973 | an id is named by some record exactly when its reference count is positive |
| QueueIndex.BindKeepsRefs | internal/queue/store.go:948-958 | binding one more record keeps every reference count exact |
| QueueIndex.ReleaseKeepsRefs | internal/queue/store.go:962-973 | releasing one keeps them exact and drops the binding with the last record |
| QueueIndex.WholeWithMessage | internal/queue/store.go:978-989 | adding a message keeps pair and credential counts, bindings and both deletion indexes equal to their definitions |
| QueueIndex.WholeWithoutMessage | internal/queue/store.go:999-1022 | so does deleting one |
| QueueIndex.WholeWithAck | internal/queue/store.go:789-808 | so does adding an ack |
| QueueIndex.WholeWithoutAck | internal/queue/store.go:1037-1046 | so does deleting one |
| Groups.CountInsert | internal/queue/store.go:978-989 | incrementing keeps a counter map exact, with no empty entries |
| Groups.CountRemove | internal/queue/store.go:999-1022 | decrementing or deleting keeps it exact |
| Groups.IndexInsert | internal/queue/store.go:749-759 | adding to a reverse index keeps it exact |
| Groups.IndexDelete | internal/queue/store.go:761-770 | removing from it keeps it exact, with no empty sets |
| QueueStore.Store.constructor | internal/queue/store.go:186-241 | starts empty, with corrected caps |
| QueueStore.Store.AddMessageLocked | internal/queue/store.go:978-989 | stores a message and keeps every derived structure exact |
| QueueStore.Store.DeleteMessageLocked | internal/queue/store.go:999-1022 | removes exactly that message from records and all books |
| QueueStore.Store.AddAckWithinLocked | internal/queue/store.go:789-808 | the ack checks in order, then the ack stored and indexed |
| QueueStore.Store.DeleteAckLocked | internal/queue/store.go:1037-1046 | removes exactly that ack from records and all books |
| QueueStore.Store.HasTerminalAckLocked | internal/queue/store.go:895-902 | the index lookup agrees with a scan of all acks |
| QueueStore.Store.PruneExpired | internal/queue/store.go:653-674 | removes exactly the expired records and tombstones |
| QueueStore.Store.StorePurgeLocked | internal/queue/store.go:695-700 | a tombstone is stored or refreshed unless it is new and the table is full |
| QueueStore.Store.PurgeOwnerLocked | internal/queue/store.go:710-730 | by index lookups, removes exactly the messages with that nonempty hash and exactly the acks naming them, and counts both |
| QueueStore.Store.PurgeOwner | internal/queue/store.go:682-691 | the same with the tombstone, for a trimmed hash |
| QueueStore.Store.Occupancy | internal/queue/store.go:1028-1032 | the number of messages charged to a credential |
| QueueStore.Store.AdmissionCheck | internal/queue/store.go:302-334 | duplicate, tombstone, pair quota, slots and queue cap in order, from counters, as a scan would decide |
| QueueStore.Store.AddMessageWithGrant | internal/queue/store.go:268-343 | the whole post: reply and new state as the model says, coupled ack included |
| QueueStore.Store.AddAckWithGrant | internal/queue/store.go:398-463 | the whole ack post: authorization against the bound tag, external budget, deletion of the acked message |
| QueueStore.Store.ImportSnapshot | internal/queue/store.go:608-651 | purges, messages, acks in that order; every record on the page is counted once and the arrival counter moves by the accepted ones |
| QueueStore.Store.SnapshotSince | internal/queue/store.go:531-606 | sweeps, then serves exactly the oldest pending records up to the page's own mark |
| QueueStore.Store.MessagesForRecipient | internal/queue/store.go:349-379 | sweeps messages only and returns the oldest readable ones, sorted, as many as asked |
| QueueStore.Store.AcksForSender | internal/queue/store.go:480-510 | sweeps acks only and returns the oldest readable ones |
| QueuePaging.PageIsAnInterval | internal/queue/store.go:531-606 | a page holds a record exactly if it arrived after the cursor and no later than the page's mark |
| QueuePaging.CutServes | internal/queue/store.go:560-590 | cutting the sorted pending list at the limit gives such a page, with `more` set exactly when something was left behind |
| Capability.NewAuth | internal/queue/capability.go:58-71 | only the first four nonblank secrets count, and the result permits exactly the tags they derive |
| Capability.PresentedIff | internal/queue/capability.go:58-71 | the secrets that count are exactly the first four that are not blank, trimmed |
| MeshPaging.HistoryConsistent | internal/mesh/syncer.go:194-242 | every relay, cursor, request, page in flight and cursor about to be set stays consistent over every history of the pool |
| MeshPaging.PagingNeverSkips | internal/mesh/syncer.go:194-242 | under any interleaving of posts, deletions, sweeps, restarts, losses and overlapping pulls, each reading its cursor, being served, importing and setting the cursor at four separate moments, every record a peer still holds at or below a puller's cursor in that epoch was on a page the puller imported |
| MeshOutcome.MessageTakenOrRefused | internal/queue/store.go:810-853 | each message of a page is stored after the import, or is malformed, too large or expired, its owner purged, settled by a terminal ack, or came to a full table |
| MeshOutcome.AckTakenOrRefused | internal/queue/store.go:857-902 | each ack of a page is stored after the import, or is malformed or expired, or came to a spent budget |
| MeshOutcome.SeenIsSettled | internal/mesh/syncer.go:215-228 | over every history each record a puller is said to have seen was on a page at whose import it was taken or refused for one of those causes |
| MeshOutcome.PassedIsSettled | internal/mesh/syncer.go:194-242 | so was every record a peer still holds at or below a puller's cursor in that epoch |
| MeshFullTable.FullTablePassesOver | internal/mesh/syncer.go:215-228 | a peer with two messages and a puller with room for one: the cursor passes both, one is never stored |
| MeshOutcome.TombstonesCross | internal/queue/store.go:600-624 | a page carries every tombstone of its peer, and one still running removes the puller's own mail of that owner before anything is adopted |
| MeshOnce.NeverServedTwice | internal/mesh/syncer.go:198-228 | with one pull at a time, no page carries a record under an arrival number the puller has already imported in that epoch |
| MeshDrain.SweepEmptiesAnyRelay | internal/mesh/syncer.go:216-228 | once clients stop there is a fixed time from which a sweep leaves any relay of the pool with no records and no books |
| MeshDrain.DrainedForGood | internal/mesh/syncer.go:216-228 | and it stays empty whatever pages still arrive |
| Syncer.Syncer.CursorFor | internal/mesh/syncer.go:120-124 | the stored cursor, or none |
| Syncer.Syncer.TakePage | internal/mesh/syncer.go:207-228 | a restart resets the cursor and imports nothing; any other page is imported, moves it, and both accepted figures are the records the store took |
| Syncer.Syncer.PullPage | internal/mesh/syncer.go:199-238 | what one page adds to each figure of the result, and whether to ask again, finish or give up |
| Syncer.Syncer.SyncPeer | internal/mesh/syncer.go:194-242 | at most twenty pages, each against the cursor the last one left; it stops at the first page that finishes, stalls or fails and says which; each of the five figures is the sum over the pages |
| Syncer.AcceptedAreNumbered | internal/mesh/syncer.go:215-221 | over a run every accepted record has taken one arrival number and nothing else has |
| SyncDrain.FreshSyncDrains | internal/mesh/syncer.go:41-48 | from a fresh cursor, against a peer that takes nothing in and holds at most 20 times 500 records, one run ends without error and every record the peer still holds was on a page |
| Bitmap.MarkAdds | internal/attachment/relay.go:306-337 | setting a bit adds exactly that index to the set the words encode |
| TransitRing.TotalIsWindow | internal/attachment/relay.go:179-188 | the ring's total is the log's total over the last 24 hours |
| TransitRing.TimePasses | internal/attachment/relay.go:179-188 | time takes out whole buckets, and only those due |
| TransitRing.AddStands | internal/attachment/relay.go:169-177 | charging the ring is charging the log, through slot reuse |
| TransitRing.BlankStands | internal/attachment/relay.go:339-346 | a new ring stands for a log with nothing left in the window |
| TransitRing.TransitWindow.constructor | internal/attachment/relay.go:164-167 | all buckets empty |
| TransitRing.TransitWindow.Charge | internal/attachment/relay.go:169-177 | the two arrays updated in place add to the right bucket and no other |
| TransitRing.TransitWindow.Sum | internal/attachment/relay.go:179-188 | the loop sums exactly the buckets in the window |
| AttachmentTransit.RingRefinesLog | internal/attachment/relay.go:313-347 | with a clock that does not go back, a circle's total is the sum of all bytes ever charged to it in this hour and the 23 before, through reuse and Prune |
| AttachmentTransit.CeilingMetIff | internal/attachment/relay.go:313-324 | after an accepted push the total is within the ceiling if and only if the circle had a window or the chunk fits alone |
| AttachmentTransit.TotalWithinCeiling | internal/attachment/relay.go:313-347 | with one positive ceiling throughout, the total never passes the larger of it and one chunk |
| AttachmentTransit.FirstPushPassesTheCeiling | internal/attachment/relay.go:317-324 | a one-byte ceiling lets two bytes through |
| AttachmentLives.DeliveredAtMostOnce | internal/attachment/relay.go:244-348 | over every run, a transfer's delivered and waiting chunks have distinct indices, exactly those the bitmap encodes; pushed bytes are delivered plus waiting bytes and within the ceiling |
| AttachmentLives.ReplayRefusedIff | internal/attachment/relay.go:306-309 | a chunk of a live transfer is a duplicate exactly if its index was accepted before, delivered or waiting |
| AttachmentLives.FootprintBounded | internal/attachment/relay.go:134-147 | held bytes never pass sessions times window times chunk size |
| AttachmentLives.CircleWithinShare | internal/attachment/relay.go:276-299 | a circle whose pushes all come with at most that share of transfers never has more live |
| AttachmentAnswers.PushAnswered | internal/attachment/relay.go:244-348 | a push is answered by the first failing of ten checks, stated on the request and the tables |
| AttachmentAnswers.PushTakesEffect | internal/attachment/relay.go:331-346 | an accepted chunk, trimmed and otherwise unchanged, waits last in its transfer's window, and every other live transfer is left alone |
| AttachmentAnswers.HandedToTheRecipient | internal/attachment/relay.go:380-399 | over every run a recipient is handed only chunks addressed to them under the capability they showed |
| AttachmentAnswers.DrainTakesEffect | internal/attachment/relay.go:380-399 | the recipient of a live transfer gets everything waiting in it and nobody else anything; the window is then empty and all else as it was |
| AttachmentAnswers.PushThenDrain | internal/attachment/relay.go:244-399 | an accepted chunk is the last of what its recipient drains, at any time before the transfer goes idle |
| AttachmentAnswers.TransferEndsIff | internal/attachment/relay.go:403-455 | a transfer ends exactly when a sweep finds it idle or its own id completes it |
| AttachmentRelay.CheckOffer | internal/attachment/relay.go:300-330 | the refusals of an open transfer, in the source's order |
| AttachmentRelay.AcceptChunk | internal/attachment/relay.go:331-338 | window, bytes, bitmap word and activity after an accepted chunk |
| AttachmentRelay.Relay.constructor | internal/attachment/relay.go:194-223 | starts empty, with corrected limits |
| AttachmentRelay.Relay.SweepLocked | internal/attachment/relay.go:449-455 | drops exactly the idle transfers |
| AttachmentRelay.Relay.SessionsFor | internal/attachment/relay.go:353-361 | counts exactly a circle's live transfers |
| AttachmentRelay.Relay.StatsLocked | internal/attachment/relay.go:440-447 | the footprint, summed in any order |
| AttachmentRelay.Relay.ChargeLocked | internal/attachment/relay.go:339-346 | charges the circle's window, created on first use, and no other |
| AttachmentRelay.Relay.OpenLocked | internal/attachment/relay.go:272-299 | the transfer found, opened, or refused for the box's or the circle's limit |
| AttachmentRelay.Relay.PushWithGrant | internal/attachment/relay.go:244-348 | answer and new state of a push; a transfer opened for a refused chunk stays open |
| AttachmentRelay.Relay.Drain | internal/attachment/relay.go:380-399 | hands over exactly what waits and keeps the indices remembered |
| AttachmentRelay.Relay.Complete | internal/attachment/relay.go:403-415 | removes exactly the matching transfer and reports what was waiting |
| AttachmentRelay.Relay.Prune | internal/attachment/relay.go:419-433 | drops idle transfers and windows with nothing left, and reports the footprint |
| AttachmentRelay.Relay.TransitToday | internal/attachment/relay.go:365-373 | the circle's rolling total |
| PrekeyIssue.IssuedAtMostOnce | internal/prekey/store.go:154-197 | every entry ever admitted to a pool is exactly one of queued, expired past its published TTL, or claimed once; queue and claims follow publishing order |
| PrekeyIssue.ClaimServes | internal/prekey/store.go:247-270 | a claim hands out the oldest queued entry, which is then claimed, or claims nothing and serves the reusable one, marked so |
| PrekeyAnswers.PublishRefusedIff | internal/prekey/store.go:154-166 | a publish is refused if and only if it names no owner or would open one more pool than the store carries |
| PrekeyAnswers.AdmittedWereOffered | internal/prekey/store.go:167-186 | each entry a publish adds is one of its candidates, complete, its id trimmed, dated now |
| PrekeyAnswers.LastResortIs | internal/prekey/store.go:187-197 | over every run a pool's last-resort key is the latest complete offer of an unrefused publish, exactly until a call reads a clock past its time |
| PrekeyAnswers.ClaimFallsBack | internal/prekey/store.go:264-269 | over every run a claim that pops nothing is served that key, id trimmed and marked, exactly if it is still good, and otherwise nothing |
| PrekeyAnswers.PoppedIsGood | internal/prekey/store.go:247-263 | a claim that pops hands out the oldest unexpired entry of the queue |
| PrekeyLimits.AdmittedIs | internal/prekey/store.go:167-186 | a publish keeps ids distinct and the cap, and with room left every usable candidate is in |
| PrekeyLimits.AlwaysBounded | internal/prekey/store.go:213-221 | pools, queues and limiter states stay under their caps over every run |
| PrekeyLimits.PopsBounded | internal/prekey/store.go:275-292 | over any stretch of any run whose claims on a pool read clocks between two instants, in any order, pops number at most burst plus the time between them over refill, once more for each time the emptied pool's limiter state was dropped |
| PrekeyLimits.PopsBoundedWhileKept | internal/prekey/store.go:275-292 | with no drop in the stretch, at most burst plus the window's length over refill |
| PrekeyLimits.PatientClaimPops | internal/prekey/store.go:247-263 | a claim on a pool with a live entry pops if the limiter state is new or was last refilled a whole interval before |
| PrekeyStore.KeepAlive | internal/prekey/store.go:330-342 | the in-place filter keeps exactly the unexpired entries in order |
| PrekeyStore.Select | internal/prekey/store.go:167-186 | the publishing loop with its id set admits what the model admits |
| PrekeyStore.Store.constructor | internal/prekey/store.go:108-138 | starts empty, with corrected limits |
| PrekeyStore.Store.PruneLocked | internal/prekey/store.go:330-360 | expired entries and last-resort keys go, and limiter state of pools that are gone |
| PrekeyStore.Store.BucketCountLocked | internal/prekey/store.go:213-221 | pools across both maps, none twice |
| PrekeyStore.Store.Publish | internal/prekey/store.go:154-197 | refusal, count and new state of a publish |
| PrekeyStore.Store.TakeTokenLocked | internal/prekey/store.go:275-292 | refill by elapsed time up to the burst, then spend one if there is one |
| PrekeyStore.Store.Claim | internal/prekey/store.go:247-270 | reply and new state of a claim |
| PrekeyStore.Store.Status | internal/prekey/store.go:296-303 | what a pool still has |
| PresenceRules.RevocationOrder | internal/presence/store.go:118-128 | in every reachable state a record of an owner with a stored tombstone is strictly newer than it, whatever order leases and tombstones came in; no lease runs more than five minutes past its renewal |
| PresenceRevocations.TombstoneAfter | internal/presence/store.go:105-131 | apart from revocations of that owner, a call removes an owner's tombstone if and only if it prunes at or past its expiry or brings a newer well-formed lease of that owner, and otherwise leaves it as it was |
| PresenceRevocations.StaleLeaseStoredIff | internal/presence/store.go:105-131 | over every run, a lease no newer than a stored revocation of its owner, with room for it and no other revocation since, is stored if and only if the tombstone has been lifted in between or has run out |
| PresenceRevocations.StaleLeaseReturns | internal/presence/store.go:117-123 | a revocation, a newer lease and then an older one: the older one is stored while the revocation still runs |
| PresenceRules.AlwaysWithinCap | internal/presence/store.go:134-165 | records and tombstones never pass the cap |
| PresenceRules.LiveLeasesSpared | internal/presence/store.go:105-172 | over every run, a heartbeat leaves every other online lease of a caller within its share as it was, unless its retention time has passed |
| PresenceRules.WeakestGivesWay | internal/presence/store.go:134-172 | over every run, a remembered record that a heartbeat costs its slot is the only one to go; the table was full and the newcomer within its share; it is the longest unseen of the ended leases, or if none has ended the longest unseen of other callers past their share |
| PresenceAnswers.HeartbeatAnswered | internal/presence/store.go:105-130 | a heartbeat is answered yes exactly if its lease is good, newer than any standing revocation, and there is or can be made room |
| PresenceAnswers.HeartbeatTakesEffect | internal/presence/store.go:105-130 | what is stored, field by field, and what becomes of the revocations, in each of the four cases |
| PresenceAnswers.RevokeTakesEffect | internal/presence/store.go:209-226 | exactly the owner's records go, and the tombstone stands for the retention time if there is room or the owner had one |
| PresenceAnswers.ReplicatedTakesEffect | internal/presence/store.go:264-286 | a replicated revocation is stored and removes what it supersedes exactly if it is live and newer or there is room |
| PresenceAnswers.ReplicatedStands | internal/presence/store.go:264-286 | after a list each of its live revocations stands, itself or by a newer one, unless it found no room |
| PresenceAnswers.PruneKeepsExactly | internal/presence/store.go:298-309 | a prune keeps exactly the records still remembered and the revocations still running |
| PresenceStore.AddExact | internal/presence/store.go:170-176 | counting one more record keeps every caller's count exact |
| PresenceStore.DropExact | internal/presence/store.go:178-193 | counting one fewer keeps them exact, with no zero entries |
| PresenceStore.Store.constructor | internal/presence/store.go:68-79 | starts empty, with corrected limits |
| PresenceStore.Store.ReleaseLocked | internal/presence/store.go:187-193 | one fewer for the caller, no zero entries |
| PresenceStore.Store.DropLocked | internal/presence/store.go:178-185 | removes the record and keeps caller counts exact |
| PresenceStore.Store.PutLocked | internal/presence/store.go:170-176 | stores or replaces a record and keeps caller counts exact |
| PresenceStore.Store.PruneLocked | internal/presence/store.go:298-309 | drops exactly the forgotten records and expired tombstones |
| PresenceStore.Store.FindVictim | internal/presence/store.go:141-162 | the best-so-far search finds a minimal candidate, or there is none |
| PresenceStore.Store.MakeRoomLocked | internal/presence/store.go:134-165 | whether there is or can be a slot, and whose record made way |
| PresenceStore.Store.HeartbeatWithGrant | internal/presence/store.go:105-130 | answer and new state of a heartbeat, for some lawful choice of victim |
| PresenceStore.Store.Revoke | internal/presence/store.go:209-226 | removes and counts exactly the owner's records and stores the tombstone if there is room |
| PresenceStore.Store.StoreRevocationLocked | internal/presence/store.go:291-296 | a tombstone is refreshed, or inserted while there is room |
| PresenceStore.Store.ImportRevocations | internal/presence/store.go:264-286 | each newer tombstone is stored and removes exactly the records it supersedes |
| SessionRules.AcceptedInTime | internal/admission/session.go:125-136 | an accepted proof is over a nonce this gate drew less than thirty seconds before |
| SessionRules.AcceptedAtMostOnce | internal/admission/session.go:204-211 | with fresh random nonces, each is accepted at most once over the whole run |
| SessionRules.FailedProofSpends | internal/admission/session.go:121-136 | a failed proof uses the nonce up too |
| SessionRules.ListsAreExact | internal/admission/session.go:140-161 | with fresh tokens, a credential's list is exactly its live sessions, once each, in issue order |
| SessionRules.ResolvedInTime | internal/admission/session.go:163-183 | a token resolves only to the credential it was opened for and only within fifteen minutes, however often it is used |
| SessionRules.ForgottenForGood | internal/admission/session.go:185-195 | after Forget no token opened for that credential before ever resolves again |
| SessionRules.AlwaysWithinCaps | internal/admission/session.go:43-58 | nonces, sessions and each credential's list stay under their caps |
| SessionRules.SessionLeavesIff | internal/admission/session.go:140-239 | with fresh tokens, a call ends a session if and only if it is a sweep or resolve at or past its expiry, a Forget of its credential, or an Open for its credential when 128 are unexpired and it is the oldest of them |
| SessionAnswers.ProofAcceptedIff | internal/admission/session.go:94-136 | over every run with fresh nonces a proof is accepted if and only if its signature verifies and its nonce was issued here, neither presented nor swept since, less than thirty seconds before |
| SessionAnswers.AcceptedVerifies | internal/admission/session.go:125-136 | whatever the random source does, no proof is accepted that does not verify |
| SessionAnswers.ResolvesIff | internal/admission/session.go:140-183 | over every run with fresh tokens a token resolves to a credential if and only if it was opened for it with room, nothing has ended it, and it is within fifteen minutes |
| SessionStore.Gate.constructor | internal/admission/session.go:81-91 | starts empty |
| SessionStore.Gate.DropLocked | internal/admission/session.go:213-226 | removes a session and its place in the list, order kept |
| SessionStore.Gate.SweepLocked | internal/admission/session.go:228-239 | drops exactly the expired nonces and sessions |
| SessionStore.Gate.Challenge | internal/admission/session.go:94-109 | issues a nonce unless the table is full after sweeping |
| SessionStore.Gate.VerifyProof | internal/admission/session.go:125-136 | spends the nonce, then accepts exactly an unexpired nonce with a valid signature |
| SessionStore.Gate.EnlistLocked | internal/admission/session.go:153-159 | the new session, with the oldest beyond 128 evicted |
| SessionStore.Gate.Open | internal/admission/session.go:140-161 | a session unless the table is full after sweeping, for any token drawn; the tables stay consistent if that token is not in use |
| SessionStore.Gate.Resolve | internal/admission/session.go:166-183 | the credential of a live token; an expired one is dropped and never extended |
| SessionStore.Gate.Forget | internal/admission/session.go:188-195 | removes exactly the credential's sessions |
| RedemptionCode.NewCode | internal/admission/credential.go:72-91 | for every 16 bytes the wrapping accumulator loop gives 26 symbols worth four times the 128-bit big-endian number |
| RedemptionCode.WrapKeepsDigit | internal/admission/credential.go:78-86 | losing everything above 32 bits does not change the five bits read |
| RedemptionCode.AlphabetSpelled | internal/admission/credential.go:57-61 | the alphabet in digit order, without I, L, O and U |
| RedemptionCode.CodesAreInjective | internal/admission/credential.go:72-91 | no two keys share a code |
| RedemptionCode.CodeDetermined | internal/admission/credential.go:72-91 | a code is determined by its length and value |
| RedemptionCode.NormalizeCode | internal/admission/credential.go:99-122 | the loop computes the normal form |
| RedemptionCode.CodeIsNormal | internal/admission/credential.go:93-98 | a code as printed normalizes to itself |
| RedemptionCode.NormalizeIdempotent | internal/admission/credential.go:99-122 | normalizing twice is normalizing once |
| RedemptionCode.SeparatorsIgnoredIff | internal/admission/credential.go:114-119 | a character may be inserted anywhere without consequence if and only if it contributes nothing |
| RedemptionCode.ReadAs | internal/admission/credential.go:99-122 | O is read as zero, I and L as one, U as itself outside the alphabet, every other letter and digit as itself, in either case |
| RedemptionCode.GroupingIgnored | internal/admission/credential.go:99-122 | any character that is not a letter or digit makes no difference |
| RedemptionCode.CaseIgnored | internal/admission/credential.go:102-104 | lower case makes no difference |

## Left out

- HTTP routing, JSON decoding, status codes, body limits and long polling: plumbing over the stores.
- The network fetch of a page (timeouts, redirects, the byte ceiling): a reply is a page or a failure.
- SyncAll, peer health, the node id and the presence part of a page: short branch logic over what is modelled.
- Configuration parsing, the command-line tools, credential issuance and the credential file: easy beside the rest.
- SHA-256, Ed25519, base64 and the random source: parameters, with freshness of random tokens assumed where a theorem says so.
- Mutexes and scheduling: each locked body is one atomic step.
- Integer widths: arrival numbers, byte counts and instants are unbounded; only the code encoder's 32-bit accumulator wraps.
- PrekeyStore.Store.TakeTokenLocked: tokens are real numbers, so float64 rounding is not captured.
- Syncer.Syncer.SyncPeer: other calls on the puller's store between two of its pages are not part of its trace; `MeshPaging` and `MeshOnce` cover those interleavings.
- QueueStore.Store.constructor: the nine derived maps are grouped in two record values, Records and Books, that methods reassign; the epoch string is a parameter.
- AttachmentRelay.Relay.PushWithGrant: a transfer is a value in the table rather than an object behind a pointer; no transfer is reachable from two keys, so nothing is shared.
- RedemptionCode.NormalizeCode: upper-casing is written out for ASCII and the two other characters whose upper case is an ASCII letter; all others are outside the alphabet either way.
- Stats, Counts, Query, Snapshot and Revocations of the smaller stores: reads that list or count what the tables hold.
