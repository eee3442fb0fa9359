# Verified model of the plugin SDK's watches, guards and streams

A plugin of this SDK tells its host about changes: of a store's objects
(`src/inventory.rs`), of a message queue (`src/queue.rs`), of a polled state
(`src/watch.rs`). Each of these is an acknowledgement or polling protocol that
must not lose, repeat or invent a change whatever the host, the broker and the
clock do. Beside them the SDK has a scanner that decides whether a SQL statement
only reads (`src/sql_guard.rs`), a loop that collects pages, and tasks that
forward a stream to the host and must fall silent when cancelled (`src/ffi.rs`).
This project models that code in Dafny and proves what it is for.

Where the source updates fields in place the model is a class with those fields
(`InventoryEngine.Inventory`, `QueueWindow.Shared`), each method proved against a
function on the values of the fields; its loops are loops with invariants. Where
threads interleave the model is a step system (`QueueSteps`, `StreamCancel`): a
step is what happens between two points where another thread may act, and a
theorem holds for every finite sequence of steps. Hashing, glob matching and JSON
sizes are function values every statement is proved for.

| modules | source |
|---|---|
| `Strs`, `Framing`, `InventorySpec`, `InventoryEngine`, `InventoryRuns`, `InventoryReports`, `InventoryDetails`, `InventoryConverge`, `InventoryRestart`, `InventoryThread`, `InventoryWaits` | `src/inventory.rs`, the diff engine and its thread |
| `Sorting`, `Walk` | `src/inventory.rs`, the directory walk |
| `QueueWindow`, `QueueSteps`, `QueueNumbers`, `QueueConservation`, `QueueBroker`, `QueueTiming`, `QueueRemoval`, `QueueAcks`, `QueueCancel`, `QueueEmission`, `QueueExamples` | `src/queue.rs` |
| `SqlLexer`, `SqlGuard` | `src/sql_guard.rs` |
| `Pages`, `PagesEnd`, `StreamCancel` | `src/ffi.rs` |
| `DiffWatch` | `src/watch.rs` |

`dafny verify dfyconfig.toml` checks everything.

## Where the documentation promises more than the code does

- A restart is documented as exact, deletions included (`src/inventory.rs:10-13`).
  A snapshot holds only its own event's change besides what was confirmed, so that
  depends on what was acknowledged with it. Whatever was in flight before a listing
  and whatever is listed, lost, skipped or acknowledged after it, when the host stops
  at the position of the listing's last event a restart from it is exact if and only
  if the changes honoured since leave every other key as it was confirmed:
  `InventoryRestart.RestartIsExactIff`. A host that acknowledges the last event alone
  always gets that (`LastAloneIsExact`); one that acknowledges all in flight in order
  gets it if and only if nothing else in flight moves a key (`AllAcknowledgedIff`),
  with nothing in flight before the listing only if it had one event
  (`RestartIsExactAloneIff`). Two runs miss a deletion: one listing of two events
  (`RestartMissesADeletion`), and two listings of one event each
  (`TwoListingsMissADeletion`).
- A change the host dropped is documented to show again at the next listing
  (`src/inventory.rs:8-10`). Past its timeout the engine finds it due, but
  the thread lists only while the window has room, what expired still counting, and
  reports only as many due keys as fit once it is gone. An overdue change whose key
  is due is reported by the next turn if and only if the window had room and its key
  is among those first: `InventoryThread.OverdueReportedAgainIff`. It is not where
  new objects come first (`CrowdedOut`), nor ever once a window is full and
  unacknowledged, whatever notifies the thread (`FullWindowStalls`), which a first
  listing brings about (`FirstListingStalls`).
- The details kept for deletions are documented as the last seen of each confirmed
  object (`src/inventory.rs:187`). A deletion that is honoured drops them even where a
  later listing showed the object again: `InventoryDetails.DetailsLost` is such a run.
  A deletion event carries the entry last listed if and only if no deletion of the
  object was honoured since, and its key alone otherwise: `InventoryDetails.EventTells`.
- `max_in_flight` of a queue watch is documented as the most messages delivered and
  not yet settled (`src/queue.rs:4-6`, `src/queue.rs:85`). It bounds the window and
  the receiver's hand (`QueueBroker.NeverOverBound`). What the settler took out to
  release or ack is not settled yet and no longer counts, so with a bound of one two
  deliveries may be unsettled: `QueueExamples.TwoUnsettled`. Twice the bound is never
  exceeded: `QueueBroker.UnsettledAtMostTwice`.
- Cancelling a stream is documented to leave no callback in flight
  (`src/ffi.rs:1644-1647`). That holds unless its bounded wait runs out;
  `StreamCancel.QuietAfterTimeoutIff` says exactly when it holds then too, and
  `StreamCancel.TimedOutWait` is a run in which it does not.
- An event that cannot be sent is acked whether or not its delivery was still in
  the window (`src/queue.rs:354-355`, `src/queue.rs:369-370`), so it may be
  released and acked: `QueueExamples.SettledTwice`. By the end it got two calls if
  and only if the settler took it out of the window before the receiver did:
  `QueueRemoval.SettledTwiceIff`. The exactly-one-call theorem is about emitted
  deliveries.
- The scanner's comment says a quoted region's delimiters are dropped
  (`src/sql_guard.rs:102-103`); the code leaves one space for the region, and so
  does the model.
- The one check in the page loop does not stop every pager
  (`Pages.MayRunForever`). For a backend that answers by the cursor alone, over
  finitely many, the loop runs on if and only if its cursors come back to an earlier
  one with nothing on the way round and room left: `PagesEnd.RunsForeverIff`.

## Model

| member | source | states |
|---|---|---|
| Framing.Feed | src/inventory.rs:91-95 | feeding parts length first makes bytes from which a decoder reads back exactly those parts |
| Framing.UnframeFrame | src/inventory.rs:91-95 | the decoder inverts the framing on every list of parts |
| Framing.FrameInjective | src/inventory.rs:438-449 | two lists of parts with the same framed bytes are the same list |
| Framing.DecimalRoundTrip | src/inventory.rs:86-87 | the decimal text of a size is read back as that size |
| Strs.LtIs | src/inventory.rs:611 | the order of keys is the byte-wise one: at the first byte that differs, or the shorter first |
| Framing.DigestBytesDecode | src/inventory.rs:82-96 | what is hashed for a digest decodes to size, time, etag and version, in order |
| Framing.DigestBytesDetermine | src/inventory.rs:82-96 | two entries hash the same bytes exactly when size and time agree, absence included, and etag and version agree up to absent being empty |
| Framing.EventIdBytesDecode | src/inventory.rs:438-449 | what is hashed for an event's id decodes to store, location, key, operation and digest, in order |
| Framing.EventIdBytesInjective | src/inventory.rs:438-449 | equal id bytes mean the same store, location, key, operation and digest |
| InventoryEngine.Inventory.New | src/inventory.rs:220-259 | a malformed position is refused, and otherwise the fields start as the position and the start option say |
| InventoryEngine.Inventory.Poll | src/inventory.rs:275-363 | a listing's events and the whole new state are those of the specification: expiry, gap, baseline, changes in key order with deletions last, cut at the window's room |
| InventoryEngine.Inventory.Compare | src/inventory.rs:300-333 | the loops over the ordered maps find exactly the due keys, sorted, each once |
| InventoryEngine.Inventory.Emit | src/inventory.rs:340-361 | changes get consecutive numbers, only the last a snapshot, and the window holds them in that order |
| InventoryEngine.Inventory.Acknowledged | src/inventory.rs:492-510 | an acknowledgement settles the change it names, drops those before it, and does nothing when it names none |
| InventoryEngine.Inventory.HasRoom | src/inventory.rs:518-520 | there is room exactly when the specification finds some |
| InventoryEngine.FilterDueSorted | src/inventory.rs:300-322 | filtering the keys in order gives the sorted set of due keys |
| InventoryRuns.EveryRun | src/inventory.rs:275-348 | from any start, for listings and acknowledgements in any order, lost, repeated, unknown or expired: pending numbers increase, stay below the next and above every honoured one, the window keeps its bound, no number is reused, no key's consecutive changes have the same target, and what is confirmed is the baseline folded with the honoured changes, each once, in order |
| InventoryRuns.PollKeeps | src/inventory.rs:275-363 | a listing at a later clock keeps that invariant |
| InventoryRuns.AckKeeps | src/inventory.rs:492-510 | any acknowledgement keeps it |
| InventoryRuns.UnexpiredIsSuffix | src/inventory.rs:276-278 | expiry removes a prefix of the window |
| InventoryReports.PollIsExact | src/inventory.rs:275-363 | with nothing in flight and room for it, a listing reports each key that differs from the confirmed listing once, with the operation that leads there, and nothing else |
| InventoryReports.ExactDiffReplays | src/inventory.rs:300-333 | such a report, replayed on the confirmed listing, gives the one found |
| InventoryReports.FreshStartIsSilent | src/inventory.rs:232-240 | without a stored position and by default the first listing emits nothing and is the baseline, and the next is reported exactly against it |
| InventoryReports.ExistingAreReported | src/inventory.rs:232-240 | asked for what exists, a start reports exactly what is listed, all of it created |
| InventoryReports.ResumeIsExact | src/inventory.rs:220-259 | from a cursor with a snapshot the first listing emits no gap and exactly what turns the snapshot into it |
| InventoryReports.ResumeIsAnnounced | src/inventory.rs:242-244 | from a cursor without a snapshot the first listing emits a gap and nothing else, and is the baseline |
| InventoryReports.SnapshotSays | src/inventory.rs:352-355 | only a listing's last event carries a snapshot, exactly if it fits the budget, and it is what is confirmed with that event replayed |
| InventoryReports.RepeatedListingIsSilent | src/inventory.rs:300-306 | a listing repeated before anything expires reports nothing and changes nothing |
| InventoryReports.StableListingReportsOnce | src/inventory.rs:300-317 | listed any number of times within the timeout, unacknowledged, a listing reports what its first poll did and no more |
| InventoryReports.ReportedAgainIff | src/inventory.rs:276-278 | unacknowledged, a listing's report is not repeated before the timeout of the listing that made it, and is repeated exactly once it has passed |
| InventoryReports.PollCovers | src/inventory.rs:300-333 | after a listing with room for all it found, every key is confirmed as listed or has a change to that in flight |
| InventoryReports.PassedOverIsDue | src/inventory.rs:490-500 | a change an acknowledgement passed over is due again while the listing shows it, unless its key has a change no earlier than the one acknowledged |
| InventoryReports.ReportedAgainSameId | src/inventory.rs:431-449 | a change reported again has the same event id while what is confirmed and listed for its key is the same |
| InventoryReports.SameDigestSameDetails | src/inventory.rs:80-97 | where the hash does not collide on their bytes, two entries have the same digest exactly when size, time, etag and version agree, absent being empty for the last two |
| InventoryReports.SameIdSameChange | src/inventory.rs:438-449 | where the hash does not collide on their bytes, two events share an id exactly when store, location, object, operation and digest agree |
| InventoryDetails.CurrentIs | src/inventory.rs:286-289 | a listing by key holds exactly the keys listed, each with its last entry |
| InventoryDetails.EventTells | src/inventory.rs:300-333 | after any run: a creation or modification carries the entry listed, created exactly where nothing was confirmed; a deletion carries the entry of the last listing that showed the object if no deletion of it was honoured since, and its key alone otherwise |
| InventoryDetails.DetailsLost | src/inventory.rs:187 | a run in which a deletion carries its key alone although the object was listed since |
| InventoryDetails.EventsInOrder | src/inventory.rs:300-339 | a listing's changes come in key order, deletions after the others |
| InventoryDetails.QuietForgets | src/inventory.rs:319-323 | where removals are quiet, what left the listing is forgotten and nothing is reported deleted |
| InventoryDetails.QuietComesBack | src/inventory.rs:319-323 | and is reported created when it comes back |
| InventoryConverge.InFlightAcknowledged | src/inventory.rs:492-510 | from any reachable state with a baseline, acknowledging what is in flight in order leaves nothing in flight |
| InventoryConverge.RoundDrops | src/inventory.rs:334-348 | a poll acknowledged in full leaves due exactly the keys there was no room for |
| InventoryConverge.Converges | src/inventory.rs:275-363 | a stable listing polled and acknowledged for at least D / max_in_flight rounds reports each of the D differing keys once with the right operation, and is then confirmed |
| InventoryConverge.ConvergesNoSooner | src/inventory.rs:334-339 | fewer rounds do not suffice |
| InventoryConverge.SilentOnceConverged | src/inventory.rs:300-317 | once confirmed, the listing reports nothing |
| InventoryRestart.RestartReportsTheOthers | src/inventory.rs:398-412 | a restart on the same listing reports every key that differs from what was confirmed but the last event's, whatever was in flight |
| InventoryRestart.RestartIsExactIff | src/inventory.rs:398-412 | in any run, whatever was in flight before a listing and whatever follows it up to the acknowledgement of its last event: a restart from that event is exact, for every listing it may find, if and only if the changes honoured since leave every other key as it was confirmed |
| InventoryRestart.AllAcknowledgedIff | src/inventory.rs:398-412 | all in flight acknowledged in order: if and only if nothing in flight but the last event moves a key from where it is confirmed |
| InventoryRestart.LastAloneIsExact | src/inventory.rs:398-412 | a host that acknowledges the last event alone has confirmed exactly the snapshot, whatever else was in flight |
| InventoryRestart.RestartIsExactAloneIff | src/inventory.rs:398-412 | all acknowledged in order, with nothing in flight before the listing: if and only if that event was the listing's only one |
| InventoryRestart.DeletionLostWhileStopped | src/inventory.rs:398-412 | an object whose creation was in flight beside the last event, acknowledged and deleted while stopped, is never reported deleted |
| InventoryRestart.RestartMissesADeletion | src/inventory.rs:10-13 | a run of one listing with two events in which the documented exactness fails |
| InventoryRestart.TwoListingsMissADeletion | src/inventory.rs:10-13 | a run of two listings with one event each in which it fails too |
| InventoryThread.Watch | src/inventory.rs:747-817 | the thread's loop over any stop flag, listings, failures and wakes is its specification, turn by turn |
| InventoryThread.Wait | src/inventory.rs:780-815 | the wait after a listing applies every acknowledgement queued and ends at a wake-up, a stop or its deadline |
| InventoryThread.List | src/inventory.rs:752-777 | one turn: the room gate, a failed listing, an event watch's events, a resource watch's one bare change |
| InventoryWaits.WakeUpEndsWait | src/inventory.rs:796-809 | a wake-up ends the wait whatever is received after it: the next listing finds the acknowledgements received before it and beside it applied, and no others |
| InventoryWaits.StopEndsWait | src/inventory.rs:780-813 | a stop ends the thread with the acknowledgements before it applied and none after |
| InventoryWaits.StopEndsWatch | src/inventory.rs:748-813 | after a stop, by the flag or in a wait, no later turn is run and nothing of it is emitted |
| InventoryWaits.WaitedIs | src/inventory.rs:780-815 | any wait at all: which wakes it takes, and whether it ends the thread |
| InventoryWaits.WatchIsARun | src/inventory.rs:747-817 | whatever the lister answers and the waits receive, the thread of an event watch is a run of the engine: it ends in its state and emits each of its events, in order, and nothing else |
| InventoryWaits.EveryThread | src/inventory.rs:747-817 | so from any start the thread keeps everything that `EveryRun` says |
| InventoryThread.ResourceListing | src/inventory.rs:760-771 | a resource watch emits one bare change exactly when the poll found a change, and is left with nothing in flight |
| InventoryThread.ResourceWatchHoldsNothing | src/inventory.rs:760-771 | at every loop head of a resource watch nothing is in flight, so the room gate never blocks it |
| InventoryThread.ResourceWatchConverges | src/inventory.rs:747-777 | with a stable listing a resource watch confirms it within D / max_in_flight turns, whatever wakes it short of a stop |
| InventoryThread.EventWatchConverges | src/inventory.rs:747-817 | with a stable listing and a host whose acknowledgements of each turn's events arrive in its wait, an event watch confirms the listing within D / max_in_flight turns and emits exactly D events |
| InventoryThread.FailedListingsLeaveNoTrace | src/inventory.rs:774-776 | a whole run ends in the same state and emits the same without the failed listings whose wait received nothing |
| InventoryThread.FullWindowStalls | src/inventory.rs:752 | a full window that no acknowledgement settles is never listed again, whatever notifications, stops and other acknowledgements arrive |
| InventoryThread.FirstListingStalls | src/inventory.rs:752 | a first listing that fills the window brings that about: nothing is emitted after it |
| InventoryThread.OverdueReportedAgainIff | src/inventory.rs:8-10 | an overdue change whose key is due is reported by the next turn if and only if the window had room before expiry and the key is among as many due keys as fit after it |
| InventoryThread.CrowdedOut | src/inventory.rs:334-338 | a run from the start in which an overdue change is not reported though the window had room |
| Sorting.SortFirst | src/inventory.rs:579 | the stable sort keeps the first of each key first |
| Sorting.SortDedupCanonical | src/inventory.rs:611-612 | sorting and dropping neighbours of the same key leaves the first found of every key, strictly sorted |
| Sorting.SortPermutation | src/inventory.rs:579 | permuted lists with distinct keys sort to the same list |
| Sorting.CanonicalUnique | src/inventory.rs:611-612 | only one listing is sorted so and made of the first found of every key |
| Walk.WalkTree | src/inventory.rs:562-622 | the walk ends on any tree after at most `max_dirs` listings, however the lister answers each call; its error leaves no listing; of a tree that stays as it is, a walk that neither limit reached lists one file for every key that has one, and nothing else |
| Walk.Collect | src/inventory.rs:566-610 | the queue-driven loop asks for exactly the directories of the exploration and finds exactly their files, in order |
| Walk.ExploreIsBreadthFirst | src/inventory.rs:558-590 | the directories listed are the root followed by the subdirectories of those listed, in name order, cut at the budget |
| Walk.ExploreBudget | src/inventory.rs:570-576 | a smaller budget lists the first of the directories a larger one lists |
| Walk.FoundIsComplete | src/inventory.rs:562-610 | when fewer directories were listed than allowed, the files found are exactly those with a name of their own and a path that matches the pattern, under the paths of the directories the root leads to, which is the root alone unless the walk is recursive, each with its size and time |
| Walk.ListingIsFirstKeys | src/inventory.rs:611-620 | the listing is strictly sorted, one entry a key, and when cut leaves out nothing smaller than what it keeps |
| Walk.WalkIgnoresOrder | src/inventory.rs:558-561 | permuting every directory's answer never shows, cut or not |
| Walk.UnchangedTreeIsSilent | src/inventory.rs:558-561 | walking an unchanged tree again reports nothing |
| QueueWindow.Shared.LookForRoom | src/queue.rs:131-147 | one look: stopped, full, or the room that fills the window up to its bound |
| QueueWindow.Shared.Hold | src/queue.rs:340-348 | a delivery gets the next number and joins the window last |
| QueueWindow.Shared.Take | src/queue.rs:157-164 | a number takes out the delivery it was given, if it is held, and nothing else |
| QueueWindow.Shared.Expired | src/queue.rs:167-184 | exactly the overdue deliveries leave the window, in order |
| QueueWindow.Shared.Next | src/queue.rs:187-194 | the least expiry over the window |
| QueueWindow.Shared.DrainAll | src/queue.rs:402-409 | everything held leaves the window |
| QueueWindow.TakenMultiset | src/queue.rs:157-164 | taking loses and duplicates no delivery |
| QueueWindow.OverdueSplits | src/queue.rs:167-184 | expiry splits the window without loss |
| QueueNumbers.StepKeepsNumbered | src/queue.rs:338-348 | in every interleaving each delivery's number is given once and is its own wherever it is |
| QueueNumbers.StepKeepsPhased | src/queue.rs:431-449 | the receiver returns only once stopped, and only a stopped watch whose receiver returned stops settling, and then holds nothing |
| QueueNumbers.StepKeepsJustified | src/queue.rs:302-374 | every call to the broker is made for a reason that holds |
| QueueConservation.StepConserves | src/queue.rs:284-413 | every step moves a delivery from one place to another |
| QueueConservation.InOnePlace | src/queue.rs:284-413 | in every interleaving each received delivery is in exactly one of the receiver's hand, the window, the settler's hand and the settled |
| QueueConservation.EmittedSettledAtMostOnce | src/queue.rs:370-400 | an emitted delivery gets at most one call, an ack only if the host acknowledged its own number |
| QueueConservation.CancelSettlesAll | src/queue.rs:428-449 | once a cancel returned the window is empty, every received delivery is settled once, and an emitted one got exactly one call |
| QueueConservation.AckSettlesItsOwn | src/queue.rs:387-395 | one acknowledged number settles one delivery |
| QueueConservation.ReleasedOnlyLate | src/queue.rs:167-184 | short of a stop a delivery is released only past the ack timeout |
| QueueAcks.AckedIff | src/queue.rs:387-395 | once a cancel returned, the one call about an emitted delivery is an ack if and only if the settler heard the host acknowledge its number and found it in the window when it turned to it |
| QueueAcks.AcknowledgedIsAcked | src/queue.rs:387-395 | so a delivery in the window when its acknowledgement is heard is acked, and not released |
| QueueAcks.EveryAckHeard | src/queue.rs:418-449 | what the host sends is heard in order and once, and by the time a cancel returned all that was sent before the receiver was joined |
| QueueAcks.HeardAckRemoves | src/queue.rs:73-74 | an ack the broker hears of a delivery it holds locked removes the message for good |
| QueueCancel.ReceiverLowers | src/queue.rs:284-331 | once stopped, every step of the receiver brings it nearer to its return, whatever the broker answers |
| QueueCancel.SettlerLowers | src/queue.rs:376-413 | once told to stop, every step of the settler brings it nearer to its end, whatever is queued |
| QueueCancel.CancelReturns | src/queue.rs:428-449 | from every state of every run a cancel can be called and return |
| QueueEmission.EmittedIff | src/queue.rs:335-374 | in every interleaving a delivery put in the window is emitted by the time the receiver goes on, exactly if its event can be sent |
| QueueEmission.OneBareChangePerReceive | src/queue.rs:324-330 | a resource watch emits one bare change for every receive that delivered anything, but for one in hand or given back at a stop |
| QueueEmission.StoppedTellsNothing | src/queue.rs:318-323 | what is received after a stop is told to nobody |
| QueueEmission.FailureReconnects | src/queue.rs:288-312 | after a receive failed, and at the start, a connection is made before the next receive |
| QueueBroker.NeverOverBound | src/queue.rs:130-147 | with a source that respects what it is asked for, window and receiver's hand together never exceed `max_in_flight`, though the mutex is free in between |
| QueueBroker.UnsettledAtMostTwice | src/queue.rs:4-6 | with such a source the deliveries received and not yet settled, wherever they are, never exceed twice `max_in_flight` |
| QueueBroker.NoMessageLost | src/queue.rs:6-10 | a message leaves the broker only if the host acknowledged the number of one of its deliveries, or its event could not be sent, or the watch only notifies |
| QueueBroker.LockedOnce | src/queue.rs:70-78 | a locked message is locked under one delivery and not available |
| QueueTiming.NeverHeldLonger | src/queue.rs:376-400 | with calls that take no time no delivery stays in the window, or is released late, past the longer of the ack timeout and a second |
| QueueTiming.WaitsForTheFirst | src/queue.rs:381-386 | the settler waits until the first delivery held times out, a second at most |
| QueueExamples.HeldASecond | src/queue.rs:381-386 | the second is reached, however short the timeout |
| QueueExamples.SettledTwice | src/queue.rs:349-372 | a run in which a delivery whose event cannot be sent is released and acked |
| QueueExamples.TwoUnsettled | src/queue.rs:85 | a run with a bound of one in which two deliveries are unsettled, so the documented bound fails |
| QueueRemoval.SettledTwiceIff | src/queue.rs:349-372 | once a cancel returned, a held delivery that could not be sent got two calls if the settler took it out of the window, and one otherwise |
| SqlLexer.SqlSkeleton | src/sql_guard.rs:104-153 | the index-advancing scanner makes what a one-character-at-a-time automaton makes, unterminated regions included |
| SqlLexer.SkipQuoted | src/sql_guard.rs:129-145 | the inner loop ends just past the closing quote, doubled quotes skipped |
| SqlLexer.SkipBlock | src/sql_guard.rs:120-126 | the inner loop ends just past the first closing of the comment |
| SqlLexer.SkipLine | src/sql_guard.rs:113-118 | the inner loop ends at the line's end |
| SqlLexer.SkeletonClean | src/sql_guard.rs:99-103 | a skeleton holds no quote and nothing that opens a comment |
| SqlLexer.CleanUnchanged | src/sql_guard.rs:104-153 | a text without a quote or anything that opens a comment is its own skeleton |
| SqlLexer.SkeletonIdempotent | src/sql_guard.rs:104-153 | scanning a skeleton changes nothing |
| SqlLexer.QuotedBodyIrrelevant | src/sql_guard.rs:19-21 | after any text that ends at top level an escaped body in single, double or back quotes may be replaced by any other |
| SqlLexer.BlockCommentIsSpace | src/sql_guard.rs:119-126 | a closed block comment at top level is like a space |
| SqlLexer.LineCommentIsNothing | src/sql_guard.rs:112-118 | a line comment at top level is like nothing |
| SqlLexer.UnterminatedIsBlank | src/sql_guard.rs:129-146 | a quoted region that never ends takes all the rest and is like a space |
| SqlLexer.UnterminatedBlockIsBlank | src/sql_guard.rs:119-126 | so does a block comment |
| SqlLexer.LastLineCommentIsNothing | src/sql_guard.rs:112-118 | and a line comment, which is like nothing |
| SqlLexer.UpperIs | src/sql_guard.rs:66 | two texts agree in upper case exactly when they differ at most in the case of ASCII letters, 32 apart; upper case leaves none in lower case |
| SqlGuard.CharactersAre | src/sql_guard.rs:95-97 | identifiers are ASCII letters, digits, `_`, `$` and `#`, by code, and white space is what is trimmed |
| SqlGuard.EnforceReadOnly | src/sql_guard.rs:9-90 | accepted exactly when the first identifier is one of the six leaders, no identifier is one of the thirty write words, both in any case, and nothing but white space follows a semicolon |
| SqlGuard.Enforce | src/sql_guard.rs:41-90 | the same early returns and token loop for any two lists of words, against the verdict function |
| SqlGuard.JudgeMeans | src/sql_guard.rs:9-90 | each verdict and exactly when it is given, in terms of whole identifiers of the skeleton, and the word it quotes: the first, or the first that writes |
| SqlGuard.WordsAreTokens | src/sql_guard.rs:75-78 | the non-empty pieces of the split are exactly the maximal identifiers |
| SqlGuard.VerdictIgnoresQuoted | src/sql_guard.rs:19-21 | the verdict does not depend on a quoted body |
| SqlGuard.VerdictIgnoresBlockComment | src/sql_guard.rs:19-21 | nor on whether a block comment or a space stands there |
| SqlGuard.VerdictIgnoresCase | src/sql_guard.rs:66-79 | texts that differ at most in the case of ASCII letters get the same verdict, about words that differ so at most |
| Pages.CollectPages | src/ffi.rs:1170-1189 | for any pager the result is the concatenated pages cut at the limit |
| Pages.PagesInTurn | src/ffi.rs:1177-1187 | each page is the answer to the cursor of the page before, asked for exactly what is left up to a page, and short of its limit the loop ends only at a page that does not advance |
| Pages.FailsAsAnswered | src/ffi.rs:1179 | a failure is the backend's own, to the call after the pages it returned |
| Pages.CollectsTheFirst | src/ffi.rs:1170-1189 | over a list with advancing cursors, short and empty pages and all, the loop ends and returns the first entries up to the limit, none skipped or repeated |
| Pages.NextSlotsWalks | src/ffi.rs:1177-1180 | a backend that never returns more than it is asked for is such a pager |
| Pages.MayRunForever | src/ffi.rs:1182-1185 | two empty pages that name each other keep the loop running for any number of calls |
| PagesEnd.RunsForeverIff | src/ffi.rs:1171-1189 | for a backend that answers by the cursor alone, the loop runs on if and only if its cursors circle with nothing on the way round and room left |
| StreamCancel.CallbacksAreTheStream | src/ffi.rs:154-172 | the drain's callbacks are always the first of its chunks then at most one end; the forwarder's the items that serialize |
| StreamCancel.WholeUnlessAborted | src/ffi.rs:154-172 | a task that ends before it is aborted handed on all of its stream, and a drain its end |
| StreamCancel.DrainHandsAll | src/ffi.rs:157-162 | the drain hands on every chunk, in order |
| StreamCancel.ForwarderHands | src/ffi.rs:1719-1727 | the forwarder hands on the items that serialize, in order |
| StreamCancel.CancelQuiets | src/ffi.rs:187-206 | a cancel that did not time out leaves no callback running and none ever starts |
| StreamCancel.HeardIffStarted | src/ffi.rs:122-132 | a cancel that did not give up heard the signal exactly if the body ever ran |
| StreamCancel.QuietAfterTimeoutIff | src/ffi.rs:1681-1697 | after a cancel that timed out all stays quiet if and only if no callback was running and a poll under way had none left to make |
| StreamCancel.GivesUpLate | src/ffi.rs:196-204 | a cancel gives up no sooner than five seconds after it was called |
| StreamCancel.TimedOutWait | src/ffi.rs:196-204 | a run in which a drain calls back after cancel returned |
| DiffWatch.Watch | src/watch.rs:92-123 | the loop emits the changes between consecutive distinct states observed, in order, and ends with the last of them |
| DiffWatch.EmittedReplays | src/watch.rs:61-64 | if what `diff` sends turns one state into another, replaying everything emitted from the baseline gives the last state observed |
| DiffWatch.SendsAround | src/watch.rs:103-107 | an event that does not serialize is left out and those around it are sent, in order |
| DiffWatch.OneBareChangePerAdvance | src/watch.rs:61-64 | a resource watch emits one bare change for each advance and for nothing else |
| DiffWatch.SleepInterruptible | src/watch.rs:133-146 | the sleep never exceeds its time, ends early only once stopped, and within 200 ms of the stop |

## Left out

- `describe` hooks and their merge into event data, the `warned` flag and tracing: they decorate events or log.
- JSON encoding, blake3, glob matching and timestamps: the digest, the event id, the serialized size and the match are function values; only `SameIdSameChange` assumes the id's hash does not collide.
- InventoryThread.List: an event that fails to serialize is skipped by the source (`src/inventory.rs:758`); the model emits every event.
- InventoryThread.Watch: emits every event of every turn, as its `List` does.
- Sequence numbers are unbounded; the source counts in 64 bits.
- InventoryEngine.Inventory.Poll: one clock reading stands for the source's one per pending change, so two changes on the edge of the timeout cannot part company.
- InventoryThread.Wait: takes the wakes of each wait as its input; the interval, the 50 ms settle time and the moment a deadline falls are not modelled.
- InventoryRuns.EveryRun: its fold excludes quiet removals, which edit the confirmed listing without an acknowledgement; so do the exactness and convergence theorems.
- The queue's `receive_loop` and `settle_loop` are steps of `QueueSteps` rather than loops, because they interleave; the class methods are the holds of the mutex those steps perform.
- The window's map is kept as its entries in key order. The condition variable is left out: a receiver looking for room may look at any time.
- Backoff durations, the bounds `validate` checks, and connections: a pause lasts as long as it lasts, and the broker ignores a call about a delivery it no longer holds locked.
- QueueTiming.NeverHeldLonger: lets time pass only while the settler waits, or once it finished; slow broker calls lengthen the wait by as long as they take.
- The SQL guard reads bytes as Latin-1, as the source does; dialect features it does not attempt are left out. Its error texts are reduced to their kind and the word they quote.
- Pages.CollectPages: the loop is watched for a number of calls, since some pagers never end; `CollectsTheFirst` gives the number that suffices. The constant `LIST_PAGE_SIZE` is not part of this model: it is a parameter.
- The drain and the forwarder are the step system `StreamCancel` rather than the two task loops, because a cancel interleaves with them. Panics, runtime shutdown and a callback that never returns are left out.
- PagesEnd.RunsForeverIff: says nothing of a backend that answers one cursor differently from call to call, or by how much it is asked for.
- DiffWatch.Watch: takes what its polls return until it is stopped as its input; the interval's floor and thread start are left out.
- Raw pointers, boxed handles, null handles, poisoned mutexes and thread spawn failures.
- The macros, adapters, cluster leases and subscriptions, log registry, configuration and templates: they delegate, or would only add easy members.
