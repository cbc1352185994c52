# Verified model of the radar relay, the signature scanner and the research tools

This project models five cores of the repository in Dafny 4.11 and proves what they are for.
`dafny verify dfyconfig.toml` checks everything.

**The relay** (`RelayRoom`, `RoomSystem`, `RoomInvariants`, `RoomPreservation`, `RoomTheorems`,
`RoomAnswers`; `RelaySession`, `SessionSystem`, `SessionInvariants`, `SessionTheorems`,
`SessionAnswers`, `SessionExpiry`; `RelayTogether`). Rooms, viewers and sessions are classes whose
methods are the lock regions of the Go code, each proved to do what a function on a value says.
Those functions are the steps of two transition systems in which any number of handlers
interleave: every lock region, every channel operation and every gap between them is a step of
its own, and a writer receives without holding the viewer's lock.
The theorems hold in every state any interleaving reaches. `RelayTogether` is the product of a
room and the session table: there the session's answer to a handler is the session's own. The
answers themselves (who is let in, joins, attaches, is given which frame) are stated as
equivalences over what happened, not over the fields that decide them.

**The token buckets** (`Limiter`, `IpLimiter`, `IpConformance`). Lazy refill over reals. The
admission bounds are potential-function arguments; the per-address limiter also forgets entries,
and the project proves exactly when that is harmless, and exactly what must be admitted.

**The signature scanner** (`Numerals`, `PatternParser`, `PatternGrammar`, `PatternScanner`,
`ByteLayout`, `PeImage`, `PeLayout`). The recursive-descent parser accepts exactly the texts of
an independent grammar, the executor refines a meaning in which every operation sits at a static
offset, the search is exact, and the range it runs over is analysed down to the section headers.
What is found is tied to what was written: jumps to their displacements, headers to the fields a
linker lays out.

**The shared-memory protocols** (`Mailbox`, `MailboxProofs`, `MailboxVerdicts`, `Seqlock`,
`SeqlockProofs`, `TeleportReport`, `SharedMemory`) and **the memory scan** (`MemoryMap`,
`ScanFilters`, `UnknownScanner`, `ScanLosses`, `ScanAnswers`). Every read, write and
compare-exchange of a shared field is a step; any number of controllers and readers run against
one tick thread.
`TeleportReport` is the product of the two protocols, for what their order on that thread
promises. `SharedMemory` holds the code on either side as methods and ties it to the steps. The
chunked passes of the scanner are proved equal to word-by-word ones in 32-bit arithmetic.

**The printers and the histogram** (`CppString`, `JsonReader`, `JsonWriter`, `Histogram`). The
writers are proved against readers that follow the standards, and the percentile against the
exact order statistic.

## What the code does not do

Each of these is proved: the members named give the exact condition, and the last of them an input or
a run in which the code fails.

- Shutdown clears the session table, but a login already past its readiness check inserts a
  session afterwards (`SessionTheorems.ShutdownEmptiesTableIff`, `SessionTheorems.LateLoginRun`).
- With `perMinute < burst`, forgetting entries under pressure grants a second burst
  (`IpLimiter.ForgettingIsHarmlessIff`, `IpLimiter.SecondBurst`).
- A code section at address 0 that is followed by others makes the code range forget its lower
  bound (`PeImage.CoversIff` and `PeImage.LosesCodeIff`, `PeImage.LosesFirstSection`).
- A controller can report the result of another controller's later teleport
  (`MailboxVerdicts.ReportsOwnIff`, `MailboxVerdicts.WrongReport`).
- The count returned with a position can be one behind it (`SeqlockProofs.CountLagsIff` and
  `SeqlockProofs.ReadsAreWhole`, `SeqlockProofs.LaggingRead`).
- The first memory pass, short of its 8,000,000 candidates, loses exactly the eligible words that
  `UnknownScanner.Straddles` or `UnknownScanner.SteppedOver` describes
  (`UnknownScanner.UnknownScanner32.Start`): those across two chunks, from a lower bound that is not
  4-aligned (`ScanLosses.StraddlesAWord`), and those stepped over with pages that cannot be
  queried, from bounds inside pages (`ScanLosses.StepsOverAWord`).
- A login that finds room loses a session if and only if its hash already names an unrevoked one
  (`SessionTheorems.LoginLosesSessionIff`, `SessionTheorems.RepeatedHashRun`).

## Assumptions

- Steps are sequentially consistent, and times are abstract reals that need not agree between
  handlers.
- Generation, sequence and update counters are unbounded; the mailbox ids and the histogram
  counters are not.
- A connection is an identity, and a token hash is an opaque value; a run is fresh when no login
  draws a hash that is in the table.
- The websocket library's prepared message either exists or not.
- Images have fewer than 2^32 bytes; the last page of a 32-bit address space is not mapped; a
  memory map does not change during a pass. A query answers for the pages from that of the
  address on, as far as they have the same attributes; one of these names an allocation, so that
  regions may end anywhere.
- History that the theorems speak of (frames published, accepted, received; tuples applied;
  results stored; the writer's place when a count was loaded) is kept in extra fields that no step
  reads.

## Steps

| steps | source |
|---|---|
| RoomSystem.DoClaim, DoAttachProducer, DoReleaseProducer | projects/cs2-stage3-esp-radar/radar-relay/internal/relay/server.go:430-460 |
| RoomSystem.DoPublishBegin, DoPublishEnd | projects/cs2-stage3-esp-radar/radar-relay/internal/relay/room.go:151-173 |
| RoomSystem.DoOfferEnter, DoDrain, DoSend | projects/cs2-stage3-esp-radar/radar-relay/internal/relay/room.go:36-54 |
| RoomSystem.DoProducerLeaves | projects/cs2-stage3-esp-radar/radar-relay/internal/relay/server.go:437-507 |
| RoomSystem.DoAddViewer, DoAttachViewer, DoAttachSession, DoInitialEnter, DoStartWriter | projects/cs2-stage3-esp-radar/radar-relay/internal/relay/server.go:557-603 |
| RoomSystem.DoTake | projects/cs2-stage3-esp-radar/radar-relay/internal/relay/server.go:639 |
| RoomSystem.DoViewerLeaves, DoRemoveViewer | projects/cs2-stage3-esp-radar/radar-relay/internal/relay/server.go:564-621 |
| SessionSystem.DoBeginCreate, DoLock, DoPrune, DoUnlock, BeforeInsert, Insert | projects/cs2-stage3-esp-radar/radar-relay/internal/relay/server.go:250-323 |
| SessionSystem.DoDelete | projects/cs2-stage3-esp-radar/radar-relay/internal/relay/server.go:342-353 |
| SessionSystem.DoAuthenticate | projects/cs2-stage3-esp-radar/radar-relay/internal/relay/server.go:367-387 |
| SessionSystem.DoBeginClose, DoCloseTable | projects/cs2-stage3-esp-radar/radar-relay/internal/relay/server.go:127-146 |
| SessionSystem.DoReserve, DoAttach, DoRelease, DoRevoke, DoExpireSession | projects/cs2-stage3-esp-radar/radar-relay/internal/relay/session.go:39-94 |
| Mailbox.DoEnter, DoLoadRequest, DoLoadCompleted, DoClaim, DoWrite, DoPublish | projects/pwnie-island-research/external_tool.cpp:1094-1145 |
| Mailbox.DoPoll, DoGiveUp, DoLoadSucceeded | projects/pwnie-island-research/external_tool.cpp:1147-1164 |
| Mailbox.DoTick* | projects/pwnie-island-research/research_dll.cpp:787-839 |
| Seqlock.DoUnavailable, DoInvalidate, DoSequenceOdd, DoStoreCoordinate, DoSequenceEven, DoCount, DoValidate | projects/pwnie-island-research/research_dll.cpp:393-426 |
| Seqlock.DoLoad* | projects/pwnie-island-research/external_tool.cpp:981-1012 |
| RelayTogether.Next | projects/cs2-stage3-esp-radar/radar-relay/internal/relay/server.go:549-598 |
| TeleportReport.Next | projects/pwnie-island-research/research_dll.cpp:780-839 |

## Model

| member | source | states |
|---|---|---|
| RelayRoom.Viewer.Offer | projects/cs2-stage3-esp-radar/radar-relay/internal/relay/room.go:36-54 | An offer leaves the slot as `Slot.Offer` does: a stale frame changes nothing; a newer one becomes the pending frame, and the result says whether one was displaced. |
| RelayRoom.Room.ClaimProducer | projects/cs2-stage3-esp-radar/radar-relay/internal/relay/room.go:73-85 | A claim fails with the right error while closing or taken; otherwise it takes the slot under the next generation. Nothing else of the room changes. |
| RelayRoom.Room.AttachProducer | projects/cs2-stage3-esp-radar/radar-relay/internal/relay/room.go:87-95 | The connection is recorded exactly for the current generation of an open, claimed room. |
| RelayRoom.Room.ReleaseProducer | projects/cs2-stage3-esp-radar/radar-relay/internal/relay/room.go:97-105 | A release by the current generation frees slot and connection; by any other it changes nothing. |
| RelayRoom.Room.AttachViewer | projects/cs2-stage3-esp-radar/radar-relay/internal/relay/room.go:107-118 | The viewer's connection is recorded exactly if the room is open and the viewer registered. |
| RelayRoom.Room.AddViewer | projects/cs2-stage3-esp-radar/radar-relay/internal/relay/room.go:120-134 | Errors for a closing and a full room; otherwise the viewer is registered and gets the latest frame exactly if it is not older than the time to live. |
| RelayRoom.Room.RemoveViewer | projects/cs2-stage3-esp-radar/radar-relay/internal/relay/room.go:136-140 | The viewer and its connection leave the room's view; nobody else does. |
| RelayRoom.Room.Publish | projects/cs2-stage3-esp-radar/radar-relay/internal/relay/room.go:142-174 | Without interference: one new generation becomes the latest frame, every registered viewer's slot is offered it, and the count is the number of slots that displaced a frame; a payload that cannot be prepared changes nothing. |
| RelayRoom.Room.OfferToAll | projects/cs2-stage3-esp-radar/radar-relay/internal/relay/room.go:167-173 | The loop offers to every viewer once, whatever order it visits them in, and counts exactly those that displaced a frame. |
| RelayRoom.Room.Expire | projects/cs2-stage3-esp-radar/radar-relay/internal/relay/room.go:176-183 | The latest frame is dropped exactly if it is older than the time to live. |
| RelayRoom.Room.CloseConnections | projects/cs2-stage3-esp-radar/radar-relay/internal/relay/room.go:191-201 | `closing` is set, and what is collected is the producer's connection and every registered viewer's that has one. |
| RoomPreservation.StepKeepsInv | projects/cs2-stage3-esp-radar/radar-relay/internal/relay/room.go:36-212 | Every one of the nineteen steps keeps the room's invariants: slots, producers, registry, shutdown, published history, offers under way, drop count, no viewer behind. |
| RoomPreservation.StepKeepsViewer | projects/cs2-stage3-esp-radar/radar-relay/internal/relay/room.go:36-54 | Every step keeps a viewer's history: accepted frames are published, increasing, and each received, replaced or pending. |
| RoomPreservation.ReachableOk | projects/cs2-stage3-esp-radar/radar-relay/internal/relay/room.go:36-212 | The invariants hold in every state that any interleaving reaches. |
| RoomTheorems.TakenFramesIncrease | projects/cs2-stage3-esp-radar/radar-relay/internal/relay/room.go:36-54 | Over every interleaving of publishes, late initial offers and the reader, which takes no lock: the frames a viewer receives have strictly increasing generations, each was published to this room, and none predates its registration. |
| RoomTheorems.FramesAreConserved | projects/cs2-stage3-esp-radar/radar-relay/internal/relay/room.go:41-54 | Between offers, the frames a slot accepted are, as a multiset, those received, those replaced and the at most one pending. |
| RoomTheorems.SecondSelectSends | projects/cs2-stage3-esp-radar/radar-relay/internal/relay/room.go:49-52 | In every reachable state with an offer at its second select the channel is empty, so `default` is never taken and the frame is sent. |
| RoomTheorems.DropMetricMissesNothing | projects/cs2-stage3-esp-radar/radar-relay/internal/relay/server.go:502-504 | The initial offer, whose result is ignored, never replaces a frame; with no publish under way the drop counter equals the number of replaced frames. |
| RoomTheorems.NoViewerLeftBehind | projects/cs2-stage3-esp-radar/radar-relay/internal/relay/room.go:120-174 | With no publish under way, a registered viewer that has seen a publish since it joined has the room's newest generation, and that frame is pending or the last one it received; nobody holds its lock. |
| RoomTheorems.NewestIsPendingOrTaken | projects/cs2-stage3-esp-radar/radar-relay/internal/relay/room.go:36-54 | Whenever nobody holds its lock, the newest frame a viewer has accepted, if only the initial one, is pending or the last one it received. |
| RoomTheorems.OneProducer | projects/cs2-stage3-esp-radar/radar-relay/internal/relay/room.go:73-105 | At most one handler holds the slot; generations 1, 2, ... are each released exactly once and in order on every exit path; a release under an old generation changes nothing. |
| RoomTheorems.RoomHoldsItsLimit | projects/cs2-stage3-esp-radar/radar-relay/internal/relay/room.go:120-140 | Never more viewers than the limit, and the registered ones are exactly the handlers that joined and have not left. |
| RoomTheorems.ShutdownMissesNoConnection | projects/cs2-stage3-esp-radar/radar-relay/internal/relay/room.go:191-212 | The step that sets `closing` collects exactly the attached, unreleased connections, and over every later run every attached connection is one of them. |
| RoomTheorems.ClosingIsFinal | projects/cs2-stage3-esp-radar/radar-relay/internal/relay/room.go:76-118 | After `closing`, over every run, no claim, registration or attachment succeeds. |
| RoomTheorems.OfferIsAtomic | projects/cs2-stage3-esp-radar/radar-relay/internal/relay/room.go:36-54 | The separate steps of an offer end where the whole offer does, also when the reader receives between them: they amount to receiving first and offering then. |
| RoomAnswers.ClaimsIff | projects/cs2-stage3-esp-radar/radar-relay/internal/relay/room.go:73-85 | A new producer gets the slot if and only if the room is open and every producer before it has released; it gets the generation after those released. |
| RoomAnswers.ProducerAttachesIff | projects/cs2-stage3-esp-radar/radar-relay/internal/relay/room.go:87-95 | A producer with the slot attaches its connection if and only if the room is open. |
| RoomAnswers.PublishAdds | projects/cs2-stage3-esp-radar/radar-relay/internal/relay/room.go:151-166 | A publish adds one frame with the payload, the time of publishing and the next generation; it is the latest, and it is to be offered to every registered viewer. |
| RoomAnswers.JoinsIff | projects/cs2-stage3-esp-radar/radar-relay/internal/relay/room.go:120-134 | A viewer joins if and only if the room is open and fewer than its limit have joined and not left; it is given the latest frame if and only if that was published no longer ago than the time to live. |
| RoomAnswers.ViewerAttachesIff | projects/cs2-stage3-esp-radar/radar-relay/internal/relay/room.go:107-118 | A viewer that has joined attaches its connection if and only if the room is open. |
| RoomAnswers.InitialIsOffered | projects/cs2-stage3-esp-radar/radar-relay/internal/relay/server.go:602-609 | The writer does not start before the initial frame is offered; after the offer that frame is pending if the viewer had seen none as new, and otherwise nothing has changed. |
| RoomAnswers.ExpireDropsIff | projects/cs2-stage3-esp-radar/radar-relay/internal/relay/room.go:176-183 | In every reachable state an expiry keeps the latest frame if and only if that was published no longer ago than the time to live. |
| RoomAnswers.LatestOverRun | projects/cs2-stage3-esp-radar/radar-relay/internal/relay/room.go:176-183 | Over every run that publishes nothing the latest frame stays if and only if no expiry of the run finds it older than its time to live. |
| RoomAnswers.NewcomerGetsLatest | projects/cs2-stage3-esp-radar/radar-relay/internal/relay/room.go:120-183 | After a publish, over every run that publishes nothing more: a viewer that joins then is given exactly that frame, if its age is within the time to live and no expiry found it beyond, and none otherwise. |
| RelaySession.Session.IsValid | projects/cs2-stage3-esp-radar/radar-relay/internal/relay/session.go:33-37 | Valid means neither revoked nor expired; nothing changes. |
| RelaySession.Session.ReserveViewer | projects/cs2-stage3-esp-radar/radar-relay/internal/relay/session.go:39-48 | A new reservation is made exactly if the session is valid and below its maximum. |
| RelaySession.Session.AttachViewer | projects/cs2-stage3-esp-radar/radar-relay/internal/relay/session.go:50-61 | The connection is recorded exactly for a live reservation of a valid session. |
| RelaySession.Session.ReleaseViewer | projects/cs2-stage3-esp-radar/radar-relay/internal/relay/session.go:63-67 | The reservation and its connection leave the session; the others stay. |
| RelaySession.Session.CloseDone | projects/cs2-stage3-esp-radar/radar-relay/internal/relay/session.go:80 | Closing `done` requires that it is open: a second close would be a panic. |
| RelaySession.Session.RevokeAt | projects/cs2-stage3-esp-radar/radar-relay/internal/relay/session.go:73-87 | The first call revokes, closes `done` once and collects exactly the attached connections; every later call changes nothing and collects none. |
| SessionInvariants.StepKeepsTable | projects/cs2-stage3-esp-radar/radar-relay/internal/relay/server.go:300-323 | Every step with a fresh hash keeps the account of the table: each session is listed, revoked or held by one handler. |
| SessionInvariants.StepKeepsSessions | projects/cs2-stage3-esp-radar/radar-relay/internal/relay/session.go:39-94 | Every step keeps each session's reservations, connections, limits and single close. |
| SessionTheorems.EverySessionAccountedFor | projects/cs2-stage3-esp-radar/radar-relay/internal/relay/server.go:300-412 | Over every run whose token hashes are fresh, every session ever created is in the table, or revoked, or held by a handler about to revoke it. |
| SessionTheorems.LoginLosesSessionIff | projects/cs2-stage3-esp-radar/radar-relay/internal/relay/server.go:303-317 | A login that finds room loses a session if and only if its hash already names an unrevoked one: the exact reach of the freshness assumption. |
| SessionTheorems.LimitsHold | projects/cs2-stage3-esp-radar/radar-relay/internal/relay/server.go:308-317 | Over every run, fresh or not: the table never exceeds its maximum, no session its viewers, and `done` is closed at most once. |
| SessionTheorems.RevocationMissesNoConnection | projects/cs2-stage3-esp-radar/radar-relay/internal/relay/session.go:73-94 | In every reachable state the first revocation collects exactly the attached connections; over every later run nothing is attached or reserved any more and `done` stays closed once. |
| SessionTheorems.RevokedIsFinal | projects/cs2-stage3-esp-radar/radar-relay/internal/relay/session.go:39-67 | Over every run a revoked session stays revoked, and its reservations and connections only shrink. |
| SessionTheorems.ShutdownEmptiesTableIff | projects/cs2-stage3-esp-radar/radar-relay/internal/relay/server.go:127-142 | From every reachable state in which shutdown can clear the table: the table stays empty over every run from there if and only if no login is past its readiness check at that moment. |
| SessionTheorems.LateLogin | projects/cs2-stage3-esp-radar/radar-relay/internal/relay/server.go:250-319 | The failing case: from a cleared, unlocked table such a login inserts a session that is listed and not revoked, while the server is not ready and nobody is left to close. |
| SessionTheorems.NoSecondShutdown | projects/cs2-stage3-esp-radar/radar-relay/internal/relay/server.go:127-142 | Once the server is not ready and nobody is closing, that stays so over every run: no shutdown comes back for a late session. |
| SessionTheorems.LateLoginRun | projects/cs2-stage3-esp-radar/radar-relay/internal/relay/server.go:250-319 | A run from the start, of one login and one shutdown, that ends with the table non-empty. |
| SessionTheorems.RepeatedHashRun | projects/cs2-stage3-esp-radar/radar-relay/internal/relay/server.go:303-317 | A run from the start, of two logins that draw the same hash, after which the first session is neither listed nor revoked nor held. |
| SessionAnswers.LetsInIff | projects/cs2-stage3-esp-radar/radar-relay/internal/relay/server.go:361-387 | A request is let in if and only if its hash is listed, the session is unrevoked and its end is ahead, and then as that session. |
| SessionAnswers.LogoutEnds | projects/cs2-stage3-esp-radar/radar-relay/internal/relay/server.go:337-353 | After any run with fresh hashes, a logout takes exactly its entry out of the table; from there, over every run, the session is let in by nobody under any hash, and is revoked or held by the logout, whose next step revokes it. |
| SessionAnswers.StaysLoggedOut | projects/cs2-stage3-esp-radar/radar-relay/internal/relay/server.go:361-387 | A hash that is out of the table is refused over every run without a login that draws it. |
| SessionAnswers.LoginLists | projects/cs2-stage3-esp-radar/radar-relay/internal/relay/server.go:302-323 | A login that has pruned takes out exactly its cookie's entry, and lists its session if and only if there is room then; new requests with the token are let in as that session exactly up to its end. |
| SessionAnswers.ReplacedEnds | projects/cs2-stage3-esp-radar/radar-relay/internal/relay/server.go:302-323 | The session that a login's cookie names is over in the same sense, whether or not the login finds room. |
| SessionAnswers.RefusalEnds | projects/cs2-stage3-esp-radar/radar-relay/internal/relay/server.go:379-384 | A request that finds its session expired or revoked takes exactly its entry out of the table, and that session is over in the same sense. |
| SessionAnswers.ShutdownEnds | projects/cs2-stage3-esp-radar/radar-relay/internal/relay/server.go:134-142 | A shutdown empties the table, and every session that was listed is over in the same sense. |
| SessionAnswers.HandlerAfter | projects/cs2-stage3-esp-radar/radar-relay/internal/relay/server.go:250-412 | What every step makes of every handler: no step moves another, and each from and to the stages of its own path. |
| SessionExpiry.SweepIsExact | projects/cs2-stage3-esp-radar/radar-relay/internal/relay/server.go:396-405 | In every reachable state: when a sweep has looked at every entry, nothing listed has expired by its time, and all it took out has expired or is revoked, whatever ran meanwhile. |
| SessionExpiry.PruneTakesOutIff | projects/cs2-stage3-esp-radar/radar-relay/internal/relay/server.go:396-405 | A sweep takes an entry out if and only if its session has expired by the time of the sweep or is revoked. |
| SessionExpiry.ExpiredIsFinal | projects/cs2-stage3-esp-radar/radar-relay/internal/relay/session.go:33-61 | Over every run whose requests come at the session's end or later nobody is let in, reserves or attaches in it. |
| SessionExpiry.ReservesIff | projects/cs2-stage3-esp-radar/radar-relay/internal/relay/session.go:39-48 | In every reachable state a handler that was let in gets a reservation if and only if the session is unrevoked, before its end, and below its maximum. |
| SessionExpiry.AttachesIff | projects/cs2-stage3-esp-radar/radar-relay/internal/relay/session.go:50-61 | In every reachable state a live reservation gets its connection attached if and only if the session is unrevoked and before its end. |
| RelayTogether.ActKeepsInv | projects/cs2-stage3-esp-radar/radar-relay/internal/relay/server.go:549-603 | One room and the session table together, as the viewer handlers run them: every act keeps the invariants of both, every handler in the room has its reservation, and one past both attachments has the same connection in both. |
| RelayTogether.RoomLetsNoneEscape | projects/cs2-stage3-esp-radar/radar-relay/internal/relay/server.go:143-145 | Once the room has been closed, in every reachable state every connection a viewer handler holds, whatever its session answered, is one that the room collected. |
| RelayTogether.SessionLetsNoneEscape | projects/cs2-stage3-esp-radar/radar-relay/internal/relay/server.go:140-142 | Once a session has been revoked, in every reachable state the connection of each of its handlers that is past both attachments is one that the session collected, and a handler between the two is turned away. |
| RelayTogether.StreamsIff | projects/cs2-stage3-esp-radar/radar-relay/internal/relay/server.go:590-598 | A handler attached to the room passes on if and only if its session is unrevoked and before its end, and then the session has the same connection; otherwise it quits. |
| Limiter.FrameLimiter.constructor | projects/cs2-stage3-esp-radar/radar-relay/internal/relay/limiter.go:83-85 | A new limiter starts full. |
| Limiter.FrameLimiter.Allow | projects/cs2-stage3-esp-radar/radar-relay/internal/relay/limiter.go:87-100 | One call refills, caps and spends as `Bucket.Allow` says, also for a time in the past. |
| Limiter.AdmissionBound | projects/cs2-stage3-esp-radar/radar-relay/internal/relay/limiter.go:87-100 | From any bucket that is not overfull, any non-empty sequence of calls, in any order of times, is admitted at most burst + rate x (latest - first) often. |
| Limiter.SpentFromCredit | projects/cs2-stage3-esp-radar/radar-relay/internal/relay/limiter.go:87-100 | The potential behind it: what is spent over a sequence of calls is at most the fall of tokens - rate x last. |
| Limiter.LastIsLatest | projects/cs2-stage3-esp-radar/radar-relay/internal/relay/limiter.go:88-94 | The bucket's clock is the latest time seen, so out-of-order calls earn nothing twice. |
| Limiter.AdmitsAllIffConforms | projects/cs2-stage3-esp-radar/radar-relay/internal/relay/limiter.go:87-100 | For non-decreasing times a full bucket admits every call if and only if every stretch of them respects burst + rate x duration: the limiter is exactly as strict as promised. |
| IpLimiter.IPLimiter.constructor | projects/cs2-stage3-esp-radar/radar-relay/internal/relay/limiter.go:25-32 | A new limiter has no entries and refills `perMinute / 60` a second. |
| IpLimiter.IPLimiter.Allow | projects/cs2-stage3-esp-radar/radar-relay/internal/relay/limiter.go:34-66 | One call ages, makes room, refills and spends as `Called` says: the answer and the whole new table. |
| IpLimiter.IPLimiter.Prune | projects/cs2-stage3-esp-radar/radar-relay/internal/relay/limiter.go:68-74 | The loop deletes exactly the entries older than the given time, in any order. |
| IpLimiter.CalledKeepsTable | projects/cs2-stage3-esp-radar/radar-relay/internal/relay/limiter.go:34-66 | A call keeps every entry between zero and burst and dated no later than now, and never exceeds `maxEntries`. |
| IpLimiter.PruningIsHarmless | projects/cs2-stage3-esp-radar/radar-relay/internal/relay/limiter.go:39-45 | If a minute refills a bucket, forgetting an entry older than a minute changes nothing that its key could spend. |
| IpLimiter.AdmissionBound | projects/cs2-stage3-esp-radar/radar-relay/internal/relay/limiter.go:34-66 | For calls in time order and a rate that refills the burst in a minute: every key is admitted at most burst + rate x duration, although the map forgets, and the map never exceeds `maxEntries`. |
| IpLimiter.ForgettingIsHarmlessIff | projects/cs2-stage3-esp-radar/radar-relay/internal/relay/limiter.go:43-51 | The bound holds of every sequence of calls if and only if perMinute >= burst; otherwise a flood of other keys makes the limiter forget and grant a second burst. |
| IpLimiter.SecondBurst | projects/cs2-stage3-esp-radar/radar-relay/internal/relay/limiter.go:44-50 | The failing family: for any smaller rate, a sequence of calls in time order that breaks the bound. |
| IpConformance.AdmitsIff | projects/cs2-stage3-esp-radar/radar-relay/internal/relay/limiter.go:39-65 | A known address, or a new one with a place in the table, is admitted if and only if a whole token is there after the refill. |
| IpConformance.FullTableAdmitsIff | projects/cs2-stage3-esp-radar/radar-relay/internal/relay/limiter.go:43-51 | A new address that finds the table full is admitted if and only if some entry has idled for more than a minute. |
| IpConformance.AdmittedAsAlone | projects/cs2-stage3-esp-radar/radar-relay/internal/relay/limiter.go:34-66 | Over calls in time order, an address that always has a place is admitted exactly as often as by a bucket of its own over its own times, whatever the others do and whatever is forgotten. |
| IpConformance.AdmitsAllIffConforms | projects/cs2-stage3-esp-radar/radar-relay/internal/relay/limiter.go:34-66 | From an empty table such an address is admitted every time if and only if every stretch of its own calls respects burst + rate x duration. |
| IpConformance.FewHavePlaces | projects/cs2-stage3-esp-radar/radar-relay/internal/relay/limiter.go:42-51 | With no more addresses than the table holds, each always has a place. |
| IpConformance.SweptByAge | projects/cs2-stage3-esp-radar/radar-relay/internal/relay/limiter.go:39-41 | After every call whose number is divisible by 256 no other entry is older than ten minutes. |
| PatternParser.ParseUntil | projects/cs2-dumper-cpp-standalone/src/pattern.cpp:15-76 | Parsing never lengthens what is left, so the parser terminates. |
| PatternParser.Parser.ParseOperations | projects/cs2-dumper-cpp-standalone/src/pattern.cpp:15-76 | The parser object's loop and its moving cursor yield the operations and the rest of the text, or the error, of the parse of the text ahead. |
| PatternParser.Parser.ParseOperation | projects/cs2-dumper-cpp-standalone/src/pattern.cpp:28-73 | One token is read and the cursor strictly advances, or the error is that of the text ahead. |
| PatternParser.Parser.ParseSkip | projects/cs2-dumper-cpp-standalone/src/pattern.cpp:35-46 | `[N]` is read with 32-bit wrap-around; no digits, or no bracket, is an error. |
| PatternParser.Parser.SkipSpacesHere | projects/cs2-dumper-cpp-standalone/src/pattern.cpp:85-87 | The cursor stops at the first character that is no space, or at the end. |
| PatternGrammar.DerivationParses | projects/cs2-dumper-cpp-standalone/src/pattern.cpp:15-76 | Every sequence of tokens of the grammar, nested to any depth and with any spaces the language allows, parses to what it means. |
| PatternGrammar.ParseHasDerivation | projects/cs2-dumper-cpp-standalone/src/pattern.cpp:15-76 | Every text that parses is such a sequence, and what it parses to is what it means. |
| PatternGrammar.ParsesIffSpelled | projects/cs2-dumper-cpp-standalone/src/pattern.cpp:15-87 | A text parses to a tree if and only if it spells that tree in the grammar: spaces do not matter and nothing is ambiguous. |
| PatternGrammar.NumberIsValue | projects/cs2-dumper-cpp-standalone/src/pattern.cpp:37-43 | The accumulated skip count is the decimal value modulo 2^32. |
| Numerals.HexValueIsPlace | projects/cs2-dumper-cpp-standalone/src/pattern.cpp:78-83 | A hexadecimal digit's value is its place among the digits, in either case. |
| PatternGrammar.ParsePrinted | projects/cs2-dumper-cpp-standalone/src/pattern.cpp:15-76 | Printing any well-formed tree, nested to any depth, and parsing it gives the tree back. |
| PatternScanner.Scanner.Execute | projects/cs2-dumper-cpp-standalone/src/pattern.cpp:108-145 | Success is exactly that the pattern holds, each operation at a static offset; then the cursor has advanced by the static width, and the saves have grown by what the pattern records. The 32-bit types show that no cursor wraps and every read is inside the image. |
| PatternScanner.Scanner.ExecuteOne | projects/cs2-dumper-cpp-standalone/src/pattern.cpp:110-143 | The same for one operation; a jump moves nothing but its own four bytes. |
| PatternScanner.HoldsFirst | projects/cs2-dumper-cpp-standalone/src/pattern.cpp:110-144 | The static meaning unrolls from the front, which is how a cursor meets it. |
| PatternScanner.CapturedCount | projects/cs2-dumper-cpp-standalone/src/pattern.cpp:122-141 | The number of saves depends on the pattern alone. |
| PatternScanner.MatchCount | projects/cs2-dumper-cpp-standalone/src/analysis.cpp:173-175 | A match has one save more than the pattern's count, so whether `saves[1]` exists is decided by the pattern; and a match that starts inside the image ends inside it. |
| PatternScanner.LooserMatchesMore | projects/cs2-dumper-cpp-standalone/src/pattern.cpp:112-121 | Replacing bytes by `?`, at any depth, only enlarges the set of matches, and changes neither where one ends nor what it records. |
| PatternScanner.FirstLiteral | projects/cs2-dumper-cpp-standalone/src/pattern.cpp:93-99 | The loop finds the byte a match must start with, if the pattern decides one. |
| PatternScanner.LiteralIsNecessary | projects/cs2-dumper-cpp-standalone/src/pattern.cpp:155 | A start whose byte is not the literal cannot match: the prefilter loses nothing. |
| PatternScanner.Scanner.FindUniqueCode | projects/cs2-dumper-cpp-standalone/src/pattern.cpp:147-165 | A match is returned if and only if exactly one start in the range matches, and it is that one with all its saves. |
| PatternScanner.ParseIsWellFormed | projects/cs2-dumper-cpp-standalone/src/pattern.cpp:47-54 | Whatever the parser yields is a pattern the executor is defined on. |
| ByteLayout.LiteralHoldsIff | projects/cs2-dumper-cpp-standalone/src/pattern.cpp:110-115 | Literal bytes hold at an address if and only if they lie there. |
| ByteLayout.HoldsInTwo | projects/cs2-dumper-cpp-standalone/src/pattern.cpp:110-144 | A pattern in two parts holds if and only if the first does and the second holds after its width. |
| ByteLayout.OpThen | projects/cs2-dumper-cpp-standalone/src/pattern.cpp:110-144 | What follows an operation lies one byte on for a byte, the count on for a skip, nothing for a save, the width on for a read, and four bytes on for a jump. |
| ByteLayout.ReadRecords | projects/cs2-dumper-cpp-standalone/src/pattern.cpp:125-129 | A number written in one, two or four little-endian bytes is what a read of that width records. |
| ByteLayout.JumpLands | projects/cs2-dumper-cpp-standalone/src/pattern.cpp:130-141 | A displacement written for a target, counted from the byte after it, makes the jump try its operations at that target and record what they record there. |
| ByteLayout.JumpMisses | projects/cs2-dumper-cpp-standalone/src/pattern.cpp:136 | A displacement that leads outside the image makes the jump fail. |
| ByteLayout.CallIsFound | projects/cs2-dumper-cpp-standalone/src/pattern.cpp:15-145 | From text to address: wherever a call to a target was written, the signature of a call parses, matches, and records the target. |
| PeImage.PeFile.constructor | projects/cs2-dumper-cpp-standalone/src/pe.cpp:67-123 | The file is valid exactly if every header read is there and has its magic value; then base, export entry and code range are those of the headers, and otherwise the range is empty. |
| PeImage.FindFileHeader | projects/cs2-dumper-cpp-standalone/src/pe.cpp:68-79 | The file header is found exactly where the 32-bit sum puts it, or not at all. |
| PeImage.FindDirectory | projects/cs2-dumper-cpp-standalone/src/pe.cpp:80-99 | Both kinds of optional header, with their own offsets; a field that is not inside the image fails. |
| PeImage.ReadSections | projects/cs2-dumper-cpp-standalone/src/pe.cpp:101-114 | The loop over the section table fails exactly if the table does not fit, and otherwise folds every code section into the two bounds. |
| PeImage.Widen | projects/cs2-dumper-cpp-standalone/src/pe.cpp:106-113 | One section widens the bounds, with 0 standing for no lower bound yet. |
| PeImage.RangeIsSearchable | projects/cs2-dumper-cpp-standalone/src/pe.cpp:116-121 | Whatever the headers say, the range of a non-empty image is non-empty and inside it, so a valid file is always searched. |
| PeImage.CoversWithoutZero | projects/cs2-dumper-cpp-standalone/src/pe.cpp:102-121 | If no code section is at address 0, the range covers every clipped code section. |
| PeImage.CoversIff | projects/cs2-dumper-cpp-standalone/src/pe.cpp:102-121 | When the range covers every clipped code section, for any sections at all, as a condition on the headers: what goes wrong otherwise is that a section at address 0 makes the loop forget its lower bound. |
| PeImage.LosesCodeIff | projects/cs2-dumper-cpp-standalone/src/pe.cpp:111 | When all code sections reach into the image: one is lost if and only if a code section is at address 0 and another follows the last such. |
| PeImage.LosesFirstSection | projects/cs2-dumper-cpp-standalone/src/pe.cpp:111 | The least failing image: two code sections, at 0 and at 0x2000, and a range that is [0x2000, 0x3000). |
| PeImage.CoversBytes | projects/cs2-dumper-cpp-standalone/src/pe.cpp:107-113 | A range that covers the code sections contains every byte of each, up to the larger of its two sizes and to the end of the image. |
| PeLayout.HeadersReadBack | projects/cs2-dumper-cpp-standalone/src/pe.cpp:26-114 | Headers laid out field after field, in the order and with the widths of the PE format, of 32 or of 64 bits, are read back: the file is valid, with that image base, that export directory and those sections in order. |
| PeLayout.SectionReadsBack | projects/cs2-dumper-cpp-standalone/src/pe.cpp:35-46 | A section header written field by field reads back as its section. |
| PeLayout.ValidHasMagic | projects/cs2-dumper-cpp-standalone/src/pe.cpp:68-95 | Whatever is taken for valid has all three magic values. |
| PeImage.ExtentBegins | projects/cs2-dumper-cpp-standalone/src/pe.cpp:111 | The lower bound is the least address after the last code section at address 0. |
| PeImage.Find | projects/cs2-dumper-cpp-standalone/src/pattern.cpp:147-165 | From bytes and text: for a valid file and a parsable signature a match is returned if and only if exactly one start in the code range matches, and it is that start followed by all that the pattern records there. |
| MailboxProofs.StepKeepsInv | projects/pwnie-island-research/external_tool.cpp:1120-1172 | Every step of any controller or the tick thread keeps the protocol's invariants. |
| MailboxProofs.ClaimKeeps | projects/pwnie-island-research/external_tool.cpp:1129-1138 | A compare-exchange that succeeds finds nothing pending: ids only grow, so an id read as acknowledged cannot come back. |
| MailboxProofs.OneOutstanding | projects/pwnie-island-research/external_tool.cpp:1120-1145 | In every reachable state `request - completed` is 0, 1 or 2, and 1 exactly while `request` is odd; both stay within a 32-bit LONG. |
| MailboxProofs.OneWriter | projects/pwnie-island-research/external_tool.cpp:1117-1119 | Exactly one controller is writing the tuple while the id is odd, and none while it is even. |
| MailboxProofs.AppliedOnceInOrder | projects/pwnie-island-research/research_dll.cpp:786-839 | The tuples given to SetPosition are the published ones, whole, in order and each once; a controller that sees its id acknowledged has had its own tuple applied. |
| MailboxProofs.ChecksNeverFail | projects/pwnie-island-research/research_dll.cpp:804-814 | The recheck after the copy never fails, what was copied is the pending request's tuple, and the consumer's range check never fails either. |
| MailboxProofs.RequestImpliesTeleport | projects/pwnie-island-research/research_dll.cpp:770-778 | The controller's range implies the consumer's. |
| MailboxProofs.OneTickServes | projects/pwnie-island-research/research_dll.cpp:780-840 | From any reachable state one undisturbed tick serves the pending request and acknowledges it. |
| MailboxProofs.QueuesRequest | projects/pwnie-island-research/external_tool.cpp:1120-1145 | Whenever nothing is pending and ids are left, an undisturbed controller's request gets through whole. |
| MailboxProofs.VerdictIsLatest | projects/pwnie-island-research/external_tool.cpp:1147-1164 | What a controller reports is the last result stored when it reads, for its own or a later request. |
| MailboxProofs.VerdictOfAnother | projects/pwnie-island-research/external_tool.cpp:1159-1164 | How another result gets in: when a controller's id is acknowledged, the tick is at rest, nothing is pending and ids are left, another request can be served before the controller reads, and then it reports that one's result. |
| MailboxVerdicts.ReportsOwnIff | projects/pwnie-island-research/external_tool.cpp:1147-1164 | From every reachable state: a controller that has seen its id acknowledged is sure to report the result of its own request, over every run until it reads, if and only if it holds the last id there is. |
| MailboxVerdicts.WrongReport | projects/pwnie-island-research/external_tool.cpp:1147-1164 | A run from the start in which one teleport fails, another succeeds, and the first controller reports success. |
| SharedMemory.SharedMailbox.QueueTeleport | projects/pwnie-island-research/external_tool.cpp:1089-1145 | The code, run alone, queues exactly if the tuple is in range, nothing is pending and an id is left, and leaves the tuple, the new id and everything else as they must be. |
| SharedMemory.SharedMailbox.ProcessTeleport | projects/pwnie-island-research/research_dll.cpp:780-840 | The code, run alone, serves exactly a pending request, with success exactly if the position read back is publishable and within 2.0 of the request on each axis. |
| SharedMemory.RequestIff | projects/pwnie-island-research/external_tool.cpp:1094-1100 | A request is accepted if and only if every coordinate is finite and within 200000 of zero. |
| SharedMemory.NearIff | projects/pwnie-island-research/research_dll.cpp:822-832 | A position is close enough if and only if it is within 2.0 of the request on every axis. |
| SharedMemory.TickServes | projects/pwnie-island-research/research_dll.cpp:780-840 | The tick's steps, taken in order, leave what `ProcessTeleport` leaves. |
| SeqlockProofs.AccessKeepsInv | projects/pwnie-island-research/research_dll.cpp:412-420 | Every access of the writer or of any reader keeps the protocol's invariants. |
| SeqlockProofs.WriterMoves | projects/pwnie-island-research/research_dll.cpp:412-420 | What a reader has copied under an unmoved sequence number stays true whatever the writer does. |
| SeqlockProofs.ReadsAreWhole | projects/pwnie-island-research/external_tool.cpp:985-1012 | Every successful read returns the coordinates of one single publication, and as the count its index, or one less exactly if the writer had made the sequence even but not counted when the count was loaded; one reader's reads never go back. |
| SeqlockProofs.CountLagsIff | projects/pwnie-island-research/research_dll.cpp:418-420 | While what a reader copies is still good, the count is the index of the publication if and only if the writer is not between its second sequence increment and the count; there it is one less. |
| SeqlockProofs.AttemptsAreBounded | projects/pwnie-island-research/external_tool.cpp:985 | A read makes at most 20 attempts, and none before something was published. |
| SeqlockProofs.RetriesIff | projects/pwnie-island-research/external_tool.cpp:985-1012 | An attempt that finds the sequence odd or moved, or the position withdrawn, is followed by another if and only if it was not the twentieth. |
| SeqlockProofs.WithdrawnReadsNothing | projects/pwnie-island-research/external_tool.cpp:981-1012 | While a position is withdrawn, over every run until the next is validated, no read begins and none completes. |
| SeqlockProofs.WithdrawnWhileStoring | projects/pwnie-island-research/research_dll.cpp:412-425 | In every reachable state the position is withdrawn for as long as another is being stored, and when there is none. |
| SeqlockProofs.QuietReadIsCurrent | projects/pwnie-island-research/external_tool.cpp:985-1012 | An undisturbed attempt succeeds at once with the last publication and its exact index. |
| SeqlockProofs.CountCanLag | projects/pwnie-island-research/research_dll.cpp:418-420 | From every such state a reader can complete a read with the new position and the old count. |
| SeqlockProofs.LaggingRead | projects/pwnie-island-research/research_dll.cpp:412-420 | A run from zeroed memory in which a read returns the second position with the count of the first. |
| SharedMemory.SharedPosition.PublishPosition | projects/pwnie-island-research/research_dll.cpp:393-426 | The code, run alone, publishes a position if and only if every coordinate is finite and not all are zero, and otherwise only withdraws the old one. |
| SharedMemory.WriterPublishes | projects/pwnie-island-research/research_dll.cpp:412-420 | The writer's steps, taken in order, leave what `PublishPosition` leaves. |
| TeleportReport.ActKeepsInv | projects/pwnie-island-research/research_dll.cpp:816-839 | Mailbox and position together, as the tick thread runs them between its other publications: every act of either side keeps both protocols, and a success recorded or about to be stored has a publication near its request, made after SetPosition. |
| TeleportReport.ReadsAfterSuccess | projects/pwnie-island-research/research_dll.cpp:816-820 | What publishing before acknowledging is for: once a request is acknowledged with success, over every run every read that begins from then on returns the position published for it, which is within 2.0 of the request, or a later publication; never the previous tick's. |
| UnknownScanner.UnknownScanner32.Start | projects/pwnie-island-research/external_tool.cpp:322-462 | Over a fixed memory map: terminates, in 32-bit arithmetic that never wraps; the candidates are, strictly increasing, exactly the capturable words with their values, or the first 8,000,000 of them and then it says so. |
| UnknownScanner.UnknownScanner32.CaptureKnown | projects/pwnie-island-research/external_tool.cpp:365-458 | A queried region is scanned from where the scan stands, clipped to the range, and left behind. |
| UnknownScanner.UnknownScanner32.CaptureRegion | projects/pwnie-island-research/external_tool.cpp:383-453 | The chunks of a region capture every word that lies in one chunk. |
| UnknownScanner.UnknownScanner32.CaptureChunk | projects/pwnie-island-research/external_tool.cpp:402-452 | The words of a chunk are captured from the first aligned one on; what is left at the end is not capturable. |
| UnknownScanner.AlignedLosesNothing | projects/pwnie-island-research/external_tool.cpp:333-376 | For a 4-aligned lower bound every eligible word is capturable, provided a bound is page-aligned or the first page can be queried. |
| UnknownScanner.InUnknownPage | projects/pwnie-island-research/external_tool.cpp:356-363 | All that a step over an unknown page can lose is the page of an unaligned upper bound. |
| UnknownScanner.LastWord | projects/pwnie-island-research/external_tool.cpp:402-410 | All that chunking can lose is a word across two chunks, and only from an unaligned lower bound. |
| ScanLosses.StepsOverAWord | projects/pwnie-island-research/external_tool.cpp:356-363 | A memory and 4-aligned bounds for which an eligible word is stepped over and no first pass returns it. |
| ScanLosses.StraddlesAWord | projects/pwnie-island-research/external_tool.cpp:402-410 | A memory and an unaligned lower bound for which an eligible word lies across two chunks and no first pass returns it. |
| UnknownScanner.UnknownScanner32.Filter | projects/pwnie-island-research/external_tool.cpp:464-556 | Over a fixed memory map the chunked pass keeps, in order, exactly the candidates that looking up and reading each by itself would keep, with their new values. |
| UnknownScanner.UnknownScanner32.FilterChunk | projects/pwnie-island-research/external_tool.cpp:493-551 | One read consumes at least one candidate, and treats each it covers as a read of its own would. |
| UnknownScanner.ChunkCovers | projects/pwnie-island-research/external_tool.cpp:493-510 | The chunk around a candidate lies in its region, covers it, fits the 1 MiB buffer, and no sum leaves 32 bits. |
| UnknownScanner.ChunkKeeps | projects/pwnie-island-research/external_tool.cpp:526-548 | Inside a chunk every word of an aligned candidate is there and is what a separate 4-byte read returns. |
| ScanAnswers.FindsExactly | projects/pwnie-island-research/external_tool.cpp:322-462 | A first pass that was not cut short has exactly the aligned words between the bounds in private, committed, writable pages, finite ones for singles, but for those lost in the two ways. |
| ScanAnswers.KeepsExactly | projects/pwnie-island-research/external_tool.cpp:464-556 | A filter pass has exactly the candidates in writable pages whose words have moved as asked, each with the value it has now. |
| ScanAnswers.KeepsOrder | projects/pwnie-island-research/external_tool.cpp:464-556 | A filter pass keeps the order of the candidates, and adds none. |
| ScanFilters.ChangedIffMoved | projects/pwnie-island-research/external_tool.cpp:635-677 | Of comparable words, a change is an increase or a decrease and never both, except between the two floating-point zeros. |
| ScanFilters.IntegersAreOrdered | projects/pwnie-island-research/external_tool.cpp:644-659 | For all 32-bit integers: a word has increased if and only if its value is greater, decreased if and only if it is less, changed if and only if it differs. |
| ScanFilters.SinglesAreOrdered | projects/pwnie-island-research/external_tool.cpp:661-677 | For all singles: increased if and only if both are finite and the new one comes later in their order, decreased if and only if it comes earlier; the order is that of the bits, reversed below zero, with both zeros alike. |
| ScanFilters.FiniteIff | projects/pwnie-island-research/external_tool.cpp:668-671 | A single is finite if and only if its bits below the sign are below those of infinity. |
| ScanFilters.MagnitudeIsStrict | projects/pwnie-island-research/external_tool.cpp:661-676 | The exact values of finite singles are ordered as their bits below the sign. |
| CppString.CppString | projects/cs2-stage3-esp-radar/scripts/generate_fixed_map_catalog.py:318-346 | For every byte string: the literals written are printable ASCII and a compiler reads them back as these bytes, with escapes taking as many digits as they can and adjacent literals concatenated. |
| CppString.Flush | projects/cs2-stage3-esp-radar/scripts/generate_fixed_map_catalog.py:324-327 | Closing the current literal, if there is anything in it, makes the segments read as all bytes so far. |
| CppString.EscapedBody | projects/cs2-stage3-esp-radar/scripts/generate_fixed_map_catalog.py:343-344 | A two-digit escape in a literal of its own is read as its byte, whatever follows the literal. |
| CppString.EscapeRunsOn | projects/cs2-stage3-esp-radar/scripts/generate_fixed_map_catalog.py:342-344 | Why it needs one: a hexadecimal digit after it in the same literal would be taken too and the value would no longer fit. |
| JsonWriter.JsonEscape | projects/cs2-dumper-cpp-standalone/src/output.cpp:63-83 | The loop writes the escape of every byte, in order. |
| JsonWriter.EscapedReads | projects/cs2-dumper-cpp-standalone/src/output.cpp:63-83 | What is written reads back, under section 7 of RFC 8259, as the bytes, whatever follows. |
| JsonWriter.Q | projects/cs2-dumper-cpp-standalone/src/output.cpp:85 | The quoted string reads back as the bytes, whatever follows. |
| JsonWriter.ValuesJson | projects/cs2-dumper-cpp-standalone/src/output.cpp:184-192 | The inner object reads back as its entries, whatever may follow an object. |
| JsonWriter.NestedJson | projects/cs2-dumper-cpp-standalone/src/output.cpp:177-197 | Reading the text under RFC 8259 yields one object, whose members give the nested map back, entry by entry and in order. |
| JsonWriter.ModulesComeBack | projects/cs2-dumper-cpp-standalone/src/output.cpp:189 | The numerals in it have the values they were written from. |
| Histogram.DurationHistogram.Record | projects/cs2-stage3-esp-radar/external-cheat-base/src/core/performance_metrics.hpp:25-52 | A duration, clamped at zero, is added to what has been recorded, and every counter stays exact until it wraps. |
| Histogram.DurationHistogram.Reset | projects/cs2-stage3-esp-radar/external-cheat-base/src/core/performance_metrics.hpp:83-91 | Nothing is recorded any more. |
| Histogram.BucketIndex | projects/cs2-stage3-esp-radar/external-cheat-base/src/core/performance_metrics.hpp:102-113 | The loop finds the bucket with the least bound that is not below. |
| Histogram.DurationHistogram.Percentile | projects/cs2-stage3-esp-radar/external-cheat-base/src/core/performance_metrics.hpp:115-139 | As long as the product does not wrap, the value is the one reported for the rank; the final `return 0.0` is reached exactly if the rank exceeds the number of samples. |
| Histogram.RankIsInRange | projects/cs2-stage3-esp-radar/external-cheat-base/src/core/performance_metrics.hpp:119-120 | For a percentage from 1 to 100 the rank is between 1 and the number of samples, so that return is unreachable. |
| Histogram.RankIsNearest | projects/cs2-stage3-esp-radar/external-cheat-base/src/core/performance_metrics.hpp:119-120 | The rank is the least whose share of the samples is not below the percentage. |
| Histogram.RankExists | projects/cs2-stage3-esp-radar/external-cheat-base/src/core/performance_metrics.hpp:119-127 | Every rank has its nearest-rank order statistic. |
| Histogram.RankIsUnique | projects/cs2-stage3-esp-radar/external-cheat-base/src/core/performance_metrics.hpp:119-127 | And only one. |
| Histogram.Bracket | projects/cs2-stage3-esp-radar/external-cheat-base/src/core/performance_metrics.hpp:119-137 | The reported value is not below the order statistic, and the bound of the previous bucket is strictly below it; the last bucket reports the maximum. |
| Histogram.PercentilesGrow | projects/cs2-stage3-esp-radar/external-cheat-base/src/core/performance_metrics.hpp:115-139 | A higher percentage never reports less. |
| Histogram.DurationHistogram.TakeSnapshot | projects/cs2-stage3-esp-radar/external-cheat-base/src/core/performance_metrics.hpp:54-81 | All fields of the snapshot are those of what was recorded. |
| Histogram.SnapshotIsExact | projects/cs2-stage3-esp-radar/external-cheat-base/src/core/performance_metrics.hpp:54-81 | Each of the three percentiles is, in milliseconds, the upper end of the bucket that holds the nearest-rank order statistic for 50, 95 and 99 per cent, and not below it. |
| Histogram.SnapshotIsOrdered | projects/cs2-stage3-esp-radar/external-cheat-base/src/core/performance_metrics.hpp:62-70 | A higher percentile of a snapshot is never below a lower one. |

## Left out

- HTTP routing, cookies, headers, origin checks, static files, TLS, configuration, logging and
  the metrics other than the drop counter: plumbing around the state modelled.
- Websocket framing, compression, deadlines and close codes; SHA-256, constant-time comparison
  and entropy.
- Go's JSON decoder and `validateSnapshot`: a library that is not part of this model, and
  checks of one branch each.
- `ipLimiter` under its mutex is one step per call; the resolver of client addresses is left out.
- A writer's choice among its ready cases, its ping and its expiry timer appear only as steps
  that may happen at any time; a frame received after its time to live counts as received.
- The janitor may prune in the model after shutdown has stopped it: more runs than the code has.
- IEEE rounding: rates, tokens, coordinates and milliseconds are reals. The comparisons of the
  memory scan are exact.
- Weak memory: the relaxed atomics of the histogram are modelled by one thread, and the retry
  of its compare-exchange by a test.
- Histogram.DurationHistogram.Percentile: holds while samples x percentile + 99 fits 64 bits,
  because beyond that the product wraps and the rank is meaningless.
- IpLimiter.ForgettingIsHarmlessIff: for a positive rate, a burst of at least 1 and `maxEntries`
  of at least 2, because the configuration refuses less
  (`projects/cs2-stage3-esp-radar/radar-relay/internal/config/config.go:160-168`).
- Malformed texts that no writer here emits are rejected by the readers more often than the
  standards require: octal escapes and universal character names in C++, surrogates in JSON.
- The parser's character classes are those of the C locale.
- Lowest and highest scanned address, `relative_base_`, `Show` and `ShowRange`: display only.
- A memory read that fails or is short inside a readable region, and an address above 32 bits,
  cannot occur in the fixed 32-bit map; the branches for them are kept but do nothing.
- PeImage.PeFile.constructor: base and export fields of a file that turns out invalid late are
  not modelled, because nothing uses them.
- `PeImage::export_rva`, `analysis.cpp` and the other output formats: reads of foreign memory
  that recover from anything, and string building without a reader.
- DLL injection, hooks, byte patches and movement features: effects on a foreign process.
- The waiting time of a controller and the freshness of ticks: a controller may give up at any
  time after it has published.
- Rendering, menus, generated offset tables and the web client.
