# zvonok: verified models of the conferencing core

Dafny models of the hand-written state machines, promise-chain schedulers and arithmetic loops of the
zvonok video-conferencing platform, with proofs of what they promise over every run.

Most components come as a pair. An abstract machine (`...Model`, `PromiseChains`, `EgressPorts`) has a
datatype state, an event type and a `Step` function; its theorems quantify over every possible sequence
of events, so every interleaving of awaits, timers and late settlements is covered. A class with the
source's own fields then proves, method by method, that it makes exactly the abstract step. `Possible`
says what the environment guarantees and nothing more.

| file | models |
|---|---|
| PresenceModel, PresenceTheorems, RosterTheorems | room presence over whole runs: coherence, webhooks, kicks, locks, client rosters |
| DeadMembers | members whose socket dropped before they were admitted |
| PresenceEffects | every operation of room presence, field by field |
| PresenceIndexes, RoomPresence | the presence service with its maps and reverse indexes, refining the machine |
| SeatKeyText, OneShotHandlers | text keys of grace seats; the one-shot handler maps of the service |
| ParticipantRegistry | the client's registry, whose key set is the roster of the theorems |
| PeerQualityModel, PeerQualityEngine | the debounced cache of requested simulcast layers |
| Pagination | keyset pages over a list that may change between pages |
| PromiseChains, WebhookQueue, Concurrency | per-key promise chains with retries, serialized and shared runs |
| EgressPorts | UDP ports under overlapping pipeline rebuilds |
| RateBudget, SessionRecovery, PipelineRestarts | sliding-window budgets of rejoins and restarts |
| LineBuffer | the streaming line splitter |
| GridLayout | tile geometry over the reals |
| PublishModel, PublishSlots, Publish | produce calls, buffering, retention and replay; when a slot can be doubled |
| FilterGraph | input order and filter graph of an egress pipeline |
| OrderReconcile, ActiveSpeaker, MediaCaptureModel, MediaCapture | order reconciliation, speaker election, device capture |

## Assumptions

- A socket that is a member joins no other room, and a credential is for the room the join named. Roster
  agreement also needs at most one member socket per user and room; the exact role of that assumption is
  `RosterTheorems.AdmissionAgreementExact`, and what it means for clients that reconnect only after a drop
  is `DeadMembers.AgreementExactly`.
- A connection that dropped begins no further join (`DeadMembers` only).
- A closed send transport fails its pending produce handshakes; one that was superseded without being
  closed does not. Screen shares carry video tracks; `PublishSlots` drops that and says what happens
  otherwise.
- Room ids are the database's cuids (`apps/server/prisma/schema.prisma:52`) and hold no colon; only the
  reading of seat keys as pairs needs it.
- The clock of the budgets and of the speaker detector does not go back.
- The database filters, sorts and takes correctly; a cursor decodes to what was encoded.

## Where the code and its documentation differ

The models follow the code.

- Restoring the seat of a room's sole occupant emits room.started again, although the comment at
  `room-presence.service.ts:149-150` says it must not (`PresenceTheorems.RestoreReopens`).
- `endRoom` on a room that only grace seats keep alive leaves it tracked and empty, with owner and slugs,
  and ends those seats without participant.left (`PresenceTheorems.EndVacancy`, the `silent` count in
  `PresenceTheorems.WebhooksConserved`).
- A newcomer is told of the members, not of seat holders, and a restored seat is not announced
  (`RosterTheorems.NoGhosts` says who can be missing).
- A lock does not stop a join that already waits for its credential
  (`PresenceTheorems.LockIgnoredAtCommit`; exactly when it keeps everyone out in
  `PresenceTheorems.LockShutsExactly`).
- A socket that disconnects while its join waits for the credential is admitted all the same
  (`room-presence.service.ts:112-168` does not look at it again, and `holdSeat` at 231-236 found no record
  to remove), so a client that reconnects only after a drop can have two member records, and a kick can
  remove the dead one (`DeadMembers.DeadMemberDoubles`, `DeadMembers.KickHitsDeadMember`; exactly when in
  `DeadMembers.DeadMembersExactly` and `DeadMembers.AgreementExactly`).
- A second `sfu:join` on a member socket replaces its record and emits participant.joined again without a
  participant.left (the `replaced` count in `PresenceTheorems.WebhooksConserved`).
- A new send transport takes the place of one that is not closed (`manager.ts:461-462`). By itself that is
  harmless to the slots; a later close over an open handshake of the older one is not
  (`PublishModel.ClosedSafeExactly`).
- A failed `openTap` keeps its port reserved for good (`EgressPorts.LostForGood`).
- A session ended while one of its pipelines awaits `openTap` keeps that tap's port for good, without any
  failure: the resumed pipeline does not look at the status (`EgressPorts.ClosedWhileOpening`; exactly when
  in `EgressPorts.EndedSessionExactly` and `EgressPorts.QuiescentExactly`).
- An audio track given to `produceScreen` can leave two audio producers: the sharing key is the screen's, the
  producer is filed as audio (`PublishModel.AudioScreenShareDoubles`; exactly when in `PublishSlots`).
- A socket that joins a second room stays in the first room's set (`PresenceIndexes.RejoinExactly`).
- A produce handshake under way at a signalling drop is not retained
  (`PublishModel.DropRetainsExactly`).
- A capture can start again after `stop`, when a request for a remembered device fails late
  (`MediaCaptureModel.StopHoldsExactly`).
- A CRLF cut by a chunk boundary is two separators (`LineBuffer.ChunkingExact`).
- `reconcileOrder` makes the shared order exactly the local scene's, so ids the local scene does not
  have are dropped (`OrderReconcile.Binding.ReconcileOrder`).

## Model

| member | source | states |
|---|---|---|
| `PresenceTheorems.AlwaysCoherent` | apps/server/src/sfu/room-presence.service.ts:130-164 | in every reachable state each seat, lock, kick, owner and slug belongs to a tracked room, so an untracked room leaves nothing to its next lifetime |
| `PresenceTheorems.StepCoherent` | apps/server/src/sfu/room-presence.service.ts:101-583 | every operation keeps that coherence, whatever it interleaves with |
| `PresenceTheorems.AdmitFacts` | apps/server/src/sfu/room-presence.service.ts:132-153 | an admission emits room.started exactly when the room has no member and no seat but the joiner's own; participant.joined exactly when no seat is restored |
| `PresenceTheorems.RestoreReopens` | apps/server/src/sfu/room-presence.service.ts:149-153 | a restore emits room.started again exactly for the room's sole occupant, against the comment in the code |
| `PresenceTheorems.WebhooksConserved` | apps/server/src/sfu/room-presence.service.ts:203-214 | over every run, participant.joined minus participant.left of a user in a room is its member sockets plus its seat, plus the seats that ended silently and the records a repeated join overwrote |
| `PresenceTheorems.StepBalanced` | apps/server/src/sfu/room-presence.service.ts:484-566 | each operation keeps that balance |
| `PresenceTheorems.EndVacancy` | apps/server/src/sfu/room-presence.service.ts:351-386 | ending a room that only seats keep alive leaves it tracked and empty with owner and slugs; with members the room is gone |
| `PresenceTheorems.VacancyExact` | apps/server/src/sfu/room-presence.service.ts:569-583 | no other operation ever leaves a tracked room without members and seats |
| `PresenceTheorems.KickTakesEffect` | apps/server/src/sfu/room-presence.service.ts:265-314 | a successful kick removes the target, keeps the requester, and so never ends the lifetime it lasts for |
| `PresenceTheorems.KickLasts` | apps/server/src/sfu/room-presence.service.ts:112-137 | until the lifetime ends, no join already waiting for its credential commits for a kicked user and none of its seats comes back |
| `PresenceTheorems.KickIsTerminal` | apps/server/src/sfu/room-presence.service.ts:119-128 | the kicked user is absent as member and as seat holder in every later state of the lifetime if and only if the target was its only member socket and it held no seat |
| `PresenceTheorems.OutForGoodExactly` | apps/server/src/sfu/room-presence.service.ts:112-137 | a user once kicked stays out for good exactly when it has no member socket and no seat left |
| `PresenceTheorems.LockBoundsAdmissions` | apps/server/src/sfu/room-presence.service.ts:105-117 | while a room stays locked only joins past the lock check when the lock fell can become members |
| `PresenceTheorems.LockShutsExactly` | apps/server/src/sfu/room-presence.service.ts:105-140 | no socket becomes a member in any continuation that stays locked if and only if every socket waiting for the room is a member already |
| `PresenceTheorems.LockIgnoredAtCommit` | apps/server/src/sfu/room-presence.service.ts:111-140 | and the waiting ones do, locked or not: the record of the socket is stored exactly unless its user is kicked |
| `PresenceEffects.EndExactly` | apps/server/src/sfu/room-presence.service.ts:351-386 | ending a room takes exactly its members, seats, lock and kicks and no other room's, reports each departure and then the end, tells every member first; owner and slugs go with the last member and stay if there was none |
| `PresenceEffects.EndReopens` | apps/server/src/sfu/room-presence.service.ts:101-140 | a join that begins straight after the end is neither refused for a lock nor, with its credential, for a kick, whatever the room was before |
| `PresenceEffects.KickExactly` | apps/server/src/sfu/room-presence.service.ts:265-314 | each refusal, in order, has its condition and changes nothing; a kick removes the target, marks its user for the room, tells the target and the rest, and reports the departure |
| `PresenceEffects.LockExactly` | apps/server/src/sfu/room-presence.service.ts:316-349 | each refusal has its condition and changes nothing; otherwise the room is locked or unlocked as asked, and the members are told exactly on a change |
| `PresenceEffects.AdmissionExactly` | apps/server/src/sfu/room-presence.service.ts:130-213 | every field after an admission: record, seat, owner, slugs; the others hear of the newcomer unless a seat is restored, the newcomer of the others |
| `PresenceEffects.RefusalExactly` | apps/server/src/sfu/room-presence.service.ts:112-128 | without a credential, or kicked, a join leaves the service as it was |
| `PresenceEffects.BeginExactly` | apps/server/src/sfu/room-presence.service.ts:101-117 | a join is refused exactly for a locked room |
| `PresenceEffects.LeaveExactly` | apps/server/src/sfu/room-presence.service.ts:484-516 | a departure removes the socket, tells the rest of its room and no one else, reports it with its reason; the last one takes every trace of the room with it, any other leaves the rooms alone |
| `PresenceEffects.ExpiryExactly` | apps/server/src/sfu/room-presence.service.ts:542-566 | a lapsed seat is a departure by disconnect, with the same consequences |
| `PresenceEffects.DropExactly` | apps/server/src/sfu/room-presence.service.ts:231-263 | a dropped socket becomes a seat and nobody is told |
| `PresenceEffects.CleanupExactly` | apps/server/src/sfu/room-presence.service.ts:569-583 | the cleanup forgets a room without members and seats everywhere and touches nothing otherwise |
| `RosterTheorems.RosterAgreement` | apps/server/src/sfu/room-presence.service.ts:170-198 | in every run without a second member socket of one user, each client's roster plus the seat holders it was not told of is exactly the room without its own user |
| `RosterTheorems.AdmissionAgreementExact` | apps/server/src/sfu/room-presence.service.ts:168-198 | from an agreeing state, all rosters agree after an admission if and only if the joiner's user has no member socket in the room |
| `DeadMembers.DeadMembersExactly` | apps/server/src/sfu/room-presence.service.ts:112-168 | over all runs in which a dropped socket begins no join, a member's socket is gone if and only if it dropped while a join of it waited and that join was admitted since |
| `DeadMembers.StepTraced` | apps/server/src/sfu/sfu.gateway.ts:72-84 | every operation keeps that record exact; a drop during the wait finds no member to remove |
| `DeadMembers.SecondSocketExactly` | apps/server/src/sfu/room-presence.service.ts:112-140 | for a client that reconnects only after a drop, an admission finds a member socket of its user exactly through such a dead member |
| `DeadMembers.AgreementExactly` | apps/server/src/sfu/room-presence.service.ts:168-198 | for such clients all rosters agree throughout a run if and only if no dead member stands beside another member socket of its user |
| `DeadMembers.StepAgreesExactly` | apps/server/src/sfu/room-presence.service.ts:168-198 | an operation breaks the agreement exactly when it admits a user that has a member socket |
| `DeadMembers.PromptUndisturbed` | apps/server/src/sfu/room-presence.service.ts:112-140 | when no join is admitted after its socket dropped, every member is connected and nothing disturbs the agreement |
| `DeadMembers.DeadMemberDoubles` | apps/server/src/sfu/room-presence.service.ts:231-236 | the run: a drop during the credential wait, the admission, a reconnect; two member records of one user that never had two connections |
| `DeadMembers.KickHitsDeadMember` | apps/server/src/sfu/room-presence.service.ts:292-314 | continued by a kick whose lookup finds the dead record, the connected user stays in the room |
| `RosterTheorems.StepAgrees` | apps/server/src/sfu/room-presence.service.ts:484-566 | every operation keeps roster agreement |
| `RosterTheorems.NoGhosts` | apps/server/src/sfu/room-presence.service.ts:184-198 | no client shows a user who is not present; a member it misses held a seat when it joined and has not left since |
| `RosterTheorems.EndAgrees` | apps/server/src/sfu/room-presence.service.ts:375-382 | teardown of a room member by member leaves every other room's rosters in agreement |
| `ParticipantRegistry.Registry.Upsert` | packages/client/src/sfu/participant-registry.ts:34-55 | a new user starts without media, a known one takes a non-empty name, is marked live and keeps the rest; nobody else changes |
| `ParticipantRegistry.Registry.MarkMediaDetached` | packages/client/src/sfu/participant-registry.ts:76-83 | a detach is reported exactly when media was not already detached |
| `ParticipantRegistry.Registry.Remove` | packages/client/src/sfu/participant-registry.ts:86-92 | removes that user only and returns its record |
| `ParticipantRegistry.Registry.Handle` | packages/client/src/sfu/participant-registry.ts:34-120 | after a message exactly the users it adds and those shown before are shown, without the one it says has left, and nobody after a kick or the end of the room; these are the roster of the theorems |
| `ParticipantRegistry.Registry.Replay` | packages/client/src/sfu/participant-registry.ts:26-121 | after any message sequence the registry shows exactly the roster the presence theorems speak of |
| `RoomPresence.RoomPresenceService.BeginJoin` | apps/server/src/sfu/room-presence.service.ts:101-117 | a locked room refuses the join; otherwise it is suspended on its credential |
| `RoomPresence.RoomPresenceService.CommitJoin` | apps/server/src/sfu/room-presence.service.ts:112-225 | the ten maps after an admission are those of the abstract admission, indexes exact, also when the socket was a member of the room already |
| `RoomPresence.RoomPresenceService.Leave` | apps/server/src/sfu/room-presence.service.ts:227-229 | departure, announcement, webhook and cleanup equal the abstract departure |
| `RoomPresence.RoomPresenceService.HoldSeat` | apps/server/src/sfu/room-presence.service.ts:231-263 | a dropped socket keeps exactly one seat and one armed timer; a replaced seat ends silently |
| `RoomPresence.RoomPresenceService.TimerFires` | apps/server/src/sfu/room-presence.service.ts:243-245 | a grace timer that fires runs the expiry of the seat it was armed for |
| `RoomPresence.RoomPresenceService.ExpireHeldSeat` | apps/server/src/sfu/room-presence.service.ts:542-566 | a lapsed seat is announced, reported and cleaned up; the untracked-room branch cannot run |
| `RoomPresence.RoomPresenceService.SeatRoomTracked` | apps/server/src/sfu/room-presence.service.ts:550-554 | the room of a held seat is always tracked, so the guard at line 552 is never taken |
| `RoomPresence.RoomPresenceService.Kick` | apps/server/src/sfu/room-presence.service.ts:265-314 | acknowledgement codes and effect of a kick for every requester and target |
| `RoomPresence.RoomPresenceService.LockRoom` | apps/server/src/sfu/room-presence.service.ts:316-349 | lock and unlock are idempotent, announced once, and only with the capability |
| `RoomPresence.RoomPresenceService.EndRoom` | apps/server/src/sfu/room-presence.service.ts:351-386 | members, seats, lock and kicks of the room are gone and no other; the departures in member order and then the end are reported |
| `RoomPresence.RoomPresenceService.LapseSeats` | apps/server/src/sfu/room-presence.service.ts:352-363 | the new lock, kick and seat sets and the silent ends, field by field, the indexes exact |
| `RoomPresence.RoomPresenceService.CleanupRoomIfEmpty` | apps/server/src/sfu/room-presence.service.ts:569-583 | a room without members and seats loses every trace in all maps, any other room none |
| `RoomPresence.RoomPresenceService.IndexesFaithful` | apps/server/src/sfu/room-presence.service.ts:428-430 | the per-room socket list and seat index are exactly the members and seats of the room |
| `RoomPresence.RoomPresenceService.BroadcastToRoom` | apps/server/src/sfu/room-presence.service.ts:432-453 | every member but the excluded one receives the message exactly once |
| `RoomPresence.RoomPresenceService.FindPeer` | apps/server/src/sfu/room-presence.service.ts:292-295 | the target lookup finds a member of the room with the user id, if there is one |
| `RoomPresence.RoomPresenceService.HasPeerInSlug` | apps/server/src/sfu/room-presence.service.ts:401-407 | true exactly when the slug's room has a member socket of the user |
| `RoomPresence.RoomPresenceService.OwnerSocketId` | apps/server/src/sfu/room-presence.service.ts:409-419 | a returned socket belongs to the owner in the slug's room; none is returned only if there is none |
| `PresenceIndexes.RejoinExactly` | apps/server/src/sfu/room-presence.service.ts:139-152 | a join keeps the room index exact if and only if its socket was in no other room |
| `PresenceIndexes.SeatReleased` | apps/server/src/sfu/room-presence.service.ts:598-603 | releasing a seat keeps seats and per-room index exact inverses without an empty bucket |
| `PresenceIndexes.SeatTaken` | apps/server/src/sfu/room-presence.service.ts:589-596 | taking a seat keeps them so, and the timer queue exact |
| `PresenceIndexes.SlugsForgotten` | apps/server/src/sfu/room-presence.service.ts:579-582 | forgetting a room's slugs keeps the slug map inside the inverse of the room map |
| `SeatKeyText.KeyTextInjective` | apps/server/src/sfu/room-presence.service.ts:132-138 | two seats share a text key only if they are the same seat, provided room ids hold no colon |
| `SeatKeyText.CollideExactly` | apps/server/src/sfu/room-presence.service.ts:238-239 | two different rooms have seats sharing a text key if and only if one room id is the other followed by a colon and more |
| `OneShotHandlers.FiredOnce` | apps/server/src/sfu/room-presence.service.ts:621-631 | over every run, whatever handlers do while being called, none is called twice for one registration set and each still in the set is called before the notification ends |
| `OneShotHandlers.NotifyExactly` | apps/server/src/sfu/room-presence.service.ts:523-531 | the entry is gone before the first call, exactly its handlers may be called, and a second notification without a new registration calls nobody |
| `OneShotHandlers.CallExactly` | apps/server/src/sfu/room-presence.service.ts:523-531 | an iteration under way calls exactly the handlers still in its set and not yet called, none that has been unsubscribed |
| `OneShotHandlers.StepExactly` | apps/server/src/sfu/room-presence.service.ts:459-482 | what is in each set, which set a subject has and what is remembered change only through registration, unsubscription, notification and calls, in the stated way |
| `OneShotHandlers.StaleUnsubscribe` | apps/server/src/sfu/room-presence.service.ts:459-482 | an unsubscribe kept from a fired set never removes a newer registration |
| `OneShotHandlers.HandlerMap.On` | apps/server/src/sfu/room-presence.service.ts:471-481 | registration on demand; the returned set is the one the unsubscribe closure keeps |
| `OneShotHandlers.HandlerMap.Notify` | apps/server/src/sfu/room-presence.service.ts:621-631 | the entry is forgotten, then the loop calls handler after handler, each unsubscribing and registering as it likes, until all that are left in the set have been called |
| `PeerQualityModel.CacheAlwaysAgrees` | packages/react/src/core/peer-quality-engine.ts:257-338 | in every run each reported user was last requested at layer 2 for an excellent or good score, 1 for a fair one, 0 for a poor one or when hidden or the page is suspended, or has a timer armed, or is excused; the cache equals the last request; no layer is requested twice in a row |
| `PeerQualityModel.StepSound` | packages/react/src/core/peer-quality-engine.ts:120-249 | every event keeps that |
| `PeerQualityModel.ScheduleAgrees` | packages/react/src/core/peer-quality-engine.ts:257-308 | rescheduling brings the rescheduled users into agreement and disturbs nobody else |
| `PeerQualityModel.FireRequests` | packages/react/src/core/peer-quality-engine.ts:284-305 | a fire requests exactly with a consumer and a differing cache, the layer the score, visibility and page ask for at that moment; without a consumer the cache forgets |
| `PeerQualityModel.DrainAgrees` | packages/react/src/core/peer-quality-engine.ts:284-305 | firing all pending timers with consumers and without new input brings every reported user not excused to the layer its score, visibility and the page ask for |
| `PeerQualityModel.InputsTracked` | packages/react/src/core/peer-quality-engine.ts:120-249 | over every run, score, visibility, suspension and binding are what the engine was last told since the manager was bound, and only a missing consumer or a departure excuses |
| `PeerQualityModel.StepInputs` | packages/react/src/core/peer-quality-engine.ts:120-249 | each event changes the inputs it is about and no others |
| `PeerQualityModel.CurrentExactly` | packages/react/src/core/peer-quality-engine.ts:267-275 | a user needs no timer exactly when its last request is the layer its score, visibility and the page ask for |
| `PeerQualityEngine.PeerQualityEngine.OnQualityStats` | packages/react/src/core/peer-quality-engine.ts:190-199 | a stats report through the timer handles equals the abstract report |
| `PeerQualityEngine.PeerQualityEngine.ScheduleLayerSwitch` | packages/react/src/core/peer-quality-engine.ts:257-308 | an armed timer is replaced, never doubled |
| `PeerQualityEngine.PeerQualityEngine.SetVisibility` | packages/react/src/core/peer-quality-engine.ts:73-85 | an unchanged visibility changes nothing; a flip reschedules that user only |
| `PeerQualityEngine.PeerQualityEngine.SetSuspended` | packages/react/src/core/peer-quality-engine.ts:103-111 | a page flip reschedules every known peer |
| `PeerQualityEngine.PeerQualityEngine.ClearMissingUserState` | packages/react/src/core/peer-quality-engine.ts:319-330 | exactly the users absent from the report lose timer and cache |
| `PeerQualityEngine.PeerQualityEngine.TimerFires` | packages/react/src/core/peer-quality-engine.ts:284-305 | the request sent is the one the abstract fire records |
| `PeerQualityEngine.PeerQualityEngine.Bind` | packages/react/src/core/peer-quality-engine.ts:178-234 | re-binding starts from a clean state |
| `PeerQualityEngine.PeerQualityEngine.DisarmTimer` | packages/react/src/core/peer-quality-engine.ts:310-315 | exactly that user's timer is cancelled |
| `PeerQualityEngine.PeerQualityEngine.Reset` | packages/react/src/core/peer-quality-engine.ts:148-158 | the inputs return to their defaults |
| `PeerQualityEngine.PeerQualityEngine.Unbind` | packages/react/src/core/peer-quality-engine.ts:237-249 | no timer and no cache survives |
| `Pagination.WalkRefinesList` | apps/server/src/platform/pagination.helper.ts:92-127 | following next concatenates to the whole list in order, in ceil(n/limit) pages (one when empty), all but the last full |
| `Pagination.NothingRepeatedOrMissed` | apps/server/src/platform/pagination.helper.ts:65-80 | under arbitrary inserts and deletes between pages no row is returned twice, however far the walk got, and a complete walk returned every row present throughout |
| `Pagination.MatchingIsAfter` | apps/server/src/platform/pagination.helper.ts:70-80 | the where clause selects exactly the rows strictly after the cursor in the sort order |
| `Pagination.MatchingSuffix` | apps/server/src/platform/pagination.helper.ts:70-80 | after the k-th matching row come exactly the matching rows behind it |
| `Pagination.PageFacts` | apps/server/src/platform/pagination.helper.ts:115-126 | next is null exactly when no row remains, else it points at the page's last row |
| `Pagination.RefusedExactly` | apps/server/src/platform/pagination.helper.ts:95-107 | refused exactly for a limit that is not an integer from 1 to 100 or, then, a cursor that does not decode |
| `Pagination.PaginateExactly` | apps/server/src/platform/pagination.helper.ts:92-127 | a served page holds the first n of the rows strictly after the cursor, n being the limit asked for or fifty; next is null exactly if no more follow, else the page's last row |
| `Pagination.RequestsRefineList` | apps/server/src/platform/pagination.helper.ts:92-127 | requesting page after page of an unchanging list returns it whole and in order, in ceil(n/limit) pages, all but the last of the limit asked for |
| `Pagination.RequestsNeverRepeatOrMiss` | apps/server/src/platform/pagination.helper.ts:65-127 | requesting page after page of a changing list repeats no row and, once next is null, has returned every row present throughout |
| `Pagination.WalkRequested` | apps/server/src/platform/pagination.helper.ts:92-127 | following next from any cursor comes to an end |
| `Pagination.WalkSorted` | apps/server/src/platform/pagination.helper.ts:109-126 | the rows of a walk over changing tables, finished or not, are strictly ordered as a whole |
| `Pagination.WalkCovers` | apps/server/src/platform/pagination.helper.ts:65-80 | a row present in every table read is on some page, or beyond where an unfinished walk would go on |
| `PromiseChains.ChainsSafe` | apps/server/src/webhooks/webhook-queue.ts:30-65 | for any interleaving, jobs of one key run one after another in enqueue order, each contributing one block of attempts ending at the first success, a throw or the last allowed attempt |
| `PromiseChains.NoOverlap` | packages/client/src/helpers/concurrency.ts:16-32 | two runs with one tag are never in flight together |
| `PromiseChains.CleanUpSound` | apps/server/src/webhooks/webhook-queue.ts:40-45 | a settlement deletes a map entry only if it is its own and everything of the key has settled |
| `PromiseChains.StepBlocks` | apps/server/src/webhooks/webhook-queue.ts:48-65 | each event keeps the attempt blocks complete |
| `PromiseChains.StepLog` | apps/server/src/webhooks/webhook-queue.ts:30-46 | each event keeps attempts of one key in enqueue order |
| `PromiseChains.EnqueueExactly` | apps/server/src/webhooks/webhook-queue.ts:30-46 | a job is chained to the newest of its key, which it replaces; no other key or job is concerned |
| `PromiseChains.AdvanceExactly` | apps/server/src/webhooks/webhook-queue.ts:40-65 | starts, attempts and clean-ups concern their own job: the last attempt is the first that does not fail or the last allowed, the entry deleted is the job's own |
| `PromiseChains.Progress` | apps/server/src/webhooks/webhook-queue.ts:34-35 | no key is ever stuck: some job of it can always move |
| `WebhookQueue.WebhookQueue.EnqueueDelivery` | apps/server/src/webhooks/webhook-queue.ts:30-46 | chained behind the project's tail, and the tail from now on |
| `WebhookQueue.WebhookQueue.AttemptSettled` | apps/server/src/webhooks/webhook-queue.ts:52-58 | retried, after the delay of its position, exactly on a failure with retries left |
| `WebhookQueue.WebhookQueue.TailSettled` | apps/server/src/webhooks/webhook-queue.ts:41-45 | the clean-up equals the abstract one |
| `WebhookQueue.WebhookQueue.RunWithRetries` | apps/server/src/webhooks/webhook-queue.ts:48-65 | the retry loop makes one to six attempts and stops at the first that is not a failure |
| `WebhookQueue.BlockUnique` | apps/server/src/webhooks/webhook-queue.ts:48-65 | the loop and the chain agree: the outcomes of a delivery are determined by how each attempt would end |
| `Concurrency.SerializedRuns.WithoutConcurrency` | packages/client/src/helpers/concurrency.ts:16-32 | started at once exactly if nothing is stored under the tag, and then every earlier run with it has settled |
| `Concurrency.SerializedRuns.ForgetIfLast` | packages/client/src/helpers/concurrency.ts:24-30 | the clean-up equals the abstract one |
| `Concurrency.SharedRuns.SingleFlight` | packages/client/src/helpers/concurrency.ts:39-58 | a call gets the run stored under its tag, if any, else a new one |
| `Concurrency.SingleFlightSafe` | packages/client/src/helpers/concurrency.ts:39-58 | at most one run per tag is in flight, apart from runs whose entry was cleared from outside, and a late settlement never forgets a newer run |
| `Concurrency.FlightStepShared` | packages/client/src/helpers/concurrency.ts:44-57 | every call, settlement, clean-up and clear keeps the map exact |
| `Concurrency.FlightExactly` | packages/client/src/helpers/concurrency.ts:39-58 | a call gets the run stored under its tag or a new one; settlements, clean-ups and clears change their own run or entry and nothing else |
| `Concurrency.FreshAfterSettled` | packages/client/src/helpers/concurrency.ts:50-58 | once a run has settled and cleaned up, the next call with its tag starts afresh |
| `EgressPorts.PortsExclusive` | apps/server/src/egress/egress.service.ts:306-336 | in every run over all sessions a port has at most one use, each port used is in range and reserved, and a reserved port without use was lost by a failed openTap |
| `EgressPorts.CloseFreesOwn` | apps/server/src/egress/egress.service.ts:538-555 | closing a runtime frees that session's tap ports and no other |
| `EgressPorts.LowestFreeExact` | apps/server/src/egress/egress.service.ts:649-661 | allocation picks the lowest free port and is refused exactly when the whole range is reserved |
| `EgressPorts.TapsAccounted` | apps/server/src/egress/egress.service.ts:306-343 | over every run, while a pipeline is alive the taps it opened, the one it is opening and those to come make up the taps it was started with |
| `EgressPorts.LoopHeadExactly` | apps/server/src/egress/egress.service.ts:314-343 | between two taps a pipeline goes on to the lowest free port, and ends there if and only if it opened every tap it was started with or every port is reserved |
| `EgressPorts.StartExactly` | apps/server/src/egress/egress.service.ts:306-322 | a start empties the session's tap list and goes on to its first tap unless it has none or every port is reserved for others |
| `EgressPorts.NextTapExactly` | apps/server/src/egress/egress.service.ts:314-322 | one turn of the loop: which port, whose, and what stays |
| `EgressPorts.LostForGood` | apps/server/src/egress/egress.service.ts:315-326 | the ports lost are as many as the openTap failures, and no later event gives one back |
| `EgressPorts.QuiescentExactly` | apps/server/src/egress/egress.service.ts:306-336 | with no pipeline left, all ports are back if and only if no openTap failed and every session was last closed with no pipeline in openTap, then or since |
| `EgressPorts.EndedSessionExactly` | apps/server/src/egress/egress.service.ts:453-463 | a session closed for the last time ends up without a tap in every continuation if and only if at that close none of its pipelines was in openTap or had a tap to come |
| `EgressPorts.ClosedWhileOpening` | apps/server/src/egress/egress.service.ts:318-326 | the run in which a session closed during openTap keeps its port although nothing failed and nothing runs |
| `EgressPorts.OccupiedExactly` | apps/server/src/egress/egress.service.ts:538-555 | over a run, a session occupies a port exactly if a pipeline of it was in openTap at its last close or since, failures aside |
| `EgressPorts.StepSound` | apps/server/src/egress/egress.service.ts:306-345 | every step of overlapping pipelines keeps ownership exclusive |
| `EgressPorts.EgressService.AllocatePort` | apps/server/src/egress/egress.service.ts:649-661 | the scan returns the lowest free port and reserves it |
| `EgressPorts.EgressService.CloseRuntime` | apps/server/src/egress/egress.service.ts:538-555 | tap ports released, other reservations kept |
| `EgressPorts.EgressService.StartPipeline` | apps/server/src/egress/egress.service.ts:306-322 | a rebuild first closes what the session had, then reserves its first port, with the other taps still to come |
| `EgressPorts.EgressService.TapOpened` | apps/server/src/egress/egress.service.ts:318-326 | the tap joins the list its session has when openTap resolves |
| `EgressPorts.EgressService.TapFailed` | apps/server/src/egress/egress.service.ts:315-322 | the port stays reserved |
| `PipelineRestarts.EgressSession.OnPipelineFailure` | apps/server/src/egress/egress.service.ts:413-432 | a failure restarts, into the next recording part, exactly when at most two earlier failures are in the window; granted restarts satisfy T[i+3]-T[i] >= 300000; without a restart, or when it cannot start, the session fails |
| `PipelineRestarts.RestartsSpaced` | apps/server/src/egress/egress.service.ts:418-425 | refused failures count too, so granted restarts are spaced |
| `RateBudget.RecentIsSuffix` | packages/client/src/sfu/session.ts:128 | on a monotone clock the pruned list is exactly the in-window suffix of the history |
| `RateBudget.RecentAgain` | apps/server/src/egress/egress.service.ts:418-420 | pruning a pruned list is pruning the history |
| `RateBudget.FullExactly` | packages/client/src/sfu/session.ts:129 | the window is full exactly when the time one budget back is still inside it |
| `RateBudget.SpacedAppend` | packages/client/src/sfu/session.ts:126-135 | admitting keeps the spacing if and only if the window was not full |
| `SessionRecovery.SfuSession.AllowRejoin` | packages/client/src/sfu/session.ts:126-135 | refused exactly when five rejoins lie within 30 seconds; the stored list is the in-window part of all rejoins |
| `SessionRecovery.SfuSession.HandleConnected` | packages/client/src/sfu/session.ts:101-123 | mid-session the last join is replayed within the budget, else recovery fails and the session is cleared |
| `SessionRecovery.SfuSession.HandleJoinError` | packages/client/src/sfu/session.ts:181-203 | a denied rejoin fails recovery exactly unless it is a kick or an expired token with a provider not yet asked |
| `SessionRecovery.SfuSession.ProviderSettled` | packages/client/src/sfu/session.ts:206-226 | a late token is used only while there is a join to repeat |
| `SessionRecovery.SfuSession.ClearSession` | packages/client/src/sfu/session.ts:244-251 | all recovery bookkeeping starts over |
| `LineBuffer.ChunkingIndependent` | apps/server/src/egress/ffmpeg/ffmpeg-process.ts:95-121 | for every chunking the non-empty lines are those of the whole text, and all lines are equal if and only if no boundary falls inside a CRLF |
| `LineBuffer.ChunkingExact` | apps/server/src/egress/ffmpeg/ffmpeg-process.ts:104-112 | one extra empty line per boundary inside a CRLF, same tail |
| `LineBuffer.NothingLost` | apps/server/src/egress/ffmpeg/ffmpeg-process.ts:104-112 | lines plus tail are exactly the non-separator characters in order |
| `LineBuffer.LinesClean` | apps/server/src/egress/ffmpeg/ffmpeg-process.ts:107-110 | no emitted line and no tail contains CR or LF |
| `LineBuffer.SplitAppend` | apps/server/src/egress/ffmpeg/ffmpeg-process.ts:104-112 | splitting in two instalments is splitting at once, up to a cut CRLF |
| `LineBuffer.LineBuffer.Push` | apps/server/src/egress/ffmpeg/ffmpeg-process.ts:104-112 | the loop emits and keeps what splitting the pending text gives |
| `LineBuffer.LineBuffer.Flush` | apps/server/src/egress/ffmpeg/ffmpeg-process.ts:115-120 | after the flush the emitted lines compare with the whole text as stated |
| `GridLayout.ComputeGridDimensions` | packages/video-layout/src/grid-layout.ts:3-39 | the first column count of largest coverage if any is positive, else one; rows cover the count with no empty row |
| `GridLayout.CoverageExactly` | packages/video-layout/src/grid-layout.ts:16-31 | what is maximised: the area spanned by the largest grid of so many columns that fits, relative to the container |
| `GridLayout.ComputeGridLayout` | packages/video-layout/src/grid-layout.ts:41-101 | tiles in row-major cells of the largest side that fits, or the minimum if larger; pairwise at least the gap apart, margins equal on both axes, and all inside the container if and only if the minimum-size clamp is inactive |
| `GridLayout.GridApart` | packages/video-layout/src/grid-layout.ts:87-98 | any two cells are separated by the gap on some axis |
| `GridLayout.GridCentred` | packages/video-layout/src/grid-layout.ts:80-83 | first and last row and column leave equal margins |
| `GridLayout.GridInside` | packages/video-layout/src/grid-layout.ts:80-98 | all cells are inside exactly when both spans fit |
| `GridLayout.SideFits` | packages/video-layout/src/grid-layout.ts:67-78 | both spans fit exactly for sides up to the fitting side |
| `GridLayout.ComputeSpotlightLayout` | packages/video-layout/src/grid-layout.ts:111-221 | strip side by aspect of the container; no tiles without participants |
| `GridLayout.RightStrip` | packages/video-layout/src/grid-layout.ts:137-185 | tiles as tall as stack and aspect allow, in line against the right edge, centred or from the top; apart from each other and the spotlight; inside exactly under the stated size bounds |
| `GridLayout.BottomStrip` | packages/video-layout/src/grid-layout.ts:144-201 | tiles as wide as row and strip allow, in line at the bottom, centred; of positive size exactly when the gaps leave room, then apart from each other and the spotlight, inside exactly when the strip fits the height |
| `PublishModel.OneProducerPerSlot` | packages/client/src/sfu/publish.ts:129-183 | in every run of well-sourced calls, with any number of send transports, at most one producer per slot and one handshake that can still add one, never both, provided nothing is closed over an open handshake of a superseded transport |
| `PublishModel.ClosedSafeExactly` | packages/client/src/sfu/manager.ts:461-462 | and that proviso is exact: after a close the slots stay single in every such continuation if and only if no handshake of a superseded transport was open |
| `PublishModel.SupersededDoubles` | packages/client/src/sfu/manager.ts:682-687 | the run that doubles a slot otherwise: close, new transport, same call, both handshakes succeed |
| `PublishModel.CallExactly` | packages/client/src/sfu/publish.ts:129-183 | a call is refused, buffered, answered with the first producer that serves it, joined to the handshake of its slot, or given a new one, each under exactly its condition |
| `PublishModel.FindsFirst` | packages/client/src/sfu/publish.ts:351-381 | the lookup returns the first producer of the kind that is no screen, or the first screen |
| `PublishModel.SharedExactly` | packages/client/src/sfu/publish.ts:163-230 | two calls share a handshake exactly if both are for the screen or neither is and their kinds agree; a producer serves the call it came from exactly unless that was an audio screen share |
| `PublishModel.EventExactly` | packages/client/src/sfu/publish.ts:180-239 | settlements concern their own handshake, forgetting only its own entry, a close everything but what is retained |
| `PublishModel.InFlightExactly` | packages/client/src/sfu/publish.ts:196-239 | an intent is under way exactly if an unsettled handshake of an open transport is for it |
| `PublishModel.AudioScreenShareDoubles` | packages/client/src/sfu/publish.ts:163-182 | an audio track published as a screen share does give one slot two producers |
| `PublishSlots.AudioShareExactly` | packages/client/src/sfu/publish.ts:125-183 | one call and its success leave one producer per slot if and only if the call is no audio screen share or the audio slot is free |
| `PublishSlots.AudioSharesTogetherExactly` | packages/client/src/sfu/publish.ts:163-182 | two calls open together leave one producer per slot, in either order of success, if and only if both are well sourced or the audio slot is free and only one is for it |
| `PublishSlots.SingleThroughoutExactly` | packages/client/src/sfu/publish.ts:129-183 | for any calls, each slot is held by at most one producer or open handshake throughout a run if and only if every call that starts a handshake finds its target slot unclaimed |
| `PublishSlots.SingleClaimsExactly` | packages/client/src/sfu/publish.ts:196-223 | and that holding is exactly what keeps one producer per slot however the open handshakes succeed |
| `PublishSlots.StepExactly` | packages/client/src/sfu/publish.ts:129-487 | each event keeps it exactly under that guard; only calls, flushes and replays need one |
| `PublishModel.SettledOnce` | packages/client/src/sfu/publish.ts:152-160 | each buffered call is still buffered or has one disposition that nothing changes |
| `PublishModel.QueueEmptied` | packages/client/src/sfu/publish.ts:247-258 | flush, drop and close each settle every buffered call, in their own way |
| `PublishModel.DropRetainsExactly` | packages/client/src/sfu/publish.ts:434-457 | whatever was retained before, a drop adds everything the user wants published if and only if no handshake was under way |
| `PublishModel.ReplayBuffers` | packages/client/src/sfu/publish.ts:459-466 | a replay before the transport exists buffers the live intents in order, up to eight |
| `PublishModel.FlushStarts` | packages/client/src/sfu/publish.ts:247-258 | a flush starts exactly one handshake per slot asked for, for the first intent of the slot |
| `PublishModel.ReconnectRoundTrip` | packages/client/src/sfu/publish.ts:434-466 | in any state, drop, rejoin replay and new transport start exactly one handshake per slot among what was retained, the live published tracks and the buffered calls, for the first of the first eight still live |
| `PublishModel.ReconnectRestores` | packages/client/src/sfu/publish.ts:434-466 | once those handshakes have succeeded, exactly those intents are published, in order |
| `PublishModel.ReconnectSame` | packages/client/src/sfu/publish.ts:434-466 | with no call buffered or retained before, they are exactly the live tracks published before the drop |
| `PublishModel.SurvivingAll` | packages/client/src/sfu/publish.ts:434-466 | with nothing retained before, the limit of eight loses no live track and no buffered call |
| `PublishModel.StartersCover` | packages/client/src/sfu/publish.ts:163-182 | every free slot asked for gets a handshake |
| `PublishModel.RemoveFirstExact` | packages/client/src/sfu/publish.ts:318-331 | closing a slot removes its producer and no other |
| `Publish.SfuPublish.GetProducerByKind` | packages/client/src/sfu/publish.ts:351-363 | the first producer of the kind that is not a screen share |
| `Publish.SfuPublish.GetScreenProducer` | packages/client/src/sfu/publish.ts:290-300 | the first screen-share producer |
| `Publish.SfuPublish.ProduceWithSource` | packages/client/src/sfu/publish.ts:129-183 | reply and state of a produce call: refused, buffered, existing, shared or started |
| `Publish.SfuPublish.TransportReady` | packages/client/src/sfu/publish.ts:247-258 | a new transport takes the place of any other; the flush equals issuing the buffered calls in order |
| `Publish.SfuPublish.RetainLocalProduces` | packages/client/src/sfu/publish.ts:434-457 | live published tracks, then buffered calls, become intents in order |
| `Publish.SfuPublish.ReplayRetainedProduces` | packages/client/src/sfu/publish.ts:459-466 | the intents are issued in order and forgotten |
| `Publish.SfuPublish.CloseAll` | packages/client/src/sfu/publish.ts:474-487 | producers and handshake entries go, buffered calls are rejected |
| `FilterGraph.SortedInputsStable` | apps/server/src/egress/ffmpeg/args-composer.ts:15-31 | the input order is a permutation that keeps the caller's order within each group |
| `FilterGraph.SortedKinds` | apps/server/src/egress/ffmpeg/args-composer.ts:20-31 | an input is audio, screen or camera exactly by its place: audio first, then screens, then cameras |
| `FilterGraph.GraphWellFormed` | apps/server/src/egress/ffmpeg/args-composer.ts:140-183 | for any number of audio inputs and up to four videos every pad names an input of its kind or an earlier label, all are used exactly once, and the free labels are aout plus vout exactly with video |
| `FilterGraph.LayoutExactly` | apps/server/src/egress/ffmpeg/args-composer.ts:13 | the tiles are stacked two by two in row-major order |
| `FilterGraph.ArgsErrorExactly` | apps/server/src/egress/ffmpeg/args-composer.ts:94-217 | no audio, more than four videos, no output, a missing directory: each refusal has exactly its condition, in this order |
| `FilterGraph.ComposeFilterComplex` | apps/server/src/egress/ffmpeg/args-composer.ts:140-183 | the loops build that graph |
| `FilterGraph.ComposeEgressArgs` | apps/server/src/egress/ffmpeg/args-composer.ts:81-137 | composed exactly with audio, at most four videos, an output and the directories it needs; input options in sorted order, a well-formed graph over them, and maps that are exactly its free labels |
| `OrderReconcile.Binding.ReconcileOrder` | packages/whiteboard-react/src/binding/excalidraw-yjs-binding.ts:262-277 | from any order, duplicates included, to exactly the duplicate-free target; every edit in range; no edit exactly when nothing differs |
| `OrderReconcile.Binding.Place` | packages/whiteboard-react/src/binding/excalidraw-yjs-binding.ts:269-272 | the settled prefix stays fixed while the next id is put behind it |
| `ActiveSpeaker.MinimumReign` | packages/client/src/audio/active-speaker-detector.ts:56-74 | a newly reported speaker is reported at every tick of the next holdTime, and was the loudest above the threshold when elected |
| `ActiveSpeaker.DroppedOnlyAfterSilence` | packages/client/src/audio/active-speaker-detector.ts:45-54 | dropped to nobody only after more than holdTime without being the loudest |
| `ActiveSpeaker.SwitchedOnlyAfterReign` | packages/client/src/audio/active-speaker-detector.ts:71-84 | replaced only by the loudest, by the margin, and a full holdTime after its election |
| `ActiveSpeaker.LevelRemembered` | packages/client/src/audio/active-speaker-detector.ts:64-67 | the level to beat is the speaker's own when it was last the loudest |
| `ActiveSpeaker.ElectionFound` | packages/client/src/audio/active-speaker-detector.ts:56-69 | whoever is reported was elected at some tick and has been reported since |
| `ActiveSpeaker.LoudestExact` | packages/client/src/audio/active-speaker-detector.ts:35-43 | the first id of the greatest level, none exactly when nobody is heard |
| `ActiveSpeaker.ElectedExactly` | packages/client/src/audio/active-speaker-detector.ts:56-69 | with nobody reported before, a tick reports exactly the first loudest of those heard, at once, and nobody exactly if there is none |
| `ActiveSpeaker.TakeoverExactly` | packages/client/src/audio/active-speaker-detector.ts:71-84 | another speaker takes over if and only if it is the loudest, holdTime has passed since the election, and its level exceeds the margin times that of the speaker's last loudest tick |
| `ActiveSpeaker.DroppedExactly` | packages/client/src/audio/active-speaker-detector.ts:45-54 | the speaker is dropped if and only if nobody is heard and nobody was at some tick more than holdTime ago since it was last the loudest |
| `ActiveSpeaker.ActiveSpeakerDetector.FindLoudest` | packages/client/src/audio/active-speaker-detector.ts:38-43 | the scan finds that id |
| `ActiveSpeaker.ActiveSpeakerDetector.Detect` | packages/client/src/audio/active-speaker-detector.ts:32-87 | what is reported is what the ticks since the last reset lead to |
| `MediaCaptureModel.NoLeakedCapture` | packages/client/src/media/capture.ts:59-130 | over any interleaving every acquired stream is the one in place or stopped |
| `MediaCaptureModel.StepSound` | packages/client/src/media/capture.ts:59-174 | every event keeps that, and ACTIVE comes with a stream and track of the newest request |
| `MediaCaptureModel.OnlyNewestInstalls` | packages/client/src/media/capture.ts:68-97 | only the newest request puts a stream in place |
| `MediaCaptureModel.AtMostOneRetryEach` | packages/client/src/media/capture.ts:99-104 | over any run each request is answered with a retry at most once, and one without a named device never |
| `MediaCaptureModel.RetryNeverRetries` | packages/client/src/media/capture.ts:102-104 | the request a retry issues is never retried |
| `MediaCaptureModel.RetriesBoundedByStarts` | packages/client/src/media/capture.ts:99-104 | over any run device-less retries never outnumber the starts that named a device |
| `MediaCaptureModel.StopHoldsExactly` | packages/client/src/media/capture.ts:100-124 | after a stop nothing starts by itself if and only if no request for a named device was outstanding |
| `MediaCaptureModel.StoppedStartRevived` | packages/client/src/media/capture.ts:102-106 | the run that turns the capture on again after a stop |
| `MediaCaptureModel.AskedExactly` | packages/client/src/media/capture.ts:59-130 | which device a start, a switch and the timed retry ask for, and what a stop, a switch and an ended track leave behind |
| `MediaCaptureModel.ArrivalExactly` | packages/client/src/media/capture.ts:66-98 | a late stream is stopped without a trace, one without a track is stopped, any other replaces the one in place and its device is remembered |
| `MediaCaptureModel.FailureExactly` | packages/client/src/media/capture.ts:99-116 | a vanished named device leads to a request without one, a late failure to nothing, any other is shown under its class with a timed retry exactly when the device is in use |
| `MediaCapture.MediaCapture.Resolved` | packages/client/src/media/capture.ts:66-98 | a stream is installed exactly for the newest request with a track; every other one is stopped |
| `MediaCapture.MediaCapture.Rejected` | packages/client/src/media/capture.ts:99-116 | a vanished device is retried without it before staleness is looked at |
| `MediaCapture.MediaCapture.Stop` | packages/client/src/media/capture.ts:119-124 | requests so far become stale, timer and stream go |
| `MediaCapture.MediaCapture.SwitchDevice` | packages/client/src/media/capture.ts:126-130 | the stream in place is stopped before the new request |
| `MediaCapture.MediaCapture.RetryTimerFires` | packages/client/src/media/capture.ts:166-173 | the timed retry asks for the last device |
| `RoomPresence.RoomPresenceService.DetachPeer` | apps/server/src/sfu/room-presence.service.ts:523-539 | exactly that socket leaves the records and its room's set |
| `RoomPresence.RoomPresenceService.Depart` | apps/server/src/sfu/room-presence.service.ts:484-516 | an unknown socket changes nothing; a member goes, the rest of its room and the webhooks are told once |
| `RoomPresence.RoomPresenceService.RestoreSeat` | apps/server/src/sfu/room-presence.service.ts:130-137 | the rejoiner's seat, timer and index entry go, and no other |
| `RoomPresence.RoomPresenceService.EnterRoom` | apps/server/src/sfu/room-presence.service.ts:139-152 | record and room set agree after the entry, the room tracked; a member of the room is stored anew and listed once |
| `RoomPresence.RoomPresenceService.RecordOwnerAndSlug` | apps/server/src/sfu/room-presence.service.ts:153-164 | owner and both directions of the slug index |
| `RoomPresence.RoomPresenceService.Greet` | apps/server/src/sfu/room-presence.service.ts:184-198 | the newcomer is sent the other members, or nothing when alone |
| `RoomPresence.RoomPresenceService.EmitJoinHooks` | apps/server/src/sfu/room-presence.service.ts:200-213 | room.started before participant.joined, each exactly when due |
| `RoomPresence.RoomPresenceService.StoreSeat` | apps/server/src/sfu/room-presence.service.ts:238-262 | a seat replaces an earlier one of the user and disarms its timer |
| `RoomPresence.RoomPresenceService.CloseRoom` | apps/server/src/sfu/room-presence.service.ts:573-582 | records of the closed room go from every map and no other room's |
| `RoomPresence.RoomPresenceService.ForgetSlugs` | apps/server/src/sfu/room-presence.service.ts:579-582 | the room's slugs go from both directions |
| `RoomPresence.RoomPresenceService.ForgetSeats` | apps/server/src/sfu/room-presence.service.ts:357-362 | exactly the room's seats and their timers go |
| `RoomPresence.RoomPresenceService.TearDown` | apps/server/src/sfu/room-presence.service.ts:380-382 | members depart one by one in order |
| `ParticipantRegistry.Registry.AttachProducer` | packages/client/src/sfu/participant-registry.ts:62-69 | an unknown user is left alone; a known one gains the producer and live media |
| `ParticipantRegistry.Registry.Clear` | packages/client/src/sfu/participant-registry.ts:118-120 | nobody is left |
| `PeerQualityEngine.PeerQualityEngine.OnParticipantLeft` | packages/react/src/core/peer-quality-engine.ts:208-212 | the user loses timer and cache |
| `PeerQualityEngine.PeerQualityEngine.ClearUserLayerState` | packages/react/src/core/peer-quality-engine.ts:310-317 | exactly that user loses timer and cache |
| `PeerQualityEngine.PeerQualityEngine.ClearAll` | packages/react/src/core/peer-quality-engine.ts:332-338 | everybody does |
| `WebhookQueue.WebhookQueue.PreviousSettled` | apps/server/src/webhooks/webhook-queue.ts:34-35 | the first attempt is due once the tail chained to has settled |
| `Concurrency.SerializedRuns.PreviousSettled` | packages/client/src/helpers/concurrency.ts:21-22 | a queued run starts once its predecessor has settled, either way |
| `Concurrency.SerializedRuns.RunSettled` | packages/client/src/helpers/concurrency.ts:22 | one attempt settles the run |
| `Concurrency.SharedRuns.ForgetIfCurrent` | packages/client/src/helpers/concurrency.ts:50-56 | the entry goes only if it is still this run's |
| `Concurrency.SharedRuns.Clear` | packages/client/src/sfu/publish.ts:474-480 | a cleared map abandons the runs in flight |
| `EgressPorts.EgressService.SdpWritten` | apps/server/src/egress/egress.service.ts:328-343 | the next tap reserves its port, or the loop ends, as the loop-head theorem says |
| `EgressPorts.EgressService.SdpFailed` | apps/server/src/egress/egress.service.ts:328-336 | the tap opened last stays with its session |
| `SessionRecovery.SfuSession.JoinRoom` | packages/client/src/sfu/session.ts:70-86 | without a socket nothing changes; otherwise the payload is remembered and sent with the room its token names, if any |
| `SessionRecovery.Routed` | packages/client/src/sfu/session.ts:76-85 | the join is sent for the room its token names, and for the caller's only when it names none |
| `SessionRecovery.SfuSession.HandleReconnectFailed` | packages/client/src/sfu/session.ts:150-162 | recovery fails exactly mid-session |
| `OneShotHandlers.HandlerMap.Unsubscribe` | apps/server/src/sfu/room-presence.service.ts:466-468 | the handler leaves the set its closure kept |
| `GridLayout.FillGrid` | packages/video-layout/src/grid-layout.ts:85-98 | one tile per participant in row-major cells |
| `GridLayout.FillStrip` | packages/video-layout/src/grid-layout.ts:203-218 | one tile per participant in a line, the gap apart |
| `Publish.SfuPublish.CloseProducer` | packages/client/src/sfu/publish.ts:318-331 | the producer looked up for the slot is deleted, or nothing happens |
| `Publish.SfuPublish.IndexOfProducer` | packages/client/src/sfu/publish.ts:351-363 | the position of the slot's first producer |
| `Publish.SfuPublish.HandshakeSucceeded` | packages/client/src/sfu/publish.ts:196-230 | the producer is filed and the handshake settled |
| `Publish.SfuPublish.HandshakeFailed` | packages/client/src/sfu/publish.ts:231-239 | the handshake is settled without a producer |
| `Publish.SfuPublish.HandshakeForgotten` | packages/client/src/sfu/publish.ts:180-182 | the shared entry goes only if it is still this handshake's |
| `Publish.SfuPublish.ClearRetainedProduces` | packages/client/src/sfu/publish.ts:469-471 | no intent is left |
| `FilterGraph.ComposeGraph` | apps/server/src/egress/ffmpeg/args-composer.ts:115-134 | the mapped labels are exactly the free ones |
| `FilterGraph.ListInputs` | apps/server/src/egress/ffmpeg/args-composer.ts:110-114 | the k-th input file is the k-th input's, each directly behind its own whitelist |
| `ActiveSpeaker.ActiveSpeakerDetector.Reset` | packages/client/src/audio/active-speaker-detector.ts:89-96 | a new run of ticks begins |
| `MediaCapture.MediaCapture.Start` | packages/client/src/media/capture.ts:59-66 | a newer request makes earlier ones stale and cancels the timed retry |
| `MediaCapture.MediaCapture.UserStart` | packages/client/src/media/capture.ts:59-66 | and keeps every stream accounted for |
| `MediaCapture.MediaCapture.StopCurrentStream` | packages/client/src/media/capture.ts:148-154 | the stream in place is stopped and forgotten |
| `MediaCapture.MediaCapture.TrackEnded` | packages/client/src/media/capture.ts:90-95 | an ended track changes the state only for the newest request |

## Left out

- RosterTheorems.RosterAgreement: runs with a second member socket of one user, or a repeated join of a member socket, are excluded; which runs of orderly clients those are is `DeadMembers.AgreementExactly`. What a client shows after joining twice on one connection, users learned only through a producer announcement, and the registry cleared by a media reset, are not modelled.
- ParticipantRegistry.Registry.Handle: names, external ids and metadata are not part of the messages, only of `Upsert`.
- RoomPresence.RoomPresenceService.CommitJoin: a socket that is a member of another room is excluded; what such a join does to the room index is `PresenceIndexes.RejoinExactly`.
- RoomPresence.RoomPresenceService.EnterRoom: likewise.
- RoomPresence.RoomPresenceService.EndRoom: one step, without the await between departures; joins interleave only at the credential wait.
- RoomPresence.RoomPresenceService.BroadcastToRoom: the record loop; the socket.io adapter is assumed to reach the same sockets.
- OneShotHandlers.HandlerMap.Notify: a handler that starts another notification while being called is covered by the machine, whose events interleave freely, not by this method.
- PromiseChains.ChainsSafe: order is from enqueueing on; webhook emission awaits a lookup before it enqueues.
- Concurrency.SerializedRuns.WithoutConcurrency: a function that throws synchronously, or calls back into its own tag before returning, is not modelled.
- PeerQualityModel.CacheAlwaysAgrees: score thresholds, stats polling and per-user listeners are not modelled; a level stands for a report.
- EgressPorts.PortsExclusive: the FFmpeg process of a superseded rebuild, start timers and membership debouncing are not modelled.
- PipelineRestarts.EgressSession.OnPipelineFailure: membership restarts are not modelled.
- PublishModel.OneProducerPerSlot: acknowledgement bookkeeping, codec options, pausing and track replacement are not modelled.
- GridLayout.ComputeGridDimensions: a zero aspect ratio, by which the source divides, is excluded; any other ratio and any gap are allowed.
- GridLayout.ComputeGridLayout: real arithmetic, without floating-point rounding; a zero aspect ratio is excluded, and separation, margins and containment are promised for a positive ratio and a gap that is not negative.
- GridLayout.SideFits: for a positive aspect ratio only, since a negative one turns the comparison round.
- GridLayout.ComputeSpotlightLayout: as for the uniform layout.
- GridLayout.RightStrip: as for the uniform layout.
- GridLayout.BottomStrip: as for the uniform layout.
- FilterGraph.ComposeEgressArgs: the graph and label structure, not its text; sizes, codecs and tee targets are constants of the text.
- OrderReconcile.Binding.ReconcileOrder: one replica; concurrent edits merge outside this model.
- MediaCapture.MediaCapture.Resolved: state callbacks and stored device preferences are not modelled.
- Identifiers are natural numbers (speaker ids and seat keys are strings); payload fields without influence on control flow are dropped.
- Module shutdown, logging, JSON, base64url, SDP text, authentication, worker placement and recovery, chat, the REST surface and all user interface are not part of this model.
