# Crowdbeats: verified model of the room queue, its locks and its live updates

A room holds tracks that guests propose and vote for. PostgreSQL stores the tracks, the
votes, the sessions, a materialised ranking and an append-only log of recalculations; a
scheduler recalculates each room's ranking at the room's own pace; and sockets receive
what changed through an in-memory hub. This project models those parts and proves what
they promise, for all inputs, all runs and all interleavings.

## How it is laid out

| file | what it holds |
|---|---|
| `Ranking.dfy` | the ranking as the unique sorted listing of a set, its best k, and the effect of one more vote |
| `Versions.dfy` | the recalculation log, version stamps over an arbitrary clock with microsecond read-back, and clients that keep the largest version |
| `Tables.dfy`, `Operations.dfy` | the tables, and every use case as a function of the committed tables to new tables, an answer and signals |
| `Effects.dfy`, `BatchEffects.dfy` | what every use case answers and leaves, read off the rows of the tables and not off the functions it is defined with |
| `Invariants.dfy`, `Preservation.dfy` | what holds in every reachable state, and that every use case keeps it |
| `QueueTheorems.dfy`, `StaleSkip.dfy`, `Clients.dfy` | soundness of the skipped batch, its exact condition and a counterexample, convergence, reads between batches, and what clients end on |
| `History.dfy` | bounds and permanence over whole runs |
| `Repositories.dfy`, `Bodies.dfy`, `UseCases.dfy` | the statements, transaction bodies and use cases as they are written, proved against `Operations.dfy`, with a database error possible at any statement |
| `LockProtocol.dfy`, `Isolation.dfy`, `Locality.dfy` | the row locks of interleaved transactions, why commits of any statements under them are serial, and which data each use case touches |
| `WriteBack.dfy`, `Interleaving.dfy` | the use cases themselves interleaved: locks, looks, FIFO numbers and commits |
| `Hub.dfy`, `HubSystem.dfy`, `LiveSessions.dfy` | the hub's objects, everything that acts on a hub interleaved, and the hub together with the tables |
| `QueueFeed.dfy` | tables, hub, late broadcasts and clients' reads interleaved: what a connected client ends up showing |
| `Scheduler.dfy`, `Freshness.dfy` | the scheduler, and how soon the queue catches up once nothing changes |
| `QrCodes.dfy` | QR rotation with the join's second look |

## Main results

- **The batch may skip its work.** A batch skips when the newest logged fingerprint equals
  the current one. In every reachable state the stored rows, positions, votes, scores, FIFO
  numbers, cached scores and the visible snapshot are what a full recalculation would
  leave if and only if the current fingerprint is the one logged *last*
  (`QueueTheorems.UpToDateIff`). The fingerprint mentions neither FIFO numbers nor cached
  scores; the invariant `Invariants.Derived` is what carries them.
- **Versions.** The query finds the newest entry by version, not by commit order. Versions
  are written with nanoseconds and read back with microseconds, so a clock reading can be
  lost to rounding, and then two entries share a version. An entry *lands* if its reading
  is not lost, or if its transaction started later, or at the same time with a larger id,
  than the one of the entry found before (`Versions.Lands`); this is known before the entry
  is written. Over every run a skip is sound if and only if the room's last rewrite landed
  (`QueueTheorems.EverySkipIsSoundIff`), and a second batch stays quiet if and only if the
  first one landed (`QueueTheorems.RecalculationConverges`); what happened earlier does not
  matter. `StaleSkip.LostReadingHidesAQueuedTrack` is a reachable state in which the last
  rewrite did not land and every later batch skips while a queued track is missing from the
  queue. Stalled and backward clocks lose no reading, nor does any clock of microsecond
  resolution. The documentation promises that `updated_at` versions the last ranked
  snapshot; the model follows the code.
- **Clients.** Every client that receives the last snapshot ends on it if and only if the
  last rewrite did not lose its reading (`QueueTheorems.ClientsConvergeIff`). In every
  interleaving of commits, hub steps, broadcasts that go out late and in any order, and
  reads, a client that has read since it was asked to synchronise holds the last committed
  version once that has been broadcast (`QueueFeed.ActiveClientsCatchUp`).
- **Serial commits.** Use cases take their locks one by one, look at what a row guards only
  while they hold it, draw FIFO numbers from one sequence for all rooms, and write back only
  what their locks guard. However they interleave, the committed tables and everything that
  is sent are those of running the committed ones one after the other in commit order
  (`Interleaving.UseCasesAreSerial`), and the numbers of a room grow in that order although
  draws of other rooms and lost draws come in between (`Interleaving.DrawnNumberIsLast`).
  The same holds for arbitrary statements under these locks (`Isolation.CommitsAreSerial`).
- **Freshness.** Once nothing changes any more that a room's ranking depends on, a batch of
  the room commits within its interval and one gap between ticks, plus the time a batch
  takes, and from then on the queue is up to date if and only if that batch does not skip on
  an entry that hides the last rewrite (`Freshness.QueueCatchesUp`).
- **No deadlock.** Tracks are locked in arbitrary order and a vote may lock a track of
  another room before it rejects it. Along every edge of the wait-for graph the waiting
  transaction leads to one that is nearer to running (`LockProtocol.NoDeadlock`,
  `LockProtocol.SomeoneCanProceed`). The architecture notes give the order room, session,
  track; a proposal locks a catalogue row before the room, and the model follows the code.
- **Live updates.** Every socket gets exactly the broadcasts between its activation and its
  removal (`HubSystem.StreamsHaveNoGaps`), nothing is sent on a closed channel, and no
  handshake that races with a leave or a room switch leaves a socket of an ended session
  active (`HubSystem.EndedSessionStaysOut`, `LiveSessions.ActiveSocketsAreJoined`). A client
  that reads the queue after its socket was activated ends on the last committed version,
  in whatever order broadcasts go out (`Clients.ConnectedClientConverges`).
- **What a use case does.** For every use case: when it succeeds, which refusal it gives
  otherwise, every row it changes and that it changes no other, told by the rows alone
  (`Effects`, `BatchEffects.RecalculateEffect`, `BatchEffects.ReadShows`). A batch skips
  exactly if the newest log entry describes the best waiting tracks and the playing track as
  they are now, and a vote wakes the next batch exactly if its track plays or is among the
  best (`BatchEffects.VoteWakesBatchIff`).
- **All or nothing.** Whatever statement fails, the commit included, an unsuccessful use
  case changes nothing and sends nothing (`UseCases`).

## Assumptions

- Statements are modelled by meaning under read-committed isolation with row locks. A room's
  row guards its settings, tracks, votes, queue rows, log and nicknames, a session's row
  whether the session is joined; `Interleaving` is why a use case then counts as one step on
  the committed tables.
- The fingerprint hash is injective. Ids are never issued twice, are named in the order in
  which they are committed, and nobody can name a session before its id is issued.
- A stored time stamp is read back rounded to the nearest microsecond, an exact half to the
  even one.
- Catalogue lookups, the provider and the event rows of other kinds are statements that
  succeed or fail; their content does not matter to the queue. The catalogue track is an
  opaque id. The first, unlocked look of a proposal at its room is an arbitrary earlier
  answer, and so are the two looks of a join at its QR code; what these can be is in `QrCodes`.
- One API process holds all hubs.

## Model

| member | source | states |
|---|---|---|
| `Ranking.RankingUnique` | internal/infra/db/repositories/queue_repository.go:138-138 | votes descending then FIFO ascending leaves exactly one listing of a set of entries |
| `Ranking.TopKUnique` | internal/infra/db/repositories/queue_repository.go:130-158 | a listing is the ranking cut at the limit if and only if it is sorted, drawn from the queued tracks, of length min(limit, queued), and ahead of everything it omits |
| `Ranking.PositionIsAheadCount` | internal/infra/db/repositories/queue_repository.go:138-138 | the position of a track is the number of tracks ahead of it |
| `Ranking.VoteNeverWorsens` | internal/infra/db/repositories/queue_repository.go:132-138 | one more vote never moves its entry back and keeps the relative order of all others |
| `Ranking.VoteKeepsTopK` | internal/infra/db/repositories/queue_repository.go:132-139 | one more vote never drops its entry from the k best |
| `Versions.Newest` | internal/infra/db/repositories/queue_repository.go:79-89 | the entry the log query returns is in the log and none sorts after it |
| `Versions.RoundIsNearest` | internal/infra/db/repositories/queue_repository.go:80-80 | a stamp is read back as the nearest microsecond, of two that are as near as the even one |
| `Versions.StampGrowsIff` | internal/usecase/recalculate_queue.go:43-46 | the read-back version exceeds the previous one if and only if the reading was not lost to rounding |
| `Versions.MicrosecondReadingIsGood` | internal/usecase/recalculate_queue.go:43-46 | no reading with microsecond resolution is lost, whatever it reads |
| `Versions.AppendKeepsOrder` | internal/usecase/recalculate_queue.go:43-61 | appending to the log never lowers versions and keeps them strictly increasing exactly for good readings |
| `Versions.NewestIsLast` | internal/infra/db/repositories/queue_repository.go:76-97 | the query finds the entry committed last if that sorts after all others, and only if none of the others sorts after it |
| `Versions.NewestAfterAppend` | internal/infra/db/repositories/queue_repository.go:84-88 | the query finds an appended entry if and only if its reading was not lost or its transaction breaks the tie by a later start or a larger id; otherwise it keeps finding the entry it found before |
| `Versions.ReceiversEndOnLastIff` | docs/websocket.md:17-17 | keeping the largest version ends on the last committed snapshot for every order, loss and repetition that includes it, if and only if no other snapshot carries as large a version |
| `History.ProposalQueue` | internal/infra/db/repositories/track_repository.go:17-21 | the count of queued tracks is at most the limit after an accepted proposal, and any other proposal leaves it alone |
| `Repositories.Transaction.GetActiveDuplicate` | internal/infra/db/repositories/track_repository.go:51-63 | the room's active occurrence of a catalogue track with its cached votes and stored position, if there is one |
| `Repositories.Transaction.ListRankedQueued` | internal/infra/db/repositories/queue_repository.go:130-158 | a sort and a cut that return the unique top k of the queued tracks |
| `Repositories.Transaction.LoadNowPlaying` | internal/infra/db/repositories/queue_repository.go:100-128 | the room's playing track with its cached votes, if there is one |
| `Repositories.Transaction.LoadState` | internal/infra/db/repositories/queue_repository.go:76-98 | a scan that returns the newest log entry, or nothing for an empty log |
| `Repositories.Transaction.LoadSnapshot` | internal/infra/db/repositories/queue_repository.go:17-74 | the stored rows of queued tracks renumbered while scanning, the playing track and the newest version |
| `Repositories.Transaction.CreateQueuedIfAbsent` | internal/infra/db/repositories/track_repository.go:35-49 | inserts exactly when the room has no active occurrence of the catalogue track, with a FIFO number above all of the room's |
| `Repositories.Transaction.Delete` | internal/infra/db/repositories/track_repository.go:78-81 | removes the track with its votes and its row if it is in the room, and nothing otherwise |
| `Repositories.Transaction.SetStatus` | internal/infra/db/repositories/track_repository.go:83-90 | changes the status of an active track of the room and reports whether there was one |
| `Repositories.Transaction.SetPlaying` | internal/infra/db/repositories/track_repository.go:92-98 | demotes every playing track of the room even when the target turns out to be missing |
| `Repositories.Transaction.InsertVote` | migrations/001_init.sql:218-282 | objects exactly when vote, session and track are not of one room or the session has voted for the track, and otherwise adds the vote and raises the cached count by one |
| `Repositories.Transaction.Replace` | internal/infra/db/repositories/queue_repository.go:160-173 | deletes the room's rows and inserts the ranking at positions 1..n |
| `Repositories.Transaction.UpdateCachedScores` | internal/infra/db/repositories/track_repository.go:100-114 | gives ranked tracks their score in any order and every other queued track of the room zero |
| `QueueTheorems.LogOnlyGrows` | internal/usecase/recalculate_queue.go:57-61 | over every run a room's log only grows at its end |
| `Repositories.Transaction.ReattachSameRoom` | internal/infra/db/repositories/session_repository.go:45-62 | a session of the room is active again under its new nickname; any other is reported missing and nothing changes |
| `Repositories.Transaction.LeaveSession` | internal/infra/db/repositories/session_repository.go:86-89 | the session is left, and an unknown one is ignored |
| `History.JoinedSession` | internal/infra/db/repositories/session_repository.go:33-43 | a successful join leaves its caller with an active session of the room: its own if it has one there, otherwise one that no track and no vote referred to; only a session left in another room changes besides |
| `Bodies.JoinBody` | internal/usecase/join_room.go:34-106 | both QR looks around the room lock, refusals in order, reattachment to the same room, or leaving the old room and a new session |
| `Bodies.ProposeBody` | internal/usecase/propose_track.go:40-132 | refusals in order, duplicate before limit, insert; the "not created" fallback is unreachable |
| `Bodies.ReadSettings` | internal/usecase/manager_rooms.go:41-75 | defaults and ranges of a new room's settings |
| `Bodies.VoteBody` | internal/usecase/add_vote.go:26-87 | refusals in order, quota, insert; the duplicate-key fallback is unreachable |
| `Bodies.DeleteBody` | internal/usecase/track_management.go:13-25 | refusals in order, then the delete and its event |
| `Bodies.EndBody` | internal/usecase/track_management.go:37-49 | refusals in order, then the status change and its event |
| `Bodies.PlayBody` | internal/usecase/track_management.go:61-73 | a missing target is refused after the demotion has been done in the transaction |
| `Bodies.FingerprintOf` | internal/usecase/recalculate_queue.go:76-96 | the version structure lists id, votes and proposer in rank order, and the playing track |
| `Bodies.ScoreMap` | internal/usecase/recalculate_queue.go:50-53 | the score of each ranked track is its vote count |
| `Bodies.RewriteBody` | internal/usecase/recalculate_queue.go:47-63 | rows, cached scores, log entry, and the snapshot read back inside the transaction |
| `Bodies.RecalculateBody` | internal/usecase/recalculate_queue.go:18-64 | skips on an equal fingerprint, otherwise stamps, rewrites, logs and reads the snapshot |
| `Bodies.GetQueueBody` | internal/usecase/queue_queries.go:12-23 | the snapshot of the committed tables under a shared lock |
| `UseCases.Services.Finish` | internal/infra/db/postgres.go:103-118 | commits a successful body and sends its signals after the commit; anything else leaves tables and signals as they were |
| `UseCases.Services.JoinRoom` | internal/usecase/join_room.go:26-128 | checks the nickname, joins as specified and then disconnects the old session, or is stopped without a trace |
| `UseCases.Services.LeaveRoom` | internal/usecase/sessions.go:29-38 | persists the leave, then disconnects the session |
| `UseCases.Services.Propose` | internal/usecase/propose_track.go:29-139 | proposes as specified, or is stopped without a trace |
| `UseCases.Services.Vote` | internal/usecase/add_vote.go:24-97 | votes as specified, or is stopped without a trace |
| `UseCases.Services.Delete` | internal/usecase/track_management.go:12-34 | deletes as specified, or is stopped without a trace |
| `UseCases.Services.End` | internal/usecase/track_management.go:36-58 | ends a track as specified, or is stopped without a trace |
| `UseCases.Services.Play` | internal/usecase/track_management.go:60-82 | promotes as specified, or is stopped without a trace, the demotion included |
| `UseCases.Services.Recalculate` | internal/usecase/recalculate_queue.go:15-74 | recalculates as specified and broadcasts the snapshot only if it changed, or is stopped without a trace |
| `UseCases.Services.GetQueue` | internal/usecase/queue_queries.go:12-23 | returns the snapshot of the committed tables |
| `UseCases.Services.Patch` | internal/usecase/manager_rooms.go:123-135 | validates, then changes only the given settings |
| `UseCases.Services.NewRoom` | internal/usecase/manager_rooms.go:36-88 | validates the name and all settings, then creates a room with an empty queue and log |
| `UseCases.Services.Serve` | internal/infra/db/postgres.go:103-118 | any request with any fault keeps all invariants and is one step of a run or no step at all |
| `Effects.LeaveEffect` | internal/usecase/sessions.go:29-33 | a leave ends the session, keeps its room and nickname, changes nothing else and asks for its disconnection; an unknown session changes nothing |
| `Effects.JoinAnswers` | internal/usecase/join_room.go:26-54 | a join succeeds exactly with a nickname of 1 to 32 characters, two looks that find the same known room, and that room active; and which refusal it gets otherwise |
| `Effects.JoinEffect` | internal/usecase/join_room.go:56-112 | the guest comes back as its own session of the room under the new nickname; or as a new session, its session of another room left and disconnected; and nothing else changes |
| `Effects.RefusedJoinEffect` | internal/usecase/join_room.go:107-109 | a refused join changes nothing and sends nothing |
| `Effects.VoteAnswers` | internal/usecase/add_vote.go:27-66 | a vote succeeds exactly in an active room, by a session joined to it, for a waiting or playing track of it, without an earlier vote and below the quota |
| `Effects.VoteRefusals` | internal/usecase/add_vote.go:27-40 | for which tables a vote is refused on account of its room or its session |
| `Effects.VoteTrackRefusals` | internal/usecase/add_vote.go:42-66 | for which tables it is refused on account of its track, an earlier vote or the quota |
| `Effects.VoteEffect` | internal/usecase/add_vote.go:67-95 | an accepted vote adds itself and counts one more, changes nothing else, and tells count and remaining quota |
| `Effects.ProposeRefusals` | internal/usecase/propose_track.go:37-83 | for which tables a proposal is refused before it looks for a duplicate |
| `Effects.ProposeAnswers` | internal/usecase/propose_track.go:85-102 | a waiting or playing occurrence is answered with its votes and its row's position however full the queue is; without one the proposal is refused exactly if as many tracks wait as the room allows |
| `Effects.ProposeEffect` | internal/usecase/propose_track.go:102-138 | an accepted proposal adds one waiting track without votes and announces it; any other changes nothing and sends nothing |
| `Effects.DeleteEffect` | internal/usecase/track_management.go:12-34 | a delete succeeds exactly for a track of the room; the track, its votes and its row are gone, and the other rows keep order and positions |
| `Effects.EndEffect` | internal/usecase/track_management.go:36-58 | ending succeeds exactly for a waiting or playing track of the room and changes its status to skipped or played and nothing else |
| `Effects.PlayEffect` | internal/usecase/track_management.go:60-82 | playing succeeds exactly for a waiting or playing track of the room; it plays, what played waits, and nothing else changes |
| `Effects.NewRoomEffect` | internal/usecase/manager_rooms.go:36-88 | a room is created exactly with a name and settings in their ranges, with the given values and the defaults, and empty |
| `Effects.PatchEffect` | internal/usecase/manager_rooms.go:123-135 | a patch succeeds exactly for a known room and limits in their ranges, and changes what is given |
| `BatchEffects.PlayingIsShown` | internal/infra/db/repositories/queue_repository.go:100-128 | no playing track is shown exactly if no track of the room plays; otherwise that track, with all its votes and the nickname of its proposer |
| `BatchEffects.ReadShows` | internal/infra/db/repositories/queue_repository.go:17-74 | a read shows the tracks of the last logged ranking that still wait, in order, at positions 1 to n, every column given, the playing track, and the largest logged version |
| `BatchEffects.ClientsSee` | internal/infra/http/dto/public.go:142-196 | two reads look the same to clients exactly if they agree on the items' position, track, score, votes and proposer, the playing track and the version |
| `BatchEffects.BestUnique` | internal/infra/db/repositories/queue_repository.go:130-158 | there is one listing of the best waiting tracks |
| `BatchEffects.RankedIsBest` | internal/infra/db/repositories/queue_repository.go:130-158 | the batch ranks the best waiting tracks, each with its votes and the nickname of its proposer |
| `BatchEffects.SkipMeans` | internal/usecase/recalculate_queue.go:35-42 | a batch skips exactly if the newest log entry lists the best waiting tracks and the playing track with their votes and nicknames as they are |
| `BatchEffects.RecalculateEffect` | internal/usecase/recalculate_queue.go:15-74 | a batch refuses an unknown room, does nothing when it skips, and otherwise leaves rows, scores, stamp and log entry that describe the tables, changes nothing else and broadcasts what a read then shows |
| `BatchEffects.VoteWakesBatchIff` | internal/usecase/recalculate_queue.go:35-42 | when the next batch would have skipped, after an accepted vote it writes if and only if the track plays or is among the best with this vote |
| `BatchEffects.VoteForPlayingWakesBatch` | internal/usecase/recalculate_queue.go:76-96 | a vote for the playing track is never skipped |
| `Preservation.NewTrackKeepsInv` | internal/usecase/propose_track.go:85-114 | an accepted proposal keeps all invariants |
| `Preservation.AddVoteKeepsInv` | internal/usecase/add_vote.go:60-72 | a vote keeps all invariants, cached counts included |
| `Preservation.DeleteTrackKeepsInv` | migrations/001_init.sql:133-162 | a delete with its cascades keeps all invariants |
| `Preservation.SetPlayingKeepsInv` | internal/infra/db/repositories/track_repository.go:92-98 | promotion keeps at most one playing track and all other invariants |
| `Preservation.RewriteIsAsLogged` | internal/usecase/recalculate_queue.go:47-61 | rows and cached scores after a rewrite are determined by the fingerprint that is logged with it |
| `Preservation.RecalculateKeepsInv` | internal/usecase/recalculate_queue.go:18-64 | a batch, skipped or not, keeps all invariants of all rooms |
| `Preservation.StepKeepsInv` | docs/architecture.md:42-42 | every use case with every argument keeps all invariants |
| `Preservation.ReachInv` | migrations/001_init.sql:97-162 | references, FIFO order, vote counts, one playing track, active uniqueness, limits and the derived tables hold in every reachable state |
| `QueueTheorems.ReadsBetweenBatches` | internal/infra/db/repositories/queue_repository.go:26-73 | a read shows the last logged ranking filtered to tracks still queued, order kept, positions exactly 1..n, never the playing track |
| `QueueTheorems.UpToDateIff` | internal/usecase/recalculate_queue.go:35-42 | rows, scores and the visible snapshot equal a full recalculation's if and only if the current fingerprint is the one logged last |
| `QueueTheorems.SkipIsSoundIff` | internal/usecase/recalculate_queue.go:39-42 | a skip is sound if and only if the entry the query found carries the fingerprint logged last |
| `QueueTheorems.SkipIsSound` | internal/usecase/recalculate_queue.go:39-42 | a skip is sound whenever the entry committed last sorts after all others |
| `QueueTheorems.QueryFindsLastIff` | internal/infra/db/repositories/queue_repository.go:76-97 | over every run the query finds the entry committed last if and only if the room's last rewrite landed, whatever earlier readings were lost; if it did not, the entry found carries another fingerprint |
| `QueueTheorems.EverySkipIsSoundIff` | internal/usecase/recalculate_queue.go:39-42 | over every run a skip leaves everything up to date if and only if the room's last rewrite landed |
| `QueueTheorems.RecalculationPublishes` | internal/usecase/recalculate_queue.go:47-72 | a batch that writes leaves everything up to date and broadcasts exactly what it logged |
| `QueueTheorems.RecalculationConverges` | internal/usecase/recalculate_queue.go:15-74 | a batch that writes makes the queue the ranking of the current votes whatever the clock reads, and an immediate second one writes nothing if and only if the first one's entry landed; a batch that skips changes nothing any number of times |
| `QueueTheorems.BatchConvergesIff` | internal/usecase/recalculate_queue.go:15-74 | after every run one batch leaves the queue up to date if and only if it does not skip on an entry that hides the last rewrite |
| `QueueTheorems.MessagesFollowLog` | internal/usecase/recalculate_queue.go:57-72 | over every run there is one broadcast snapshot per log entry, with its version and content, and versions never go back |
| `QueueTheorems.VersionsIncreaseIff` | internal/usecase/recalculate_queue.go:43-63 | over every run versions strictly increase if and only if no reading was lost to rounding |
| `QueueTheorems.MicrosecondClockIsGood` | internal/usecase/recalculate_queue.go:43-46 | a clock with microsecond resolution loses no reading over any run, stalled or backward |
| `QueueTheorems.ClientsConvergeIff` | docs/websocket.md:17-17 | over every run, whoever receives the last snapshot among any others ends on it if and only if the last rewrite did not lose its reading |
| `QueueTheorems.LastMessageIsFresh` | docs/websocket.md:17-17 | whenever the next batch would skip and the last rewrite landed, the last broadcast snapshot is what a fresh read returns |
| `QueueTheorems.ClientsShowFreshRead` | docs/websocket.md:17-17 | whenever the next batch would skip and the last rewrite did not lose its reading, whoever received the last broadcast snapshot, among any others and in any order, shows what a fresh read returns |
| `StaleSkip.LostReadingHidesAQueuedTrack` | internal/usecase/recalculate_queue.go:39-46 | a reachable state in which a lost reading makes every later batch skip although a queued track is not in the queue |
| `Clients.ReadCarriesLastVersion` | internal/infra/db/repositories/queue_repository.go:42-42 | a read after any run carries the version of the last committed snapshot |
| `Clients.ConnectedClientConverges` | docs/websocket.md:9-17 | a client that reads after its activation and receives the broadcasts from then on holds the last committed version whatever the clock read and in whatever order broadcasts go out, and the last snapshot itself if it was committed after the read and its reading was not lost |
| `History.PlayingDoesNotLengthenQueue` | internal/infra/db/repositories/track_repository.go:92-98 | demoting and promoting does not lengthen the queue, because at most one track is playing |
| `History.QueueBound` | internal/usecase/propose_track.go:94-102 | over every run the queue is never longer than the limit in force at the last accepted proposal |
| `History.VoteQuota` | internal/usecase/add_vote.go:60-66 | over every run a session's votes never exceed the limit in force at its last accepted vote |
| `History.ReceiptIsCommitted` | internal/usecase/add_vote.go:80-95 | the returned count and remaining quota, and the broadcast count, are those of the committed tables |
| `History.TracksArePermanent` | internal/infra/db/repositories/track_repository.go:83-98 | over every run ids do not come back, FIFO numbers, rooms and proposers never change, and played and skipped stay |
| `History.ActiveOccurrencesAreUnique` | migrations/001_init.sql:129-131 | in every reachable state a room has one active occurrence per catalogue track and one playing track at most |
| `History.VoteLiftsTrack` | internal/usecase/add_vote.go:67-80 | an accepted vote never worsens its track's rank, keeps the order of the others and never drops it from the ranked part |
| `History.EarlierProposalIsAhead` | internal/usecase/propose_track.go:70-102 | among equal votes the track accepted first is ahead |
| `History.SessionsKeepTheirRoom` | docs/architecture.md:36-36 | over every run a session stays attached to one room |
| `History.IntervalsNeverChange` | internal/infra/db/repositories/room_repository.go:101-114 | over every run a room keeps the recalculation interval and code lifetime it was created with |
| `History.EndedSessionsAreSignalled` | internal/usecase/join_room.go:110-112 | whatever ends a session also asks for the disconnection of its sockets from its room |
| `Isolation.CommitsAreSerial` | docs/architecture.md:42-44 | however transactions interleave statement by statement, the committed data and all answers are those of running the committed ones one after the other in commit order |
| `Isolation.NothingReadIsStale` | docs/architecture.md:42-44 | at every moment what a running transaction has learnt is what it would learn from the data as committed now |
| `Locality.OtherRoomsUntouched` | docs/architecture.md:42-44 | a use case changes nothing that the row of another room guards |
| `Locality.JoinReadsItsRoom` | internal/usecase/join_room.go:41-94 | what a join does and answers depends only on the room and the session it locks |
| `Locality.ProposalReadsItsRoom` | internal/usecase/propose_track.go:70-114 | what a proposal does and answers depends only on the room and the session it locks |
| `Locality.VoteReadsItsRoom` | internal/usecase/add_vote.go:27-72 | what a vote does and sends depends only on the room and the session it locks; its answer depends besides on exactly one thing, whether the track it names exists in any room, and only if the vote gets as far as looking it up |
| `Locality.VoteTellsForeignTrack` | internal/usecase/add_vote.go:44-51 | two sets of tables that differ only in another room, and a vote that is answered differently: not found in one, not active in the other |
| `Locality.OtherSessionsUntouched` | internal/infra/db/repositories/session_repository.go:33-89 | a use case changes no existing session but the one whose row it locks |
| `Locality.DeleteReadsItsRoom` | internal/usecase/track_management.go:13-25 | what a delete does and answers depends only on the room it locks |
| `Locality.EndReadsItsRoom` | internal/usecase/track_management.go:37-49 | what ending a track does and answers depends only on the room it locks |
| `Locality.PlayReadsItsRoom` | internal/usecase/track_management.go:61-73 | what a promotion does and answers depends only on the room it locks |
| `Locality.BatchReadsItsRoom` | internal/usecase/recalculate_queue.go:18-64 | what a batch writes, answers and broadcasts depends only on the room it locks |
| `WriteBack.StepIsLocal` | docs/architecture.md:42-44 | what any use case does to its room, and what it sends, is the same on any two consistent sets of tables that look alike on the rows it locks |
| `WriteBack.LocalCommitIsStep` | docs/architecture.md:42-44 | a use case that computes on what it has seen, and writes back only what its locks guard, leaves exactly the tables it leaves when it runs alone |
| `Interleaving.UseCasesAreSerial` | docs/architecture.md:42-44 | however use cases interleave, the committed tables are those of a run of the committed ones in commit order, and each sends what it sends in its turn |
| `Interleaving.NothingSeenIsStale` | docs/architecture.md:44-44 | at every moment what a running use case has seen of its room and its session is what is committed now |
| `Interleaving.DrawnNumberIsLast` | migrations/001_init.sql:106-106 | an accepted proposal gets the number it drew from the one sequence of all rooms, and in its room that is above the numbers of all tracks accepted before |
| `Interleaving.PlanCovers` | internal/infra/db/repositories/room_repository.go:38-58 | the transaction of every use case plans to lock exclusively the room and the session its use case looks at, and the track a vote, a delete or an end names |
| `Interleaving.CanCommit` | internal/infra/db/postgres.go:103-118 | whatever others do in between, a use case that has seen what it locked, and drawn a number if it proposes, can commit |
| `LockProtocol.RoomWritersExclude` | internal/infra/db/repositories/room_repository.go:38-58 | holders of a room row exclude each other unless all are readers |
| `LockProtocol.PlanRises` | internal/usecase/add_vote.go:27-51 | locks are taken at rising levels, except tracks of one room after the room itself and the session a join inserts after the one it ends, and no row twice |
| `LockProtocol.OnlyRoomHolderWaitsWithTrack` | internal/infra/db/repositories/track_repository.go:100-114 | in every reachable state whoever waits while holding a track holds the track's room exclusively |
| `LockProtocol.NoDeadlock` | internal/usecase/propose_track.go:49-83 | the wait-for graph, waits behind earlier requests included, has no cycle in any reachable state |
| `LockProtocol.SomeoneCanProceed` | internal/usecase/add_vote.go:27-51 | following the waits of any transaction ends at one that can take its next step |
| `Hub.Client.TrySend` | internal/infra/ws/hub.go:79-84 | a send that does not block, on an open channel only |
| `Hub.Client.Close` | internal/infra/ws/client.go:45-55 | closes once, however often it is called |
| `Hub.Client.Receive` | internal/infra/ws/client.go:93-97 | messages come out in the order they went in, and a closed channel is drained |
| `Hub.RoomHub.RegisterPending` | internal/infra/ws/hub.go:26-30 | the client is registered and not active |
| `Hub.RoomHub.Activate` | internal/infra/ws/hub.go:32-49 | a registered client gets the request to synchronise and becomes active; any other is closed |
| `Hub.RoomHub.Unregister` | internal/infra/ws/hub.go:51-56 | the client is gone and closed |
| `Hub.RoomHub.DisconnectSession` | internal/infra/ws/hub.go:58-71 | exactly the session's clients leave and are closed |
| `Hub.RoomHub.Broadcast` | internal/infra/ws/hub.go:73-91 | every active client with room gets the message, every other active client is removed and closed, pending ones get nothing |
| `Hub.Registry.HubOf` | internal/infra/ws/hub.go:108-117 | one hub per room, created on first use and kept |
| `Hub.Registry.DisconnectSession` | internal/infra/ws/hub.go:148-152 | exactly the session's clients leave the room and are closed |
| `Hub.Registry.Broadcast` | internal/infra/ws/hub.go:154-176 | the active clients left in the room have got the message, all others what they had, and who left is closed |
| `Hub.Registry.Handshake` | internal/infra/ws/handler.go:55-66 | undisturbed, the socket ends up active with one message, or unregistered and closed |
| `HubSystem.StepKeepsInv` | internal/infra/ws/hub.go:26-91 | every step of any goroutine keeps the invariants of all sockets |
| `HubSystem.StreamsHaveNoGaps` | internal/infra/ws/hub.go:26-91 | over every run, what was ever enqueued to a socket is nothing if it was never active, and otherwise the request to synchronise and exactly the hub's broadcasts from the step that activated it to the last state before a step removed it, or to the present |
| `HubSystem.OverflowRemoves` | internal/infra/ws/hub.go:73-91 | in every state a full buffer removes the socket instead of losing a message, and pending sockets get nothing |
| `HubSystem.HubMembersAreOpen` | internal/infra/ws/hub.go:32-91 | every registered socket is open, no channel is closed twice, and whatever left the hub is closed or about to be |
| `HubSystem.ConfirmedSocketsAreCovered` | internal/infra/ws/handler.go:55-66 | a registered socket past its second check belongs to an active session or its disconnection is in flight |
| `HubSystem.ChecksAskForSession` | internal/infra/ws/handler.go:29-63 | a socket appears, and passes its second check, only while its session is active |
| `HubSystem.DisconnectEffect` | internal/infra/ws/hub.go:58-71 | a disconnection takes all sockets of its session out of the hub, pending ones too, each to be closed, and leaves all others alone |
| `HubSystem.ActivateEffect` | internal/infra/ws/hub.go:32-49 | a registered socket with room becomes active with the request to synchronise; any other ends outside the hub, to be closed, with nothing |
| `HubSystem.EndedSessionStaysOut` | internal/usecase/sessions.go:29-33 | once a session's disconnections have run, none of its sockets is active or becomes active without a new join |
| `LiveSessions.SocketsGoByTables` | internal/usecase/auth.go:16-31 | with use cases and hub steps interleaved, the sessions the handshakes accept are exactly those joined to the room in the tables |
| `LiveSessions.ActiveSocketsAreJoined` | internal/infra/ws/handler.go:55-66 | with use cases and hub steps interleaved, an active socket belongs to a session joined to the room in the tables or its disconnection is on its way |
| `LiveSessions.LeaveDisconnects` | internal/usecase/sessions.go:29-33 | after a leave the session is left in the tables, its handshakes are no longer accepted, and its disconnection is on its way |
| `LiveSessions.SwitchDisconnects` | internal/usecase/join_room.go:72-112 | the same after an accepted join of another room |
| `QueueFeed.ActiveClientsCatchUp` | docs/websocket.md:9-17 | in every interleaving of use cases, hub steps, late broadcasts and reads, the client of an active socket that has read since it was asked to synchronise holds the last committed version once that has been broadcast and taken from its channel, and the last snapshot itself if all it read is older and no other snapshot has that version |
| `QueueFeed.AnnouncedAreCommitted` | internal/usecase/recalculate_queue.go:65-72 | what is left to broadcast is one snapshot per committed rewrite, and the last one is alone with its version if and only if the last rewrite did not lose its reading |
| `Scheduler.QueueRecalculator.RunDue` | internal/infra/scheduler/queue_recalc.go:52-84 | one tick attempts the due rooms in order, stops early when cancelled, and forgets unlisted rooms after a full pass only |
| `Scheduler.TickEffect` | internal/infra/scheduler/queue_recalc.go:61-78 | a listed room is attempted exactly if it was looked at before a cancellation and was never attempted or its interval ago, ten seconds if that is not positive; then the attempt is remembered, otherwise what was remembered |
| `Scheduler.UnlistedEffect` | internal/infra/scheduler/queue_recalc.go:79-83 | a room that is not listed is not attempted, and is forgotten exactly after a full pass |
| `Scheduler.AttemptedInOrder` | internal/infra/scheduler/queue_recalc.go:61-78 | rooms are attempted in listed order, each once |
| `Scheduler.AttemptedIffDue` | internal/infra/scheduler/queue_recalc.go:61-78 | in a pass each listed room is attempted if and only if it was due at its start |
| `Scheduler.TrackedAreListed` | internal/infra/scheduler/queue_recalc.go:79-83 | after a full pass exactly the listed rooms are tracked |
| `Scheduler.RoomsKeepTheirPace` | internal/infra/scheduler/queue_recalc.go:66-74 | a listed room is attempted on its first tick, then at least its interval and less than interval plus largest tick gap apart, failures included |
| `Scheduler.AttemptedSoonAfter` | internal/infra/scheduler/queue_recalc.go:61-78 | from any moment on a listed room is attempted within less than its interval plus the largest tick gap |
| `Freshness.QueueCatchesUp` | internal/infra/scheduler/queue_recalc.go:52-84 | from any moment on after which only its own batches change what a room's ranking depends on, one of them commits within interval, tick gap and batch time, and afterwards the queue stays up to date if and only if that batch does not skip on an entry that hides the last rewrite |
| `Scheduler.ListedIntervalsAreUsed` | internal/infra/db/repositories/room_repository.go:60-75 | in every reachable state exactly the rooms that are not closed are listed, each with a positive interval of its own, so the fallback interval is never used |
| `QrCodes.QrTable.RotateQRCode` | internal/infra/db/repositories/room_repository.go:90-99 | revokes the room's codes that expire after the transaction's start and adds the new one |
| `QrCodes.QrTable.CreateQRCode` | internal/usecase/manager_rooms.go:90-121 | validates the lifetime and the room, then rotates; a refusal changes nothing |
| `QrCodes.QrTable.GetByQRCode` | internal/infra/db/repositories/room_repository.go:77-88 | the room of an unrevoked code that expires after the transaction's start |
| `QrCodes.RotationEffect` | internal/infra/db/repositories/room_repository.go:90-99 | exactly the room's codes that expire after the start are revoked besides those that were, and the new one is added |
| `QrCodes.LookupEffect` | internal/infra/db/repositories/room_repository.go:77-88 | a look finds the room of a listed code that is neither revoked nor expired, and nothing exactly if there is none |
| `QrCodes.RevokedIff` | internal/infra/db/repositories/room_repository.go:91-94 | a code is revoked if and only if a later rotation of its room started before it expired |
| `QrCodes.AtMostOneValidCode` | internal/infra/db/repositories/room_repository.go:90-99 | at every instant a room has at most one unrevoked unexpired code |
| `QrCodes.AdmittedIff` | internal/usecase/join_room.go:39-51 | the second look admits exactly joins that started before the expiry by codes that expired before every later rotation started |
| `QrCodes.RevokedCodeNeverAdmits` | internal/usecase/join_room.go:45-51 | a join that locks after a rotation is never admitted by a code it revoked |
| `QrCodes.OlderCodeNeverAdmitsLaterJoin` | internal/usecase/join_room.go:45-51 | a join started after a rotation is never admitted by any older code of the room |
| `QrCodes.EarlierJoinCanUseOlderCode` | internal/usecase/join_room.go:39-51 | a join started before a rotation can still be admitted by an older code that had just expired |
| `QrCodes.SecondLookIsStricter` | internal/usecase/join_room.go:35-48 | the first look refuses nothing the second would admit |

## Left out

- HTTP handlers, DTOs, middleware, configuration and bootstrap: plumbing around the use cases.
- The Spotify client, search and its cache, track metadata: a track is an opaque catalogue id, and the fingerprint does not cover metadata.
- Presence counts, statistics, heartbeats and `presence_updated` broadcasts: single statements that the queue does not depend on.
- Trimming of names and nicknames, token and track-id formats, slugs and manager secrets.
- Network failures, ping and pong deadlines, goroutine scheduling: a pump may end at any step, and a message may be taken from a channel at any step.
- Ambiguous commit failures and process crashes between a commit and what follows it.
- Rows that no code deletes or writes: sessions and rooms are never removed, so the proposer is never set to null, and the track status `deleted`, set by no request, is not a status of the model.
- GetActiveDuplicate: returns the stored position, gaps included; it is not claimed to equal the position a reader sees.
- LoadNowPlaying: the ordering among several playing tracks is not modelled, because a room never has two.
- LoadSnapshot: the recalculation time of a row is kept at nanosecond resolution; clients do not see it.
- GetQueue: one consistent read, which the shared room lock provides.
- NoDeadlock: the key-share locks that foreign keys take on catalogue rows are left out, because they never conflict with a catalogue upsert; on other rows the transaction already holds a stronger lock, or takes one in the model at the same place.
- RunDue: the outcome of an attempt does not appear, because the code only logs it.
- HubSystem describes one room; rooms share neither hubs nor sockets nor sessions. Registry lookups are the steps `OpenHub` and `Locate`.
- UseCasesAreSerial: a use case looks at its room and at its session as wholes, any number of times, and computes its outcome when it commits; that the statements of `Bodies` compute that outcome one after the other is proved there, on tables that stand still. What is sent is covered, what is answered to the caller only through `Locality`.
- QueueCatchesUp: failing listings, failing batches and restarts of the scheduler are not part of it.
- ActiveClientsCatchUp: a client that loses its socket starts again with a new one; content is compared only for snapshots that are newer than everything the client has read.
- `docs/schema.sql` repeats the migration and is not modelled separately.
