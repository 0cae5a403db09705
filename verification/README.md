# Emeeting, verified

A Dafny model of the stateful cores of the emeeting repository, with proofs of what those cores keep over
whole runs. `dafny verify dfyconfig.toml` checks everything.

## What is modelled

**The live meeting room.** The Go backend keeps six linked tables about its sockets (session members, write
locks, join metadata, connection roles, connection users, analysis subscribers) and three persistent ones
(session status, participant rows, an append-only audit log), plus the chat table. Browsers never see these
tables; each one rebuilds the list of participants from broadcasts and snapshots.

| file | contents |
|---|---|
| `Wire`, `Hub`, `Meeting`, `Chat`, `Server`, `Client` | the message format; `SessionHub`, the meeting service and repository, the chat repository, the socket handler and the browser's store, each as a class whose methods are proved to do what a function on table values says |
| `Room` | server and browsers together as a transition system: connect, receive, disconnect, deliver, and the separately locked halves of analysis attach and detach |
| `Bookkeeping`, `Orphans`, `Agreement`, `Replicas`, `MeetingLife`, `Locality` | what every run keeps, and exactly which steps break it |
| `Broadcasts`, `MeetingSteps` | exactly what each step says to whom, and exactly which steps change statuses, rows and what is tracked about a socket |
| `Scenario` | concrete runs: one that meets all assumptions of replica agreement, and one for each way a guarantee fails |

**Report aggregation.** The Python gateway keeps a bounded buffer of feature rows per session
(`FeatureStore`) and computes from it time buckets with a trace index (`Features`, `Fusion`) and several
overlapping emotion views (`StubReport`, `EmotionViews`, `EmotionTotals`); `ErrorCounters` attributes errors
to reports.

**Authentication over time.** `RefreshTokens` and `Rotation` (token rotation as a linked structure in a
table), `Lockout` (password attempts), `RateLimit` (login requests per address).

**Signal path state machines.** `Breaker` (retry and circuit breaker of the speech client), `AsrWindow`
(sliding transcription window), `FaceBox` (box clamping and smoothing).

`Outcomes`, `Tally` and `Sorting` hold shared types, counting and sums over finite sets, and sorting.

## Reading the model

* A class method states its whole effect as a function of the old tables; the lemmas are about those functions.
* Lemmas named `...Exactly` say when each outcome occurs, in terms of inputs, stored rows or the history of calls
  alone, with the constants written out.
* `Run` is the state after a list of actions, each possible in its turn; theorems about runs hold for every list.
* Outcomes of code that is not modelled (whether a password fits, what an HTTP attempt or the recogniser
  returns, clock readings, fresh random tokens, which entry a map scan finds first) are arguments, and every
  value of them is covered.
* A browser may come with anything already on its screen, and reads its socket whenever it likes.

Assumptions about the room: handlers run one at a time (the code takes its locks one after the other inside a
handler, so agreement and status claims need this); database writes succeed except for the unique-index and
foreign-key outcomes, which are modelled; the meeting service and the chat repository are wired.

## Where the code does less than it seems to promise

Each of these is an exact condition together with an input, or a run from the start, that shows the failing side.

* **Rosters.** A browser that was on its way to the server's roster still is after a step exactly when the step
  meets `StepOk` (`Replicas.StepExactly`). Broken by: a `leave` without the sender's participant id, two
  sockets under one id when one leaves, a rejoin under another id, an untrimmed id, and clients relaying
  messages typed like server events. `Scenario.UnnamedLeave` and `Scenario.LookAlike` are runs of the first and the
  last kind.
* **Empty rosters.** The snapshot of an empty roster is JSON `null`, which the browser ignores: after a join without
  an id it shows the roster exactly when it was going to show nothing and the id was empty
  (`Scenario.EmptyRosterExactly`); `Scenario.StaleScreen` is a run where it does not.
* **Orphan rows.** An active participant row loses its live, named socket exactly by a join without a
  participant id on a socket that never named one (`Orphans.OrphansExactly`, `Scenario.OrphanLeft`).
* **Analysis sockets.** A `join` with an id from an analysis connection is the one message that leaves join metadata
  without an owner (`Bookkeeping.MetaExactly`, `Scenario.OwnerlessMeta`).
* **Login limiter.** Documented as 5 attempts per minute; up to 9 can get through in one minute, and never more
  (`RateLimit.NineAttained`, `RateLimit.MinuteBound`). A minute lets more than five through exactly when a window
  opens inside it and the shares of that window and an earlier one exceed five (`RateLimit.MoreThanFiveExactly`).
* **Face boxes.** Documented as the intersection with the frame; it is so exactly when no axis is cut before zero
  without reaching the far edge (`FaceBox.ClampIntersects`, `FaceBox.ClampMoves`). A smoothed box can stick out by
  one pixel, never more (`FaceBox.SmoothedNearFrame`): it stays inside exactly as long as no step is a double tie
  that fills the frame, which cannot happen on frames of even size (`FaceBox.InsideExactly`,
  `FaceBox.EvenFramesKeep`, `FaceBox.EdgeExceeded`).
* **Transcripts.** Partial texts of a segment never repeat consecutively, but the final text repeats the last
  partial one exactly when the recogniser says the same again (`AsrWindow.FinalRepeats`,
  `AsrWindow.RepeatedEnding`). The samples missed at the start are always fewer than one chunk exactly when the
  window is a whole number of samples (`AsrWindow.GapUnderExactly`, `AsrWindow.WholeChunkMissed`).
* **Refresh tokens.** Expiry never decreases along a chain exactly when no rotation read a clock behind the one
  its token was made by (`Rotation.ExtendingExactly`, `Rotation.ClockBack`).
* **Error attribution.** Reports charge exactly what a counter gained exactly when it never fell between reports
  (`ErrorCounters.ChargesTelescope`, `ErrorCounters.CounterFell`).

## Model

| member | source | states |
|---|---|---|
| Replicas.ReplicasAgree | code/emeeting-backend/internal/session/ws_handler.go:60-131 | In every state reachable while each browser speaks under one tidy id of its own, every browser that was sent a roster shows, once it has read its unread messages in order, exactly the server's participants under their names |
| Scenario.PoliteRun | code/emeeting-backend/internal/session/ws_handler.go:60-104 | The discipline of replica agreement can be met: two browsers open their sockets and join, and both have been sent a roster |
| Scenario.UnnamedLeave | code/emeeting-backend/internal/session/ws_handler.go:105-131 | In a run from the start, one of two browsers leaves without its id and stays on the other's screen for good, though the roster no longer has it |
| Scenario.LookAlike | code/emeeting-backend/internal/session/ws_handler.go:230-240 | In a run from the start, one browser relays a message typed like a departure of the other, who vanishes from a screen while staying on the roster |
| Scenario.EmptyRosterExactly | code/emeeting-backend/internal/session/ws_handler.go:94-103 | After a join answered with an empty roster the sender is on its way to the roster if and only if it was going to show nobody and gave no id at all |
| Scenario.StaleScreen | code/emeeting-ui/src/features/meeting/handleMeetingEvent.ts:53-57 | A run in which a returning browser keeps showing somebody who is not in the room |
| Scenario.OrphanLeft | code/emeeting-backend/internal/session/ws_handler.go:60-92 | A run after which a known user has an active participant row and no socket under an id |
| Scenario.OwnerlessMeta | code/emeeting-backend/internal/session/ws_handler.go:441-453 | A run after which an analysis connection has join metadata in a session it is no member of |
| Replicas.StepExactly | code/emeeting-backend/internal/session/ws_handler.go:281-350 | A browser that is on its way to the roster still is after a step if and only if the step meets its message condition, for any message, any sender (analysis connections included) and any roster |
| Replicas.AlwaysAgreed | code/emeeting-backend/internal/session/ws_handler.go:230-240 | Agreement in every state reachable by steps that meet their conditions, through any mix of joins, renames, leaves and disconnects |
| Replicas.CaughtUp | code/emeeting-ui/src/features/meeting/handleMeetingEvent.ts:20-91 | A browser with nothing left to read shows the server's roster |
| Replicas.PoliteKeepsOwnIds | code/emeeting-backend/internal/session/ws_handler.go:374-422 | The one-id-per-browser discipline makes tracked ids and join metadata carry each browser's own id after every step |
| Agreement.JoinExactly | code/emeeting-backend/internal/session/ws_handler.go:60-90 | After a join, roster and announced names agree if and only if the id is trimmed, leaves no other id behind and contradicts nobody's name |
| Agreement.LeaveExactly | code/emeeting-backend/internal/session/ws_handler.go:105-131 | After a leave they agree if and only if the id named is the sender's and nobody else's |
| Agreement.UnnamedLeaveBreaks | code/emeeting-backend/internal/session/ws_handler.go:105-131 | A leave that names nobody leaves the departed on every screen, unless another socket holds the id |
| Agreement.RelayExactly | code/emeeting-backend/internal/session/ws_handler.go:230-240 | A relayed message typed like a server event is harmless if and only if it says nothing new |
| Agreement.SnapshotMirrors | code/emeeting-backend/internal/session/hub.go:80-114 | What a browser makes of a snapshot is exactly the roster, whatever order the metadata was scanned in |
| Agreement.JoinHeard | code/emeeting-backend/internal/session/ws_handler.go:78-103 | Which messages of a join each socket gets, and their combined effect on the names it shows |
| Agreement.FarewellHeard | code/emeeting-backend/internal/session/ws_handler.go:298-327 | The deferred goodbye is heard as one departure by the members of the session and by nobody else |
| Client.ReducedNames | code/emeeting-ui/src/features/meeting/useMeetingStore.ts:27-59 | The names a browser shows follow the messages alone; emotions, face signals and toasts never influence them |
| Client.ShownExactly | code/emeeting-ui/src/features/meeting/handleMeetingEvent.ts:28-90 | After a message an id is shown under a name if and only if the message lists it last so, or says that it has come so, or says nothing about it and it was |
| Client.ToastsExactly | code/emeeting-ui/src/features/meeting/handleMeetingEvent.ts:28-90 | Which messages make news, with what text, and that the last three are kept |
| Client.SnapshotTiles | code/emeeting-ui/src/features/meeting/useMeetingStore.ts:41-55 | After a snapshot exactly the ids listed are shown, each under its last name and with the emotion data it had, or neutral data where it had none |
| Client.MeetingStore.HandleMeetingEvent | code/emeeting-ui/src/features/meeting/handleMeetingEvent.ts:20-91 | The new store is the reduction of the old one by the message, for every message type and malformed payload |
| Client.MeetingStore.ReplaceParticipantsFromSnapshot | code/emeeting-ui/src/features/meeting/useMeetingStore.ts:41-55 | The loop rebuilds the participants from the list alone, keeping emotion data of ids that were there |
| Bookkeeping.MetaExactly | code/emeeting-backend/internal/session/hub.go:53-78 | All join metadata keeps an owner, a member of its session tracked under an id, over a step if and only if it is not a join with an id from an analysis connection |
| Bookkeeping.BookAlways | code/emeeting-backend/internal/session/hub.go:118-187 | In every reachable state, whatever anybody sends, no inner map is empty, stored ids are trimmed, members, roles and users are exactly those of live sockets, and every member and subscriber has a write lock |
| Bookkeeping.MetaAlways | code/emeeting-backend/internal/session/hub.go:53-78 | In every state reachable without joins from analysis connections all join metadata has its owner |
| Bookkeeping.PhaseKeepsLocks | code/emeeting-backend/internal/session/hub.go:118-147 | Between the separately locked halves of attach and detach, too, every subscriber has a write lock and nothing waits for a socket without one |
| Bookkeeping.GoneIsForgotten | code/emeeting-backend/internal/session/ws_handler.go:258-350 | Once a session's last connection has gone no table mentions it, and no table mentions a connection that has gone |
| Locality.StepLocal | code/emeeting-backend/internal/session/hub.go:189-206 | A step in one session, whoever takes it, leaves members, roster, roles, status, active users, screens and unread messages' effect of every other session unchanged |
| Orphans.OrphansExactly | code/emeeting-backend/internal/session/ws_handler.go:281-350 | Every active participant row keeps a live socket of its user tracked under an id, over a step, if and only if the step is not a blank join |
| Orphans.NeverOrphans | code/emeeting-backend/internal/session/meeting_wire.go:45-105 | No orphaned participant row in any state reachable without blank joins; the user binding outlives the deferred leave |
| MeetingLife.MeetingLifeOnce | code/emeeting-backend/internal/session/meeting_wire.go:70-164 | Over any run the audit log replays to the stored status link by link, and host_started and meeting_ended are announced at most once each, in that order, exactly as the status changes |
| MeetingLife.FinalStays | code/emeeting-backend/internal/meeting/service.go:61-87 | From any state on, an ended or cancelled meeting keeps its status and announces nothing more |
| MeetingLife.RowsAccounted | code/emeeting-backend/internal/meeting/repository.go:53-104 | Over any run a user has at most one active row per session, left_at is set exactly on inactive rows, and rows created less departures logged is one if the user is active and zero otherwise |
| MeetingLife.ChatOnce | code/emeeting-backend/internal/session/ws_handler.go:196-228 | Each client id of a session is stored and broadcast at most once, and broadcast exactly when stored |
| MeetingLife.RunKeeps | code/emeeting-backend/internal/session/ws_handler.go:242-454 | What holds between the server's records at two moments of any run, whatever anybody sends |
| MeetingLife.ReplayShape | code/emeeting-backend/internal/meeting/service.go:33-87 | A log that replays passes through active and ended at most once each |
| Meeting.EvolvesTrans | code/emeeting-backend/internal/meeting/repository.go:25-51 | The account of a stretch of time composes: log prefix, replay, row balance and write-once times |
| Meeting.JoinEvolves | code/emeeting-backend/internal/meeting/service.go:89-112 | A join keeps the replay of every session, the one-active-row rule and everybody's row balance |
| Meeting.LeaveEvolves | code/emeeting-backend/internal/meeting/service.go:114-130 | A leave keeps them too, and leaves the user without an active row even when it fails |
| Meeting.CloseCounts | code/emeeting-backend/internal/meeting/repository.go:84-104 | Closing one user's rows changes nobody else's active rows and nobody's row count |
| Meeting.Service.StartMeeting | code/emeeting-backend/internal/meeting/service.go:33-59 | No error if and only if the session is created or paused; it is then active, with the first start time kept and one event appended; otherwise an error that names the status or says there is no session, and changes nothing |
| Meeting.Service.EndMeeting | code/emeeting-backend/internal/meeting/service.go:61-87 | No error if and only if the session is created, active or paused; it is then ended, with the first end time kept and one event appended; otherwise an error that changes nothing |
| Meeting.Service.Join | code/emeeting-backend/internal/meeting/service.go:89-112 | An active user gets no second row; otherwise a row is added if the session exists; an event either way, and an error changes nothing |
| Meeting.Service.Leave | code/emeeting-backend/internal/meeting/service.go:114-130 | All active rows of the user are closed and one event appended, or an error with the tables unchanged when there is none |
| Meeting.Service.RequireRole | code/emeeting-backend/internal/meeting/service.go:140-151 | The check of the stored rows: no error only when an active row of the user has an allowed role |
| Meeting.RoleExactly | code/emeeting-backend/internal/meeting/service.go:140-151 | With one active row a user, no error if and only if its role is allowed, not-participant if and only if there is none, and otherwise the error that names its role |
| Meeting.JoinExactly | code/emeeting-backend/internal/meeting/service.go:89-112 | A join fails if and only if the user has no active row and the session does not exist; otherwise it is logged and a user without an active row gets one |
| Meeting.LeaveExactly | code/emeeting-backend/internal/meeting/service.go:114-130 | A leave fails if and only if the user has no active row; otherwise exactly the active rows of the user are closed at its time, and it is logged |
| MeetingSteps.StatusExactly | code/emeeting-backend/internal/session/meeting_wire.go:54-164 | In any state of any run a step changes a session's status if and only if it is a known user's join as host to a created session, which makes it active, or the end of a created, active or paused one by an active host or co-host or by the last host's socket going; and exactly such a change is announced |
| MeetingSteps.RowsExactly | code/emeeting-backend/internal/session/meeting_wire.go:54-105 | A join by a known user adds a row with this name, role and time unless there is an active one, a leave or the going of a tracked socket closes the user's active rows, and no other step touches a row |
| MeetingSteps.TrackedExactly | code/emeeting-backend/internal/session/ws_handler.go:382-405 | In every reachable state each socket is tracked under the id, name and role it has itself last given, the first two forgotten by a leave |
| MeetingSteps.OpenerExactly | code/emeeting-backend/internal/session/meeting_wire.go:27-52 | In every reachable state each socket acts for the user it was opened by |
| Hub.SessionHub.ParticipantSnapshot | code/emeeting-backend/internal/session/hub.go:80-114 | One entry per non-empty participant id, ascending, complete, each under the name of some connection that joined with it |
| Hub.SessionHub.Broadcast | code/emeeting-backend/internal/session/hub.go:189-206 | Every member with a write lock gets the message once; audio and frame messages also reach every analysis subscriber, renumbered to the session |
| Hub.DeliveredExactly | code/emeeting-backend/internal/session/hub.go:149-223 | A broadcast leaves each socket with one unread message more if it is a member with a write lock, and with the message under the session's own id if it is audio or a frame from a client and the socket is an analysis subscriber with a write lock; nothing else changes |
| Broadcasts.SaidExactly | code/emeeting-backend/internal/session/ws_handler.go:60-131 | Everything a step broadcasts, in order: a join with its announcement and the start it causes, a leave or the going of a socket with its announcement and the end it causes, a stored chat line, any other message as it is |
| Broadcasts.WrittenExactly | code/emeeting-backend/internal/session/hub.go:189-223 | What every socket has to read after a step: what it had, its part of what was broadcast, and the roster if it joined |
| Broadcasts.FeedHears | code/emeeting-backend/internal/session/hub.go:149-163 | In any state of any run an attached analysis subscriber is sent exactly the audio and frame messages of clients, each under its session, and the roster if it joins itself |
| Hub.SessionHub.Remove | code/emeeting-backend/internal/session/hub.go:165-187 | The connection leaves metadata, members and locks, and emptied inner maps go with it |
| Hub.SessionHub.RemoveConnJoinMeta | code/emeeting-backend/internal/session/hub.go:65-78 | The connection's metadata goes, and an emptied inner map with it |
| Server.Handler.Join | code/emeeting-backend/internal/session/ws_handler.go:60-104 | Metadata, both announcements, the participant row, a possible start of the meeting, and a fitting roster to the sender, in this order |
| Server.Handler.Leave | code/emeeting-backend/internal/session/ws_handler.go:105-131 | Metadata and row first, then both announcements, under the id the message gives |
| Server.Handler.ChatMessage | code/emeeting-backend/internal/session/ws_handler.go:196-228 | Exactly the lines the chat table takes are relayed, trimmed, under their client id |
| Server.Handler.MeetingJoin | code/emeeting-backend/internal/session/meeting_wire.go:54-92 | Only known users get rows; a host joining a created meeting starts it and announces it |
| Server.Handler.MeetingEnd | code/emeeting-backend/internal/session/meeting_wire.go:107-133 | Only an active host or co-host ends the meeting |
| Server.Handler.Receive | code/emeeting-backend/internal/session/ws_handler.go:374-422 | The loop tracks id, name and role before the message is dispatched to the session the socket belongs to |
| Server.Handler.Disconnect | code/emeeting-backend/internal/session/ws_handler.go:281-350 | Role removed, goodbye and row closed while the user is still bound, meeting ended if a host left no co-host, hub tables and user binding cleared last |
| Chat.Repository.ListRecent | code/emeeting-backend/internal/chat/repository.go:77-122 | The descending query and the in-place reversal return the last rows of the session, as many as the limit clamped to 1..200, oldest first |
| Chat.NewestIsSuffix | code/emeeting-backend/internal/chat/repository.go:86-120 | Newest first under a limit, reversed, is the suffix of the session's rows in insertion order |
| Chat.AppendKeepsSound | code/emeeting-backend/internal/chat/repository.go:44-75 | Ids stay ascending and no two rows of a session share a client id |
| Chat.ResendIsDuplicate | code/emeeting-backend/internal/chat/repository.go:68-71 | An accepted client id is never accepted again in its session, whatever else the resend says |
| Chat.InsertedExactly | code/emeeting-backend/internal/chat/repository.go:44-75 | A line is stored if and only if it is not blank, the session exists and its trimmed client id is empty or new to the session; what is stored, and that a duplicate is exactly a known client id |
| Chat.SessionRows | code/emeeting-backend/internal/chat/repository.go:86-92 | The rows of a session are all and only those with its number, in the order of their ids |
| Fusion.ComputeFusionMeta | code/ai-gateway/modules/report/windowing.py:9-69 | The trace index and the buckets are complete, exact and strictly ascending, stated over the rows |
| Fusion.FusionOrderFree | code/ai-gateway/modules/report/windowing.py:9-69 | Any two orders of the same rows give the same meta |
| Fusion.OneBucketEach | code/ai-gateway/modules/report/windowing.py:25-43 | Each row lies in exactly one bucket, its participant's, with index*size <= ts < (index+1)*size |
| Fusion.TracesAgree | code/ai-gateway/modules/report/windowing.py:15-20 | A participant's trace list is the union of that participant's bucket trace lists |
| Fusion.KindsConserved | code/ai-gateway/modules/report/windowing.py:44-46 | Bucket kind counts add up to the number of rows with a textual kind |
| Features.KeyInjective | code/ai-gateway/modules/report/windowing.py:31-33 | The bucket key separates participant and index even when the participant id contains the separator |
| Features.BucketBounds | code/ai-gateway/modules/report/windowing.py:31-31 | The floor quotient is the one index whose interval holds the time |
| Features.ReadExactly | code/ai-gateway/modules/report/windowing.py:16-50 | How kind, participant, trace and time are read from every kind of field value |
| StubReport.AcceptedExactly | code/ai-gateway/modules/report/stub_builder.py:96-120 | A row counts as an emotion if and only if its kind is face and the face features it carries do not deny a face and name a dominant emotion that is a text and not blank |
| StubReport.Tabulate | code/ai-gateway/modules/report/stub_builder.py:76-157 | The one pass leaves, in every cell of the nested tables, the number of rows that belong there, and no empty inner table |
| StubReport.TopKCounts | code/ai-gateway/modules/report/stub_builder.py:31-39 | At most k entries, descending, without repeats, with the right counts, and nothing left out that counts more than something listed |
| StubReport.TopKTotal | code/ai-gateway/modules/report/stub_builder.py:31-39 | The cut totals at most the table, and exactly the table if and only if it has at most k keys |
| EmotionViews.BuildStubReport | code/ai-gateway/modules/report/stub_builder.py:206-383 | Summary, tiles, rollup, top list and timelines, each stated over the rows |
| EmotionViews.Timeline | code/ai-gateway/modules/report/stub_builder.py:266-306 | The last 20 of a participant's buckets in time order, with exact counts and a most frequent emotion each |
| EmotionTotals.EmotionsConserved | code/ai-gateway/modules/report/stub_builder.py:96-120 | Summary, tiles and rollup all total the accepted face rows; the top-8 list does if and only if at most 8 emotions occur, and the timelines if and only if every accepted row has a numeric time and no participant exceeds 20 buckets |
| EmotionTotals.TimelinesConserve | code/ai-gateway/modules/report/stub_builder.py:266-306 | The timeline half of the above, with its exact condition also for a disabled bucket size |
| EmotionTotals.TimelineTotal | code/ai-gateway/modules/report/stub_builder.py:282-285 | A participant's timeline misses nothing if and only if no bucket was cut |
| EmotionTotals.TilesConserve | code/ai-gateway/modules/report/stub_builder.py:336-376 | The tiles total the accepted face rows, each participant counted once |
| FeatureStore.QueueIsSuffix | code/ai-gateway/feature_store.py:19-38 | After any history of pushes a session's queue is the last 512 of its own pushes in order |
| FeatureStore.FeatureStore.Push | code/ai-gateway/feature_store.py:35-38 | The store stays what replaying the whole history of pushes gives, one push longer |
| FeatureStore.FeatureStore.SnapshotSession | code/ai-gateway/feature_store.py:40-45 | A snapshot is exactly the last min(512, n) pushes of the session in order |
| FeatureStore.FeatureStore.SessionIds | code/ai-gateway/feature_store.py:47-49 | The sessions ever pushed to, ascending |
| ErrorCounters.ChargesTelescope | code/ai-gateway/report_loop.py:248-250 | All reports of a run together charge a counter's gain from the first report to the last if and only if it never fell between reports |
| ErrorCounters.ErrorsChargedOnce | code/ai-gateway/modules/report/data_quality.py:18-58 | With counters that only grow, a report leaves every error since the first report charged to exactly one report, whatever session |
| ErrorCounters.CounterFell | code/ai-gateway/modules/report/data_quality.py:21-22 | A run in which a counter falls between two reports and the charges miss what it lost |
| ErrorCounters.GainsTelescope | code/ai-gateway/modules/report/data_quality.py:21-22 | Clamped differences sum to at least the overall gain, and to exactly it if and only if no reading falls |
| ErrorCounters.AugmentReportDataQuality | code/ai-gateway/modules/report/data_quality.py:24-59 | A report is complete exactly when no speech or face errors were gained, names its degraded sources in order, and lists exactly the notes whose counters gained, in order |
| ErrorCounters.SilentExactly | code/ai-gateway/modules/report/data_quality.py:27-51 | There are no notes if and only if none of the six counters gained anything |
| ErrorCounters.ReportLoop.SendReport | code/ai-gateway/report_loop.py:222-285 | A closed socket changes nothing; otherwise the readings are remembered and the report's own counter moves after it was built |
| ErrorCounters.ReportLoop.Tick | code/ai-gateway/report_loop.py:301-319 | One report for each enabled target session, in order |
| RefreshTokens.Service.Refresh | code/emeeting-backend/internal/auth/service.go:107-144 | Reply and table for unknown, revoked, expired, colliding and unsignable cases and for success; when each occurs is stated by the next two rows |
| Rotation.RefreshExactly | code/emeeting-backend/internal/auth/service.go:113-144 | After any calls a refresh succeeds if and only if a row with the token's hash is unrevoked and not past its expiry, its user exists, the new hash is not in the table and the access token can be signed; each error has exactly its own cause |
| Rotation.RefreshEffect | code/emeeting-backend/internal/auth/service.go:121-137 | A refresh that stores anything revokes exactly the token's row in favour of a new one of the same user, good for seven days, and logs the user; any other changes nothing |
| Rotation.IssueExactly | code/emeeting-backend/internal/auth/service.go:146-164 | An issue stores one row, good for seven days, if and only if the user exists and the hash is new, and succeeds if and only if the access token can be signed as well |
| Rotation.RevokedInTime | code/emeeting-backend/internal/auth/service.go:117-119 | Over any run no token is rotated after it has expired |
| RefreshTokens.Service.IssueTokens | code/emeeting-backend/internal/auth/service.go:146-164 | A row for an existing user under a hash not yet in the table, or an error that stores nothing; a signing failure comes after the row is stored |
| Rotation.RunLinked | code/emeeting-backend/internal/auth/repository.go:137-189 | After any calls a row is revoked exactly when replaced, by a later row of the same user, and no two rows are replaced by the same one |
| Rotation.SameTailSameChain | code/emeeting-backend/internal/auth/service.go:121-130 | Following the links always stops, and two rows end at the same row if and only if one was rotated into the other: chains never merge |
| Rotation.OneChainEach | code/emeeting-backend/internal/auth/service.go:121-130 | Every unrevoked row ends exactly one chain, from exactly one issued row |
| Rotation.TokensAccounted | code/emeeting-backend/internal/auth/service.go:107-164 | Over any run a user's unrevoked tokens are as many as the user's stored issues, and the revoked ones as many as the logged refreshes |
| Rotation.RotatesOnce | code/emeeting-backend/internal/auth/service.go:113-119 | A token that was rotated never does anything again, in any continuation |
| Rotation.ExtendingExactly | code/emeeting-backend/internal/auth/service.go:127-130 | Expiry never decreases along any link of a run if and only if no rotation read a clock behind its token's |
| Rotation.MonotoneExtends | code/emeeting-backend/internal/auth/service.go:127-130 | With a clock that never goes back expiry never decreases along whole chains |
| Rotation.ClockBack | code/emeeting-backend/internal/auth/service.go:113-130 | A run with a clock that went back, whose second token expires before the first one would have |
| Lockout.Service.Authenticate | code/emeeting-backend/internal/auth/service.go:41-105 | Reply and stored account for blank input, unknown or inactive user, lock, failure, lock after ten failures, success with reset and rehash; when each occurs is stated by the next three rows |
| Lockout.LoginFromHistory | code/emeeting-backend/internal/auth/service.go:41-105 | Over any run from a clean active account a login succeeds if and only if it is not blank, the password fits, and not ten or more failures in a row precede it, the last of them less than 15 minutes ago; attempts while locked out do not count |
| Lockout.LoginExactly | code/emeeting-backend/internal/auth/service.go:41-79 | In any state a login succeeds if and only if the input is not blank, the account exists and is active, no lock is in force and the password fits; blank input has its own error |
| Lockout.LoginEffect | code/emeeting-backend/internal/auth/service.go:58-105 | What a compared password leaves behind: the logged outcome, and after a success no failures and no lock, after a failure one more and a lock of 15 minutes from the tenth on |
| Lockout.LockoutBound | code/emeeting-backend/internal/auth/service.go:54-76 | In any run without a successful login, from any state, at most ten comparisons plus one per 15 minutes happen within a horizon from the tenth |
| Lockout.FailuresSpaced | code/emeeting-backend/internal/auth/repository.go:99-127 | From the tenth failed comparison on, each is a full lock period after the one before |
| Lockout.LockHolds | code/emeeting-backend/internal/auth/service.go:54-56 | While locked nothing is compared and nothing about the account changes, over any run of attempts |
| RateLimit.Limiter.Handle | code/emeeting-backend/middleware/ratelimit.go:23-51 | Only login requests count; the window and the verdict of each request |
| RateLimit.RunWindowed | code/emeeting-backend/middleware/ratelimit.go:29-44 | Requests that get through come in windows of at most five, each opened by a request more than a minute after the window before |
| RateLimit.BlockedExactly | code/emeeting-backend/middleware/ratelimit.go:23-51 | After any monotone run a request gets through unless it is a login and the last login of its address to get through was the fifth of a window opened at most a minute ago |
| RateLimit.MinuteBound | code/emeeting-backend/middleware/ratelimit.go:29-50 | At most nine login requests of an address get through in any closed minute of any monotone run |
| RateLimit.NineAttained | code/emeeting-backend/middleware/ratelimit.go:29-50 | A run in which nine do, so the documented five per minute and the bound of ten are both not exact |
| RateLimit.MoreThanFiveExactly | code/emeeting-backend/middleware/ratelimit.go:29-50 | A minute lets more than five through if and only if a window opens after its start and within it, and the shares of that window and of an earlier one exceed five together |
| RateLimit.FiveFromOpening | code/emeeting-backend/middleware/ratelimit.go:38-44 | The minute that starts with a request opening its window lets at most five through |
| Breaker.SpeechService.TranscribeAudioChunk | code/ai-gateway/adapters/speech_service.py:49-127 | Result, circuit, number of attempts, and total sleep backoff*(2^(attempts-1) - 1), for every sequence of attempt outcomes and also for negative retries and backoff |
| Breaker.FailureExactly | code/ai-gateway/adapters/speech_service.py:69-127 | A call fails if and only if the circuit is closed and all its retries+1 attempts end in retried errors; the circuit then counts one failure more, or opens for the set period but at least a second |
| Breaker.AnswerExactly | code/ai-gateway/adapters/speech_service.py:69-84 | A call answers if and only if the circuit is closed and an attempt it gets to, over retried errors and sleeps, is answered; the circuit is then reset |
| Breaker.RaisedExactly | code/ai-gateway/adapters/speech_service.py:69-127 | A call raises if and only if the circuit is closed and an attempt it gets to raises something not caught, or the sleep after it does; the circuit then stays as it was |
| Breaker.UntriedExactly | code/ai-gateway/adapters/speech_service.py:50-58 | An open circuit, and otherwise negative retries, are exactly the cases without an attempt, and change nothing |
| Breaker.BreakerRefinesHistory | code/ai-gateway/adapters/speech_service.py:77-123 | Over serial calls with fixed settings, their successes and failures told from their attempts: the counter is the failed calls since the last success or opening and below the threshold, openings times threshold never exceeds failed calls, and openings are at least the open period apart |
| Breaker.NoAttemptWhileOpen | code/ai-gateway/adapters/speech_service.py:50-58 | From an opening until its period is over no call to that base URL makes an HTTP attempt or changes the circuit |
| AsrWindow.Service.WhisperSync | code/speech-service/main.py:69-186 | Response, stream state and the samples heard, the last window of them, for rejected, waiting, running and final chunks; what the response is over a run is stated by the next row |
| AsrWindow.AnsweredExactly | code/speech-service/main.py:129-169 | After any calls a chunk is run if and only if it is final, or a window long and a step after the last one run; it is answered with its stripped text if and only if it is run and is final or says something other than last said; and the text is complete if and only if it is final and not blank |
| AsrWindow.SegmentDecides | code/speech-service/main.py:129-169 | A stream's state depends only on the accepted chunks since its last final one, whatever other streams do |
| AsrWindow.SegmentCovered | code/speech-service/main.py:135-169 | If step and chunk fit into the window, a finished segment's windows cover every sample after an initial gap of at most one chunk, shorter than one for a whole window |
| AsrWindow.FinishedCovered | code/speech-service/main.py:129-169 | The same for the service under any interleaving of streams: what it has heard of a stream when a final chunk arrives |
| AsrWindow.HeardIsRuns | code/speech-service/main.py:129-145 | The chunks of a stream the service runs the recogniser on are those its current segment alone calls for |
| AsrWindow.GapUnderExactly | code/speech-service/main.py:147-148 | The initial gap is under one chunk in every finished segment if and only if the window is a whole number of samples |
| AsrWindow.WholeChunkMissed | code/speech-service/main.py:147-148 | For every fractional window and every chunk size that fits, a segment whose first whole chunk is never transcribed |
| AsrWindow.RunsStepApart | code/speech-service/main.py:136-138 | Non-final runs of a segment are at least a step apart |
| AsrWindow.PartialsDiffer | code/speech-service/main.py:158-169 | No two consecutive non-empty partial texts that the service answers to the chunks of one segment are equal, under any interleaving of streams, and the last of them is the last text said |
| AsrWindow.RemembersSaid | code/speech-service/main.py:166-169 | The text kept for deduplication is the last non-blank one the recogniser made, whether or not it was put out |
| AsrWindow.FinalRepeats | code/speech-service/main.py:158-164 | A final chunk's answer repeats the last partial text put out if and only if the recogniser makes the same non-blank text of it as of the last chunk it was run on that was not blank |
| AsrWindow.RepeatedEnding | code/speech-service/main.py:158-164 | A segment that ends with the same text twice |
| FaceBox.ClampIntersects | code/ai-gateway/modules/face/region_util.py:16-35 | An accepted box is the given box cut to the frame if and only if no axis is cut before zero without reaching the far edge |
| FaceBox.ClampExactly | code/ai-gateway/modules/face/region_util.py:22-35 | A box is accepted as another if and only if that is the given one cut to the frame, no side under eight pixels, covering at most the given share of the frame, the share between 5% and 95% |
| FaceBox.ClampMoves | code/ai-gateway/modules/face/region_util.py:27-35 | A box wholly outside the frame that is accepted inside it |
| FaceBox.EmaBbox | code/ai-gateway/modules/face/region_util.py:38-50 | Each coordinate is the rounded weighted average of its two ends, in a loop over the four |
| FaceBox.BlendEdge | code/ai-gateway/modules/face/region_util.py:46-50 | Rounding start and length separately costs at most one pixel over the far edge |
| FaceBox.SmoothedNearFrame | code/ai-gateway/modules/face/analysis.py:346-356 | Over any run on frames of one size, whatever is detected, a smoothed box starts in the frame, has sides of at least 8 and ends at most one pixel outside |
| FaceBox.EdgeExactly | code/ai-gateway/modules/face/region_util.py:46-50 | From inside the frame an axis leaves it if and only if start and length are averaged to ties above odd integers that together fill the frame, which takes a frame of odd size |
| FaceBox.InsideExactly | code/ai-gateway/modules/face/analysis.py:436-446 | Over any run on frames of one size a face's box never leaves the frame if and only if no accepted detection is such a double tie with the box before it |
| FaceBox.EvenFramesKeep | code/ai-gateway/modules/face/analysis.py:436-446 | On frames of even size it never leaves the frame |
| FaceBox.EdgeExceeded | code/ai-gateway/modules/face/analysis.py:346-356 | Two accepted detections on an odd frame after which the remembered box ends one pixel outside |
| FaceBox.FaceModule.DebugBox | code/ai-gateway/modules/face/analysis.py:436-446 | A rejected box shows and changes nothing; an accepted one is smoothed against the last box of the same face and remembered |
| FaceBox.ShownExactly | code/ai-gateway/modules/face/analysis.py:436-446 | What is shown and remembered of a detection: nothing if refused, the clamped box if smoothing is off or no box of the face is remembered, otherwise in each coordinate the integer nearest to the average, even on a tie; no other face changes |
| FaceBox.BlendMoves | code/ai-gateway/modules/face/region_util.py:46-50 | Against a fixed target a coordinate strictly approaches it when alpha times the distance is over a half, and does not move when under a half |
| FaceBox.Approaches | code/ai-gateway/modules/face/region_util.py:46-50 | Its distance never grows, is at most 1/(2*alpha) after as many steps as the distance, and zero then if alpha exceeds a half |

## Left out

- Interleaving inside one handler: the locks are taken separately and two handlers may overlap; only the halves of analysis attach and detach are separate steps here.
- The ping broadcast, socket read and write failures, read limits, and the order in which one broadcast reaches its sockets.
- Event timestamps and other payload members nobody reads back; payload members that are not text (chat turns a number into its digits, the model reads it as missing).
- Persistence of analysis messages, analysis configuration, HTTP handlers, JWT, bcrypt and SHA-256 themselves.
- The fallback branches for a missing meeting service, and a missing chat repository.
- Further database failures after a successful first write, and rows deleted when a user or session is deleted.
- Chat bodies are sequences of one-byte characters; a body cut inside a multi-byte character, which the database refuses, is not modelled.
- The browser's rendering, its emotion and face messages and toasts popped by a timer.
- Dictionary iteration order in top-k ties: the model allows any order of equal counts.
- Talk ratio, speech averages, transcripts, face tracking, highlights and other text of the report; bucket starts, shares and ratios before rounding.
- Boolean, infinite and not-a-number timestamps and settings; times, alpha and areas are exact reals and integers.
- The bounded `recent` lists and the report sent to a remote model.
- A second speech-service worker (the default is one), and overlapping calls of the speech client.
- RefreshTokens.Service.Refresh: calls are serial, two overlapping refreshes of one token are not modelled; nor is the rounding of stored expiry times to the microsecond.
- Lockout.LockoutBound: attempts are serial, overlapping comparisons of one account are not modelled; and `locked_until` is stored to the microsecond, so that a lock may end up to 500 ns earlier than the whole nanoseconds of the model.
- ErrorCounters.ReportLoop.Tick: other tasks count errors between ticks, not between two sends of one tick; runs of events place them anywhere.
- DeepFace, MediaPipe, OpenCV, Whisper, ffmpeg and the HTTP library: their outcomes are inputs.
