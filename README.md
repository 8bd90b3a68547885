# webpipe-rtc signalling core, in Dafny

This project models the connection negotiator of webpipe-rtc, a browser
application that connects two peers over WebRTC. The peers exchange their
offer, answer and ICE candidates through rooms in a document store. The model
also covers the small pure helpers around the negotiator.

- `webrtc_types.dfy` (module `WebRtcTypes`): the W3C connection-state
  enumerations, the connected and failed state lists, `RoomStatus` and the
  candidate record.
- `webrtc_helpers.dfy` (module `WebRtcHelpers`): `isConnected`, `isFailed`,
  `getCandidatesCollection`, the polling and data-channel constants, and
  `createInterval`. Each interval is a timer in a `Scheduler` object. The
  timer holds the captured `isActive` flag and whether it is still scheduled.
- `actions.dfy` (module `Actions`): the signalling store operations on a map
  from room id to room. Each room is a document with an optional offer and
  answer, plus two candidate sub-collections. Pure functions say what each
  operation reads or leaves behind. The `RoomStore` class performs the
  operations on its map and is specified by those functions.
- `candidate_ingestion.dfy` (module `CandidateIngestion`): remote ICE candidate
  ingestion as functions on a value. The value holds the processed-id set, the
  buffer of early candidates, and the candidates handed to the peer.
- `pollers.dfy` (module `Pollers`): the answer poller and the status
  heartbeat, as functions from one tick to the next.
- `platform.dfy` (module `Platform`): the browser objects the hook drives. A
  peer connection is reduced to its states, its descriptions and the
  candidates given to it. A data channel is reduced to its ready state and the
  messages sent on it.
- `use_webrtc.dfy` (module `UseWebRtc`): the hook itself.
  - Each closure it sets up is a class whose fields are the state the closure
    captures and updates: candidate handling, the answer listener, the status
    monitor.
  - The hook holds its React state and the registered cleanups.
  - Every method is one step: a poll tick, an event handler, or a create, join
    or unmount call. Each is proved against the functions of
    `CandidateIngestion` and `Pollers`.
- `session_store.dfy` (module `SessionStore`): the application store. It has
  setters, `setConnection` and `reset`.
- `file_type_icon.dfy`, `format_date.dfy`, `status_info.dfy`,
  `call_duration.dfy`: the four formatters and classifiers.
- `common.dfy`: Option and Result, decimal text and its reading back, the
  truncating JavaScript `%`, `padStart`, prefixes and ASCII lowercasing.

Outside effects enter as method parameters:

- the transport's verdict on a description;
- whether a fetch or save throws;
- the ids and times the store assigns;
- the current time.

Every interval firing is one explicit method call.

Two behaviours of the code shape the store model:

- `createRoom` takes one auto-generated id and never retries
  (app/actions.ts:24-40).
- `fetchOffer` fails only for a missing document; it returns whatever offer
  field the room has (app/actions.ts:42-55). A room without an offer makes
  the join fail one step later, when the offer is applied
  (hooks/useWebRTC.ts:425).

Two parts of the code also disagree with each other. The store's
`setConnection` treats an ICE state of "completed" as not connected, while the
hook's `isConnected` counts it as connected. The model keeps both, and
`SessionStore.StoreFlagVersusIsConnected` states exactly where they differ.

## Model

| member | source | states |
|---|---|---|
| WebRtcTypes.EnumerationsAreComplete | types/webrtc.ts:26-41 | Exactly six connection states and seven ICE states are listed, each once, and their W3C names are distinct. |
| WebRtcTypes.StateListsPartition | types/webrtc.ts:43-60 | The connected lists are {connected} and {connected, completed}. Both failed lists are exactly {failed, closed, disconnected}. Connected and failed lists are disjoint. new, connecting and checking are in neither. |
| WebRtcHelpers.IsConnected | utils/webrtc-helpers.ts:25-30 | True iff the connection state is connected or the ICE state is connected or completed. |
| WebRtcHelpers.IsFailed | utils/webrtc-helpers.ts:32-37 | True iff either state is failed, closed or disconnected. |
| WebRtcHelpers.ConnectedAndFailedOverlap | utils/webrtc-helpers.ts:25-37 | The two tests are independent: a peer can be both connected and failed. While both states are still starting, it is neither. |
| WebRtcHelpers.GetCandidatesCollection | utils/webrtc-helpers.ts:76-85 | The result is the caller's collection iff exactly one of isCaller and isRemote holds. |
| WebRtcHelpers.CollectionsPairUp | utils/webrtc-helpers.ts:76-85 | One side's remote collection is the other side's local collection. A side's local and remote collections, and their names, differ. |
| WebRtcHelpers.Disposed | utils/webrtc-helpers.ts:60-63 | The disposer leaves the interval inactive and cleared, with the same period. |
| WebRtcHelpers.ClearedNeverRuns | utils/webrtc-helpers.ts:47-51 | A cleared interval never runs its callback again, over any sequence of firings. |
| WebRtcHelpers.DisposedNeverRuns | utils/webrtc-helpers.ts:45-63 | After the disposer, no later firing runs the callback. |
| WebRtcHelpers.InactiveNeverRuns | utils/webrtc-helpers.ts:48-50 | An inactive interval runs nothing, even if its timer was not yet cleared. |
| WebRtcHelpers.StopEndsInterval | utils/webrtc-helpers.ts:48-51 | The first firing that sees the stop condition clears the interval. Later firings run nothing, whatever the stop condition is then. |
| WebRtcHelpers.LiveIntervalRunsEveryFiring | utils/webrtc-helpers.ts:53-57 | A live interval whose stop condition never holds runs its callback on every firing. A throwing callback does not stop it. |
| WebRtcHelpers.Fire | utils/webrtc-helpers.ts:47-58 | A firing runs the callback iff the timer is scheduled and active and the stop condition is false. The timer stays scheduled exactly when the callback ran. Its flag and period are kept. |
| WebRtcHelpers.Scheduler.CreateInterval | utils/webrtc-helpers.ts:40-47 | Adds a fresh, active, scheduled timer with the given period and leaves the other timers alone. |
| WebRtcHelpers.Scheduler.Tick | utils/webrtc-helpers.ts:47-58 | One firing updates only that timer, as `Fire` says: cleared and not run when inactive or stopping; otherwise run. |
| WebRtcHelpers.Scheduler.Dispose | utils/webrtc-helpers.ts:60-63 | Sets the timer to `Disposed` and changes no other timer. |
| Actions.CollectionChoicesAgree | app/actions.ts:94-116 | The collections that saveIceCandidate and getRemoteIceCandidates choose inline match getCandidatesCollection. Each side's remote collection is the other side's own. |
| Actions.WithRoomCreated | app/actions.ts:24-40 | After createRoom, the room ids are the old ones plus the new id. |
| Actions.OfferOf | app/actions.ts:42-55 | fetchOffer fails iff the room document is missing. Otherwise it returns the stored offer field, present or not, with the room id. |
| Actions.WithAnswer | app/actions.ts:57-73 | After saveAnswer, the room ids are the old ones plus this room, which is created if it was missing. |
| Actions.RoomCheck | app/actions.ts:75-87 | checkRoom reports existence iff the document exists. Only then does it report whether an answer is present. It reports no other field. |
| Actions.RemoteCandidates | app/actions.ts:107-128 | getRemoteIceCandidates returns the other side's collection, listed in insertion order. Each entry carries its document id as `_id`, its candidate fields and its timestamp. |
| Actions.RemoteAnswer | app/actions.ts:130-140 | getRemoteAnswer returns a value iff the room exists and holds an answer, and that value is the stored answer. |
| Actions.CandidateCount | app/actions.ts:160-170 | countIceCandidates is the size of the side's own collection. |
| Actions.Status | app/actions.ts:142-158 | checkStatus returns {exists: false} for a missing room. Otherwise it reports offer and answer presence and the sizes of both collections. |
| Actions.CreateThenFetchOffer | app/actions.ts:24-55 | Fetching a just-created room returns the same offer, and the room has no answer. |
| Actions.CreatedRoomIsFresh | app/actions.ts:24-40 | A room created under a new id has an offer, no answer and no candidates. |
| Actions.SaveAnswerKeepsOffer | app/actions.ts:57-73 | Merging an answer keeps the offer and both collections, and leaves every other room unchanged. getRemoteAnswer then returns that answer. |
| Actions.OfferAnswerRoundTrip | app/actions.ts:24-73 | In one negotiation, the callee fetches the caller's offer and the caller polls the callee's answer. The offer is still in place after the answer is saved. |
| Actions.WithCandidate | app/actions.ts:89-105 | A save creates the room entry if needed and changes no other room. The room's document (offer and answer) is kept. |
| Actions.SaveCandidateAppendsOne | app/actions.ts:89-105 | saveIceCandidate appends one entry to the side's own collection. The other collection and the document are unchanged. |
| Actions.SavedCandidateReachesOtherSide | app/actions.ts:89-128 | After a save, the other side's next read holds the saved candidate under its document id, after everything it read before (last in insertion order). The saving side's own read is unchanged. |
| Actions.StatusCountsFollowSaves | app/actions.ts:142-170 | After a save, checkStatus counts one more candidate on the saving side and the same number on the other. |
| Actions.RoomStore.CreateRoom | app/actions.ts:24-40 | Returns the generated id and leaves the map as `WithRoomCreated` says. |
| Actions.RoomStore.FetchOffer | app/actions.ts:42-55 | Fails exactly for a missing room document. Otherwise returns the stored offer field and the room id. |
| Actions.RoomStore.SaveAnswer | app/actions.ts:57-73 | Leaves the map as `WithAnswer` says. |
| Actions.RoomStore.CheckRoom | app/actions.ts:75-87 | Reports existence, plus answer presence for an existing room, and {exists: false} otherwise. |
| Actions.RoomStore.SaveIceCandidate | app/actions.ts:89-105 | Leaves the map as `WithCandidate` says: one appended entry. |
| Actions.RoomStore.GetRemoteIceCandidates | app/actions.ts:107-128 | Its loop returns the remote collection with each document id attached, in order. |
| Actions.RoomStore.GetRemoteAnswer | app/actions.ts:130-140 | Returns null for a missing room or a room without an answer, and the stored answer otherwise. |
| Actions.RoomStore.CheckStatus | app/actions.ts:142-158 | Reports every field of the status as `Status` does, counting through CountIceCandidates. |
| Actions.RoomStore.CountIceCandidates | app/actions.ts:160-170 | Returns the size of the side's own collection. |
| SessionStore.StoreConnectedFlag | store/main.ts:55-65 | The flag holds iff a peer is given and its connection state or its ICE state is connected. |
| SessionStore.StoreFlagVersusIsConnected | store/main.ts:60-64 | For a present peer, the store's flag and the hook's isConnected differ exactly when the ICE state is completed and the connection state is not connected. The store's flag implies isConnected. |
| SessionStore.Session.constructor | store/main.ts:36-45 | Initially every field is null and the store is not connected. |
| SessionStore.Session.SetPc | store/main.ts:48 | Sets the peer and may modify no other field. |
| SessionStore.Session.SetDataChannel | store/main.ts:49 | Sets the channel and may modify no other field. |
| SessionStore.Session.SetFile | store/main.ts:50 | Sets the file and may modify no other field. |
| SessionStore.Session.SetRoomId | store/main.ts:51 | Sets the room id and may modify no other field. |
| SessionStore.Session.SetConnected | store/main.ts:52 | Sets the flag and may modify no other field. |
| SessionStore.Session.SetConnection | store/main.ts:55-65 | Sets peer, channel and room id. Sets the flag from the peer's states at that moment. The file is kept. |
| SessionStore.Session.Reset | store/main.ts:68-80 | Closes the held channel and peer, if any, and restores the initial state. A reset of an initial store changes nothing, so a second reset closes nothing. |
| CandidateIngestion.Step | hooks/useWebRTC.ts:60-75 | One fetched candidate: its id is marked processed. The step abandons the poll iff the id is new and the candidate cannot be built. A new buildable candidate is given to the peer with a remote description and buffered without one; nothing else changes. |
| CandidateIngestion.Process | hooks/useWebRTC.ts:56-88 | A poll only adds: the processed set grows, and the applied and buffered lists are extended, never rewritten. With a remote description the buffer is kept; without one nothing is given to the peer. |
| CandidateIngestion.Flush | hooks/useWebRTC.ts:192-205 | With a remote description the buffer is emptied into the applied list, which grows by exactly the buffer. Without one nothing changes. The processed set is kept. |
| CandidateIngestion.StepKeepsInv | hooks/useWebRTC.ts:60-75 | Handling one fetched candidate keeps the invariant: every applied or buffered candidate was marked processed, and no id occurs twice among them. |
| CandidateIngestion.ProcessKeepsInv | hooks/useWebRTC.ts:56-88 | A whole poll keeps the invariant, so no candidate is ever applied or buffered twice. |
| CandidateIngestion.FlushKeepsInv | hooks/useWebRTC.ts:192-205 | The flush keeps the invariant. |
| CandidateIngestion.KnownIdsAreSkipped | hooks/useWebRTC.ts:61 | A poll that finds only processed ids changes nothing. |
| CandidateIngestion.UnbuildableCandidateIsDropped | hooks/useWebRTC.ts:60-87 | A new id is marked before its candidate is built. A candidate that cannot be built therefore abandons the poll and is never applied or buffered, even when polled again. |
| CandidateIngestion.ProcessInArrivalOrder | hooks/useWebRTC.ts:60-75 | A poll marks every fetched id processed. It adds exactly the first-seen new candidates, in arrival order: applied with a remote description, appended to the buffer without one. |
| CandidateIngestion.RepeatedPollChangesNothing | hooks/useWebRTC.ts:60-64 | Polling the same list again changes nothing. |
| CandidateIngestion.BufferedCandidatesAppliedOnceInOrder | hooks/useWebRTC.ts:192-205 | Candidates buffered before the remote description are applied by the flush, after those applied earlier and in arrival order. The buffer is then empty and no id was applied twice. |
| CandidateIngestion.FlushIsIdempotent | hooks/useWebRTC.ts:192-205 | A second flush does nothing. A flush with an empty buffer or no remote description does nothing. |
| Pollers.AnswerTick | hooks/useWebRTC.ts:265-304 | A tick keeps the period and never reschedules a stopped timer. A set remote description is never replaced. The remote description changes only to the fetched answer when the peer accepts it, and then the poller stops. At most one retry is queued. |
| Pollers.AnswerRetry | hooks/useWebRTC.ts:281-295 | A retry consumes the oldest queued answer and never reschedules a stopped timer. It changes the remote description only when none is set and the peer accepts that answer. |
| Pollers.FastTick | hooks/useWebRTC.ts:314-340 | A fast tick sends one status check iff the fast timer is live and the peer has not failed. The connected flag, once set, stays set, and from then on the slow timer is kept. A stopped fast timer is never rescheduled. |
| Pollers.SlowTick | hooks/useWebRTC.ts:329-335 | A slow tick sends one status check iff the slow timer exists and is live and the peer has not failed. The fast timer, the connected flag and the presence of the slow timer are kept. |
| Pollers.AnswerInvPreserved | hooks/useWebRTC.ts:265-304 | Ticks and retries keep this invariant: once a remote description exists, the answer poller is stopped. |
| Pollers.AnswerSetOnlyWhileNull | hooks/useWebRTC.ts:269-290 | A tick or retry never replaces an existing remote description. When one sets it, the description is the fetched or retried answer, the peer accepted it and the poller is disposed. |
| Pollers.RetryAtMostOnce | hooks/useWebRTC.ts:274-296 | Only a failed application schedules a retry, and exactly one. A retry schedules none. |
| Pollers.AnswerPollerStops | hooks/useWebRTC.ts:265-303 | On a tick where the peer is connected or has a remote description, the callback does not run and the timer is cleared. |
| Pollers.AnswerSetEndsPolling | hooks/useWebRTC.ts:277-303 | Once the answer is set, the poller never runs again. |
| Pollers.DisposeMonitor | hooks/useWebRTC.ts:342-347 | The disposer changes neither the flag, the existence of the slow timer, nor the check count. |
| Pollers.MonitorInvPreserved | hooks/useWebRTC.ts:310-347 | Every step keeps this invariant: the slow timer exists iff the switch happened, and then the frequent timer is stopped. |
| Pollers.SwitchAtMostOnce | hooks/useWebRTC.ts:321-336 | After the switch, a frequent tick changes nothing. |
| Pollers.SwitchOnFirstConnectedTick | hooks/useWebRTC.ts:316-336 | The switch happens iff the frequent timer runs, the check succeeds and the peer is connected for the first time. It disposes the frequent timer and starts the slow one. |
| Pollers.FailureStopsBothLoops | hooks/useWebRTC.ts:329-340 | While the peer is failed, neither loop issues a check, and each firing clears its timer. |
| Pollers.DisposerStopsBoth | hooks/useWebRTC.ts:342-347 | After the disposer, neither timer runs again. |
| UseWebRtc.NullCandidateNeverPersisted | hooks/useWebRTC.ts:25-46 | The end-of-gathering event, or a save that throws, leaves the store unchanged. |
| UseWebRtc.LocalCandidateReachesPeer | hooks/useWebRTC.ts:25-46 | A saved local candidate is in the other side's next read, after everything it read before (last in insertion order). The saving side's own read is unchanged. |
| UseWebRtc.SaveLocalIceCandidate | hooks/useWebRTC.ts:25-46 | Leaves the store as `LocalCandidateSaved` says. |
| UseWebRtc.LocalCandidateEvent | hooks/useWebRTC.ts:188-189 | With no `onicecandidate` handler installed a surfaced candidate is lost and the store is unchanged. Otherwise it is saved as `saveLocalIceCandidate` does, for the room and side the handler captured. |
| UseWebRtc.SurfaceCandidates | hooks/useWebRTC.ts:188-189 | A run of surfaced candidates: with no handler the store is unchanged, and with one each candidate is saved in turn. |
| UseWebRtc.CandidatesReachOtherSide | app/actions.ts:89-128 | Candidates saved in turn are read by the other side after what it read before, in the order saved, each under its document id. The saving side's own read is unchanged. |
| UseWebRtc.FreshRoomHasNoCandidates | app/actions.ts:24-40 | A room just created under a new id holds no caller candidates. |
| UseWebRtc.SavedCandidatesAreRead | app/actions.ts:89-128 | Every candidate saved in a run is among those the other side reads. |
| UseWebRtc.CallerWindowLosesCandidates | hooks/useWebRTC.ts:365-377 | As written, the candidates surfaced while createRoom is awaited are not in the callee's read of the new room: it is empty. Had they been saved, every one of them would be in it. |
| UseWebRtc.IceHandling.constructor | hooks/useWebRTC.ts:179-250 | Installs the `onicecandidate` handler for its room and side, and the wrapper. Runs one initial pass, which is `Process` on the fetched list, or nothing when the fetch fails. Starts one 2000 ms interval. |
| UseWebRtc.IceHandling.ProcessRemote | hooks/useWebRTC.ts:49-88 | The loop's new processed set, buffer and applied candidates are `Process` of the old ones. The result is true iff the loop completed and the peer is connected. A failed fetch changes nothing. |
| UseWebRtc.IceHandling.Ingest | hooks/useWebRTC.ts:60-75 | One pass of the loop moves the processed set, buffer and applied candidates as `Step` does, and returns whether the poll goes on. |
| UseWebRtc.IceHandling.FlushBuffer | hooks/useWebRTC.ts:192-205 | The new state is `Flush` of the old one. The peer receives the buffered candidates in order. |
| UseWebRtc.IceHandling.SetRemoteDescription | hooks/useWebRTC.ts:209-219 | Calls the platform first. Flushes only when that call succeeds and the wrapper is installed. |
| UseWebRtc.IceHandling.PollTick | hooks/useWebRTC.ts:232-250 | A candidate-poll firing is `Fire` with the stop condition isConnected. |
| UseWebRtc.IceHandling.PollCallback | hooks/useWebRTC.ts:233-247 | Processes the fetched candidates. Disposes the poller exactly when the pass completed and the peer is connected. |
| UseWebRtc.IceHandling.Cleanup | hooks/useWebRTC.ts:252-258 | Stops candidate polling and restores the platform's setRemoteDescription. |
| UseWebRtc.AnswerListener.constructor | hooks/useWebRTC.ts:262-307 | Starts one active 1000 ms interval with no retries pending. |
| UseWebRtc.AnswerListener.Tick | hooks/useWebRTC.ts:265-304 | The new poller state is `AnswerTick` of the old. The candidate buffer is flushed exactly when the answer was applied through the wrapper. |
| UseWebRtc.AnswerListener.Retry | hooks/useWebRTC.ts:281-295 | The new poller state is `AnswerRetry` of the old. |
| UseWebRtc.StatusMonitor.constructor | hooks/useWebRTC.ts:310-341 | Starts the frequent 5000 ms interval, with the flag false and no slow interval. |
| UseWebRtc.StatusMonitor.FastTick | hooks/useWebRTC.ts:314-340 | The new monitor state is `Pollers.FastTick` of the old. Unrelated intervals are unchanged. |
| UseWebRtc.StatusMonitor.SlowTick | hooks/useWebRTC.ts:329-335 | The new monitor state is `Pollers.SlowTick` of the old. |
| UseWebRtc.StatusMonitor.Dispose | hooks/useWebRTC.ts:342-347 | Stops the frequent interval and the slow one if it exists. Nothing else changes. |
| UseWebRtc.JoinLeaksCandidatePoller | hooks/useWebRTC.ts:421-439 | As written, a join that fails after candidate handling starts leaves that poller unregistered. A room without an offer is one such input. |
| UseWebRtc.JoinRegisteredFixed | hooks/useWebRTC.ts:421-439 | With the candidate cleanup pushed right away, every poller a join starts is registered. |
| UseWebRtc.ChannelErrorMessage | hooks/useWebRTC.ts:158-173 | The channel error text is "Error en canal de datos" on the caller side and that text followed by " (callee)" on the callee side. |
| UseWebRtc.JoinError | hooks/useWebRTC.ts:445-448 | A join leaves no error iff it completed. Otherwise the error text carries the join prefix. |
| UseWebRtc.JoinOutcome | hooks/useWebRTC.ts:399-449 | The join stops at the offer fetch iff the fetch throws or the room is missing. It completes iff the fetch succeeds, the room has an offer, the peer accepts it and the answer is saved. |
| UseWebRtc.RegisteredAreStopped | hooks/useWebRTC.ts:103-108 | Calling the registered cleanups stops every interval they were registered for. |
| UseWebRtc.WebRtcHook.constructor | hooks/useWebRTC.ts:92-98 | The hook's state starts with no room, not connected, no channel, both states "new", no error and no cleanups. |
| UseWebRtc.WebRtcHook.OnConnectionStateChange | hooks/useWebRTC.ts:112-124 | Mirrors the connection state and recomputes connected with isConnected. |
| UseWebRtc.WebRtcHook.OnIceConnectionStateChange | hooks/useWebRTC.ts:126-141 | Mirrors the ICE state, recomputes connected, and restarts ICE exactly when it failed. |
| UseWebRtc.WebRtcHook.OnChannelOpen | hooks/useWebRTC.ts:162-165 | Sets connected. |
| UseWebRtc.WebRtcHook.OnChannelClose | hooks/useWebRTC.ts:166-169 | Clears connected. |
| UseWebRtc.WebRtcHook.OnChannelError | hooks/useWebRTC.ts:170-173 | Sets the error message to the channel error text for the side, `ChannelErrorMessage`. |
| UseWebRtc.WebRtcHook.OnDataChannel | hooks/useWebRTC.ts:414-418 | The callee keeps the channel the caller opened. |
| UseWebRtc.WebRtcHook.SendMessage | hooks/useWebRTC.ts:452-466 | Sends iff a channel exists and is open, and then appends exactly the message. Otherwise the channel is unchanged. |
| UseWebRtc.WebRtcHook.Register | hooks/useWebRTC.ts:385 | Pushing cleanups appends them. The owned intervals and wrapped peers grow by theirs. |
| UseWebRtc.WebRtcHook.CreateConnection | hooks/useWebRTC.ts:351-396 | Creates a peer, its channel and the local offer. The candidates the peer surfaces before candidate handling starts meet no handler and are not saved. A createRoom failure is caught before any interval starts and leaves no handler. Otherwise it stores the room with the offer, installs the caller's handler, and registers three cleanups that together own exactly the new intervals. The hook and session then hold the connection. |
| UseWebRtc.WebRtcHook.CreateConnectionFixed | hooks/useWebRTC.ts:351-396 | Creation with the handler in place before gathering starts. On success the store holds the new room and every candidate surfaced while createRoom was awaited, saved in order as the caller's. A createRoom failure leaves the store unchanged. The new intervals are exactly those the cleanups own. |
| UseWebRtc.WebRtcHook.JoinConnection | hooks/useWebRTC.ts:399-449 | The join as written. The step it reaches, its error and its store effect follow `JoinOutcome`, `JoinError` and `WithAnswer`. All new intervals are registered iff no poller was left behind. On a failed offer or save, the candidate interval is running but unregistered. |
| UseWebRtc.WebRtcHook.JoinFetched | hooks/useWebRTC.ts:407-439 | The as-written join after the offer is fetched. On failure, the candidate interval is the only timer change and nothing is registered. |
| UseWebRtc.WebRtcHook.CompleteJoin | hooks/useWebRTC.ts:423-442 | Applies the offer, then sets and saves the answer. On success it starts the heartbeat and registers the pending cleanups and the heartbeat's. On failure nothing is registered and no timer changes. |
| UseWebRtc.WebRtcHook.FinishJoin | hooks/useWebRTC.ts:436-442 | Starts the heartbeat, pushes the cleanups, and holds the connection with no channel. |
| UseWebRtc.WebRtcHook.JoinConnectionFixed | hooks/useWebRTC.ts:399-449 | The corrected join: whatever step it reaches, the registered cleanups own exactly the intervals it started. |
| UseWebRtc.WebRtcHook.JoinFetchedFixed | hooks/useWebRTC.ts:421-439 | The corrected join pushes the candidate cleanup right after candidate handling is set up. |
| UseWebRtc.WebRtcHook.Unmount | hooks/useWebRTC.ts:103-108 | Runs every cleanup in order, then empties the list. Every interval they own is stopped, every wrapper is removed, and no other interval changes. |
| UseWebRtc.SetupCandidateHandling | hooks/useWebRTC.ts:179-259 | A new handling bound to the peer, with its one new interval as the only timer change. The peer's `onicecandidate` handler saves to the given room and side. |
| UseWebRtc.AnswerOffer | hooks/useWebRTC.ts:423-434 | The callee's offer and answer steps. The first failure ends them. On success the peer holds the offer and the answer, and the store holds the answer. |
| UseWebRtc.StartCallerPollers | hooks/useWebRTC.ts:376-385 | Candidate handling, the answer poller and the heartbeat, in that order. Their three cleanups own exactly the three new intervals. The peer's `onicecandidate` handler saves to the room as the caller. |
| UseWebRtc.RunCleanups | hooks/useWebRTC.ts:105 | Calling the cleanups in order stops every interval they own, removes their wrappers, and touches nothing else. |
| UseWebRtc.RunCleanup | hooks/useWebRTC.ts:105 | One cleanup stops exactly the intervals it owns. |
| FileTypeIcon.LoweredType | utils/getFileTypeIcon.tsx:18 | The type the chain compares is the file's lowercased type, or "" with no file, of the same length. |
| FileTypeIcon.LastSegment | utils/getFileTypeIcon.tsx:90 | The extension is a suffix of the name with no '.' in it. When it is shorter than the name, a '.' precedes it. |
| FileTypeIcon.LastSegmentAfterDot | utils/getFileTypeIcon.tsx:90 | Whatever precedes the last dot does not change the extension, and a name with no dot is its own extension. |
| FileTypeIcon.GetFileTypeIcon | utils/getFileTypeIcon.tsx:17-139 | A recognised MIME type decides the icon. A non-empty unrecognised type gives the generic icon. No type and no name gives the generic icon. |
| FileTypeIcon.MimeIcon | utils/getFileTypeIcon.tsx:20-86 | The type tests never give the generic icon. They give no icon iff the type has none of the video, audio, image and text prefixes and is none of the listed application types. |
| FileTypeIcon.ExtensionIcon | utils/getFileTypeIcon.tsx:88-134 | Each extension list gives its own icon: the video, audio and image lists give Video, Audio and Image, the code list Code, the archive list Archive and the spreadsheet list PieChart, each iff the extension is in it. Any other extension gets the generic icon, and no extension gives Text. |
| FileTypeIcon.MediaPrefixesDecide | utils/getFileTypeIcon.tsx:20-33 | Video, Audio and Image are reached iff the type starts with video/, audio/ or image/. The chain never yields the generic icon itself. |
| FileTypeIcon.TextCharacterized | utils/getFileTypeIcon.tsx:35-65 | Text is reached iff the type is any text/ type, application/rtf, or one of the five office types. |
| FileTypeIcon.CodeCharacterized | utils/getFileTypeIcon.tsx:40-52 | Code is reached iff the type is application/json, javascript or xml. |
| FileTypeIcon.SheetCharacterized | utils/getFileTypeIcon.tsx:67-75 | PieChart is reached iff the type is one of the two Excel types. |
| FileTypeIcon.ArchiveCharacterized | utils/getFileTypeIcon.tsx:77-86 | Archive is reached iff the type is one of the five archive types. |
| FileTypeIcon.FallbackOnlyWithoutMime | utils/getFileTypeIcon.tsx:88-138 | The extension decides only when no type is known and a non-empty name is given. A known type, recognised or not, makes the name irrelevant. |
| FileTypeIcon.TextPrefixShadowsLists | utils/getFileTypeIcon.tsx:36-75 | As written, the text/ entries of the code and spreadsheet lists all yield Text. |
| FileTypeIcon.FixedReachesLists | utils/getFileTypeIcon.tsx:36-75 | With the lists compared first, every listed type reaches its list's icon. The two chains differ exactly on those text/ entries. |
| FileTypeIcon.FixedMatchesSameTypes | utils/getFileTypeIcon.tsx:20-86 | The corrected chain matches no test for exactly the types the chain as written matches none for: the reordering changes which icon a type gets, never whether it gets one. |
| FileTypeIcon.GetFileTypeIconFixed | utils/getFileTypeIcon.tsx:17-139 | The corrected classifier gives the reordered chain's icon when a type test matches, and the generic icon for a non-empty unmatched type. When no test matches, including an empty type, it answers exactly as the classifier as written: the extension switch for a named file with no type, and the generic icon otherwise. |
| FormatDate.FormatDate | utils/formatDate.ts:1-18 | A locale result carries the date it formats. |
| FormatDate.AgoTextRoundTrip | utils/formatDate.ts:9-11 | The relative text reads back as the count and unit written. |
| FormatDate.FormatDateEnds | utils/formatDate.ts:3-17 | "just now" iff the difference is under a minute, including negative differences. The locale date iff it is at least seven days. |
| FormatDate.WholeUnits | utils/formatDate.ts:3-11 | A floor-divided count is the number of whole units in the difference. |
| FormatDate.FormatDateCounts | utils/formatDate.ts:3-11 | Between a minute and a week, the text reports n whole units with n >= 1 and n units <= diff < n+1 units. The unit is minutes below an hour, hours below a day, days otherwise. |
| FormatDate.UnitsCoarsen | utils/formatDate.ts:9-11 | A later moment is never reported in a finer unit. |
| StatusInfo.GetStatusInfo | utils/getStatusInfo.tsx:5-47 | The colour is green or muted. An in-progress status has no icon, is muted, and its text ends with "...". |
| StatusInfo.GreenExactlyWhenDownloaded | utils/getStatusInfo.tsx:28-39 | Green iff the status is one of the two downloaded statuses. |
| StatusInfo.IconExactlyWhenFinished | utils/getStatusInfo.tsx:14-39 | The check icon marks exactly sent, received and the two downloaded statuses. |
| StatusInfo.InProgressIgnoresTime | utils/getStatusInfo.tsx:10-21 | "queued", "sending" and "receiving" show "Queued...", "Sending..." and "Receiving...", whatever the time and the direction. |
| StatusInfo.SettledLabelsEndWithTime | utils/getStatusInfo.tsx:14-45 | Any other status shows its word, a space and the time text. The word is "Downloaded" for both downloaded statuses, "Sent" for "sent", "Received" for "received", and for an unlisted status "Sent" when own and "Received" otherwise. |
| StatusInfo.DirectionOnlyForUnlisted | utils/getStatusInfo.tsx:7-45 | The direction matters iff the status is unlisted. Such a status is labelled like sent or received, but without an icon. |
| CallDuration.FormatCallDuration | components/app/video/VideoCallDuration.tsx:24 | With no start time the text is "00:00". |
| CallDuration.Clock | components/app/video/VideoCallDuration.tsx:26-34 | The clock text has at least five characters. For a non-negative duration the colon is third from the end, after at least two minute digits. |
| CallDuration.ClockRoundTrip | components/app/video/VideoCallDuration.tsx:26-34 | For non-negative seconds, the "mm:ss" text reads back as the same number. It is exactly five characters iff under 100 minutes; longer minutes are not cut. |
| CallDuration.DurationReadsBack | components/app/video/VideoCallDuration.tsx:23-35 | For a call under way, the text reads back as the whole seconds elapsed, floor-divided from milliseconds. |
| CallDuration.FiveCharsBelowHundredMinutes | components/app/video/VideoCallDuration.tsx:32-34 | The text is five characters with ':' at index 2 iff fewer than 6000 seconds have elapsed. |
| CallDuration.ZeroAndNegative | components/app/video/VideoCallDuration.tsx:24-34 | During the first second the text is "00:00". A start later than now gives a leading '-'. |
| CallDuration.FieldReadsBack | components/app/video/VideoCallDuration.tsx:32-34 | A padded field reads back as its number and is two characters below 100. |

## Left out

- `formatBytes`: floating-point `Math.log`, `Math.pow` and `toFixed`.
- `getIceServers`: an HTTP fetch.
- The `createPeerConnection` configuration is not part of this model.
- Offer and answer creation and SDP contents are not modelled. Offers and
  answers are given values.
- A failure of `createOffer` or `setLocalDescription` is not modelled.
- Wall-clock behaviour is not modelled:
  - the 100 ms settle delay in the wrapper;
  - the 1 s delay before the answer retry;
  - the `setInterval` periods, beyond their values.

  Each firing, and each retry, is one method call.
- Overlapping asynchronous ticks are not modelled. The transport may change
  the peer's states during a callback's fetch, and the model lets it, but
  there is no interleaving of two callbacks.
- The document store's consistency and its id generation are not modelled.
  Generated ids and times are parameters.
- Logging and console output are not modelled.
- The chunked file-transfer protocol, the send queue, download
  acknowledgements, the peer name exchange and media renegotiation are not
  implemented in the hook. The hook only logs channel messages.
- Rendering components and the `VideoCallDuration` interval and state are UI.
- Platform: one `remoteDescription` field stands for both `remoteDescription`
  and `currentRemoteDescription`.
- The outcome of `addIceCandidate` is not modelled. Its failures are caught
  and never change the hook's state, so the peer's `added` log records every
  attempt.
- The text of a thrown error is a parameter (`errorText`).
- The results of `checkStatus` are discarded by the heartbeat, so only the
  number of requests is kept.
- UseWebRtc.IceHandling.constructor allocates the candidate interval before
  the initial pass, so that its id can be a constant field. No firing can
  happen before the constructor returns, so the resulting state is the same.
- UseWebRtc.SetupCandidateHandling states only the new handling and its
  interval. The constructor states what the initial pass ingested.
- UseWebRtc.IceHandling: `applied` is ghost, because the hook never reads
  which candidates it gave the peer.
- FileTypeIcon.LoweredType: lowercasing is ASCII only, while JavaScript's
  `toLowerCase` also folds non-ASCII letters. MIME types and the listed
  extensions are ASCII.
- FormatDate.FormatDate: `toLocaleDateString("es-ES", …)` is a library call.
  A date from seven days on is represented by the date itself (`LocaleDate`).
  The current time is a parameter.
- StatusInfo.GetStatusInfo: the time text (`formatDate` of the last status
  change) is a parameter. The transfer record's type is not part of this
  model, so the status is a string.
- Actions.RemoteCandidates: this model lists a collection in insertion order.
  The store lists a query with no ordering by document id, and generated ids
  are random, so a new candidate can sit anywhere in a read.
  Actions.SavedCandidateReachesOtherSide, UseWebRtc.LocalCandidateReachesPeer
  and UseWebRtc.CandidatesReachOtherSide state that new candidates come after
  the earlier ones; for the store itself only their presence carries over
  (UseWebRtc.SavedCandidatesAreRead).
- UseWebRtc.SurfaceCandidates: every save of a surfaced candidate succeeds.
  A failed save is modelled for one event (UseWebRtc.LocalCandidateEvent).
- UseWebRtc.JoinError: "Room not found" is the text a development build
  reports. `fetchOffer` runs as a server action, and a production build
  replaces a server action's error message by a generic one.

## Findings

| source | as written | input that shows it | evidently intended | confidence | as-written member | corrected member |
|---|---|---|---|---|---|---|
| hooks/useWebRTC.ts:421-439 | The candidate cleanup is pushed only at line 439, after the offer, answer and save steps. A throw in between is caught, and the 2 s candidate interval keeps polling with no cleanup registered to stop it on unmount. | joinConnection on a room whose document has no offer field, or with a saveAnswer that throws | Register the candidate cleanup as soon as candidate handling exists | not executed | UseWebRtc.JoinLeaksCandidatePoller | UseWebRtc.WebRtcHook.JoinConnectionFixed |
| utils/getFileTypeIcon.tsx:36-75 | The `text/` prefix test comes before the code and spreadsheet lists. Their `text/` entries can never reach Code or PieChart. | type "text/css" gives Text, not Code; "text/csv" gives Text, not PieChart | Test the exact lists before the `text/` prefix | not executed | FileTypeIcon.TextPrefixShadowsLists | FileTypeIcon.FixedReachesLists |
| hooks/useWebRTC.ts:369-377 | The `onicecandidate` handler is installed only by setupIceCandidateHandling at line 377, after setLocalDescription (369) and the awaited createRoom (372). A candidate the peer surfaces in between meets no handler and is never saved. | Any local candidate surfaced before line 377 runs; with the pool of 10 candidates in config/webrtc.ts:32, gathering starts at setLocalDescription | Save every local candidate of the caller | not executed | UseWebRtc.CallerWindowLosesCandidates | UseWebRtc.WebRtcHook.CreateConnectionFixed |
