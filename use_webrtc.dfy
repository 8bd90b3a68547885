/** The connection hook: the closures it sets up around one peer connection,
    each an object whose fields are the state the closure captures and
    updates — candidate handling with its processed-id set and buffer, the
    caller's answer poller, and the status heartbeat — and the hook itself,
    which creates or joins a room, keeps the React state and runs the
    registered cleanups on unmount. Every method is one step of the original
    (a poll tick, a handler call); the specifications of the steps are the
    functions of modules CandidateIngestion and Pollers. */
module UseWebRtc {
  import opened Common
  import opened WebRtcTypes
  import opened WebRtcHelpers
  import opened Platform
  import opened Actions
  import opened CandidateIngestion
  import opened Pollers
  import opened SessionStore

  /** The candidate fields of each record, in order: what the peer receives. */
  function Inits(cs: seq<IceCandidateWithId>): (r: seq<IceCandidateInit>)
    ensures |r| == |cs| && forall i :: 0 <= i < |cs| ==> r[i] == cs[i].init
  {
    seq(|cs|, i requires 0 <= i < |cs| => cs[i].init)
  }

  lemma InitsConcat(a: seq<IceCandidateWithId>, b: seq<IceCandidateWithId>)
    ensures Inits(a + b) == Inits(a) + Inits(b)
  {
    assert |Inits(a + b)| == |Inits(a) + Inits(b)|;
    forall i | 0 <= i < |a + b| ensures Inits(a + b)[i] == (Inits(a) + Inits(b))[i] {
      if i < |a| {
        assert (a + b)[i] == a[i];
      } else {
        assert (a + b)[i] == b[i - |a|];
      }
    }
  }

  // ---------------------------------------------------------------------------
  // saveLocalIceCandidate

  /** What `saveLocalIceCandidate` leaves in the room map: nothing for the
      end-of-gathering event (no candidate) or when the save throws (the
      error is caught); otherwise the candidate in the saving side's own
      collection. */
  function LocalCandidateSaved(rooms: Rooms, roomId: string, candidate: Option<IceCandidateInit>,
                               isCaller: bool, docId: string, now: int, saveFails: bool): Rooms
  {
    if candidate.None? || saveFails then rooms
    else WithCandidate(rooms, roomId, candidate.value, isCaller, docId, now)
  }

  /** A null candidate event is never persisted, and a failed save leaves the
      store as it was. */
  lemma NullCandidateNeverPersisted(rooms: Rooms, roomId: string, candidate: Option<IceCandidateInit>,
                                    isCaller: bool, docId: string, now: int, saveFails: bool)
    requires candidate.None? || saveFails
    ensures LocalCandidateSaved(rooms, roomId, candidate, isCaller, docId, now, saveFails) == rooms
  {
  }

  /** A saved local candidate is what the other side's next poll finds, last
      in the insertion order this model lists by, and the saving side's own
      poll never returns it. */
  lemma {:induction false} LocalCandidateReachesPeer(rooms: Rooms, roomId: string, c: IceCandidateInit,
                                                     isCaller: bool, docId: string, now: int)
    ensures var after := LocalCandidateSaved(rooms, roomId, Some(c), isCaller, docId, now, false);
      && RemoteCandidates(after, roomId, !isCaller)
         == RemoteCandidates(rooms, roomId, !isCaller) + [IceCandidateWithId(c, docId, Some(now))]
      && RemoteCandidates(after, roomId, isCaller) == RemoteCandidates(rooms, roomId, isCaller)
  {
    SavedCandidateReachesOtherSide(rooms, roomId, c, isCaller, docId, now);
  }

  /** `saveLocalIceCandidate(roomId, event, isCaller)`: `candidate` is the
      event's candidate (None at the end of gathering), `docId` and `now` the
      id and time the store assigns, `saveFails` whether the save throws. */
  method SaveLocalIceCandidate(store: RoomStore, roomId: string, candidate: Option<IceCandidateInit>,
                               isCaller: bool, docId: string, now: int, saveFails: bool)
    modifies store
    ensures store.rooms == LocalCandidateSaved(old(store.rooms), roomId, candidate, isCaller, docId, now, saveFails)
  {
    if candidate.None? {
      return;
    }
    if !saveFails {
      store.SaveIceCandidate(roomId, candidate.value, isCaller, docId, now);
    }
  }

  /** The peer surfacing one local candidate event (`pc.onicecandidate`):
      with no handler installed the event is lost; otherwise
      `saveLocalIceCandidate` runs with the room and side the handler
      captured. */
  method LocalCandidateEvent(pc: Peer, store: RoomStore, candidate: Option<IceCandidateInit>,
                             docId: string, now: int, saveFails: bool)
    modifies store
    ensures pc.onIceCandidate.None? ==> store.rooms == old(store.rooms)
    ensures pc.onIceCandidate.Some? ==>
      store.rooms == LocalCandidateSaved(old(store.rooms), pc.onIceCandidate.value.roomId, candidate,
                                         pc.onIceCandidate.value.isCaller, docId, now, saveFails)
  {
    match pc.onIceCandidate
    case None =>
    case Some(h) =>
      SaveLocalIceCandidate(store, h.roomId, candidate, h.isCaller, docId, now, saveFails);
  }

  /** Several successful saves, in order: candidate `cs[k]` stored under
      `docIds[k]` at time `times[k]`. */
  function CandidatesSaved(rooms: Rooms, roomId: string, cs: seq<IceCandidateInit>, isCaller: bool,
                           docIds: seq<string>, times: seq<int>): Rooms
    requires |docIds| == |cs| == |times|
    decreases |cs|
  {
    if cs == [] then rooms
    else
      var k := |cs| - 1;
      WithCandidate(CandidatesSaved(rooms, roomId, cs[..k], isCaller, docIds[..k], times[..k]),
                    roomId, cs[k], isCaller, docIds[k], times[k])
  }

  /** The records the other side reads back for those saves. */
  function Received(cs: seq<IceCandidateInit>, docIds: seq<string>, times: seq<int>): (r: seq<IceCandidateWithId>)
    requires |docIds| == |cs| == |times|
    ensures |r| == |cs| && forall k :: 0 <= k < |cs| ==> r[k] == IceCandidateWithId(cs[k], docIds[k], Some(times[k]))
  {
    seq(|cs|, k requires 0 <= k < |cs| => IceCandidateWithId(cs[k], docIds[k], Some(times[k])))
  }

  /** Saved candidates reach the other side's poll, after what it found
      before and in the order they were saved; the saving side's own poll is
      unchanged. */
  lemma {:induction false} CandidatesReachOtherSide(rooms: Rooms, roomId: string, cs: seq<IceCandidateInit>,
                                                    isCaller: bool, docIds: seq<string>, times: seq<int>)
    requires |docIds| == |cs| == |times|
    ensures var after := CandidatesSaved(rooms, roomId, cs, isCaller, docIds, times);
      && RemoteCandidates(after, roomId, !isCaller) == RemoteCandidates(rooms, roomId, !isCaller) + Received(cs, docIds, times)
      && RemoteCandidates(after, roomId, isCaller) == RemoteCandidates(rooms, roomId, isCaller)
    decreases |cs|
  {
    if cs == [] {
      assert Received(cs, docIds, times) == [];
    } else {
      var k := |cs| - 1;
      var mid := CandidatesSaved(rooms, roomId, cs[..k], isCaller, docIds[..k], times[..k]);
      CandidatesReachOtherSide(rooms, roomId, cs[..k], isCaller, docIds[..k], times[..k]);
      SavedCandidateReachesOtherSide(mid, roomId, cs[k], isCaller, docIds[k], times[k]);
      assert Received(cs, docIds, times) == Received(cs[..k], docIds[..k], times[..k]) + [IceCandidateWithId(cs[k], docIds[k], Some(times[k]))];
    }
  }

  /** The peer surfacing the local candidates `gathered`, one event each;
      `docIds` and `times` are what the store assigns to each save. With no
      handler installed every one is lost; with one, each is saved in turn. */
  method SurfaceCandidates(pc: Peer, store: RoomStore, gathered: seq<IceCandidateInit>,
                           docIds: seq<string>, times: seq<int>)
    requires |docIds| == |gathered| == |times|
    modifies store
    ensures pc.onIceCandidate.None? ==> store.rooms == old(store.rooms)
    ensures pc.onIceCandidate.Some? ==>
      store.rooms == CandidatesSaved(old(store.rooms), pc.onIceCandidate.value.roomId, gathered,
                                     pc.onIceCandidate.value.isCaller, docIds, times)
  {
    var i := 0;
    while i < |gathered|
      invariant 0 <= i <= |gathered|
      invariant pc.onIceCandidate.None? ==> store.rooms == old(store.rooms)
      invariant pc.onIceCandidate.Some? ==>
        store.rooms == CandidatesSaved(old(store.rooms), pc.onIceCandidate.value.roomId, gathered[..i],
                                       pc.onIceCandidate.value.isCaller, docIds[..i], times[..i])
    {
      LocalCandidateEvent(pc, store, Some(gathered[i]), docIds[i], times[i], false);
      assert gathered[..i + 1][..i] == gathered[..i];
      assert docIds[..i + 1][..i] == docIds[..i];
      assert times[..i + 1][..i] == times[..i];
      i := i + 1;
    }
    assert gathered[..i] == gathered && docIds[..i] == docIds && times[..i] == times;
  }

  /** A room just created under a fresh id holds no caller candidates. */
  lemma FreshRoomHasNoCandidates(rooms: Rooms, roomId: string, offer: SessionDescription)
    requires roomId !in rooms
    ensures RemoteCandidates(WithRoomCreated(rooms, roomId, offer), roomId, false) == []
  {
    assert RoomAt(WithRoomCreated(rooms, roomId, offer), roomId).callerCandidates == [];
  }

  /** Every candidate in `cs`, once saved, is among those the other side reads. */
  lemma {:induction false} SavedCandidatesAreRead(rooms: Rooms, roomId: string, cs: seq<IceCandidateInit>,
                                                  isCaller: bool, docIds: seq<string>, times: seq<int>)
    requires |docIds| == |cs| == |times|
    ensures forall k :: 0 <= k < |cs| ==>
      cs[k] in Inits(RemoteCandidates(CandidatesSaved(rooms, roomId, cs, isCaller, docIds, times), roomId, !isCaller))
  {
    CandidatesReachOtherSide(rooms, roomId, cs, isCaller, docIds, times);
    var before := RemoteCandidates(rooms, roomId, !isCaller);
    var seen := Inits(RemoteCandidates(CandidatesSaved(rooms, roomId, cs, isCaller, docIds, times), roomId, !isCaller));
    InitsConcat(before, Received(cs, docIds, times));
    forall k | 0 <= k < |cs| ensures cs[k] in seen {
      assert seen[|before| + k] == Received(cs, docIds, times)[k].init;
    }
  }

  /** As written, `createConnection` installs the `onicecandidate` handler
      only once the room exists, after the offer became the local
      description and gathering began: the candidates the peer surfaces
      while `createRoom` is awaited reach no handler, and the callee's first
      poll of the new room finds none of them. Saved once the handler
      exists, every one of them reaches the callee. */
  lemma CallerWindowLosesCandidates(rooms: Rooms, roomId: string, offer: SessionDescription,
                                    gathered: seq<IceCandidateInit>, docIds: seq<string>, times: seq<int>)
    requires roomId !in rooms && |docIds| == |gathered| == |times|
    ensures RemoteCandidates(WithRoomCreated(rooms, roomId, offer), roomId, false) == []
    ensures var replayed := CandidatesSaved(WithRoomCreated(rooms, roomId, offer), roomId, gathered, true, docIds, times);
      forall k :: 0 <= k < |gathered| ==> gathered[k] in Inits(RemoteCandidates(replayed, roomId, false))
  {
    FreshRoomHasNoCandidates(rooms, roomId, offer);
    SavedCandidatesAreRead(WithRoomCreated(rooms, roomId, offer), roomId, gathered, true, docIds, times);
  }

  // ---------------------------------------------------------------------------
  // setupIceCandidateHandling

  /** The state `setupIceCandidateHandling` captures for one peer: the
      processed ids, the candidate buffer, whether the peer's
      `setRemoteDescription` is still the flushing wrapper, and the id of the
      candidate polling interval. `applied` records the candidates this
      handling has given the peer, which is every candidate the peer has. */
  class IceHandling {
    const pc: Peer
    const scheduler: Scheduler
    const store: RoomStore
    const roomId: string
    const isCaller: bool
    var processed: set<string>
    var buffer: seq<IceCandidateWithId>
    ghost var applied: seq<IceCandidateWithId>
    const pollTimer: TimerId

    ghost function State(): Ingestion
      reads this
    {
      Ingestion(processed, buffer, applied)
    }

    ghost predicate Valid()
      reads this, pc
    {
      Inv(State()) && pc.added == Inits(applied)
    }

    /** `setupIceCandidateHandling(pc, roomId, isCaller)`: install the
        wrapper, process the candidates already in the store once (a failed
        fetch is caught), then poll every 2 s. The interval is allocated
        first here so that its id can be a constant, as it is in the
        cleanup closure; no tick can fire before the constructor returns,
        so the resulting state is the same. */
    constructor(pc: Peer, scheduler: Scheduler, store: RoomStore, roomId: string, isCaller: bool,
                fetchFails: bool)
      requires pc.added == [] && scheduler.Valid()
      modifies pc`added, pc`wrapped, pc`onIceCandidate, scheduler
      ensures this.pc == pc && this.scheduler == scheduler && this.store == store
      ensures this.roomId == roomId && this.isCaller == isCaller
      ensures Valid() && pc.wrapped && scheduler.Valid()
      ensures pc.onIceCandidate == Some(LocalHandler(roomId, isCaller))
      ensures fetchFails ==> State() == Ingestion({}, [], [])
      ensures !fetchFails ==>
        State() == Process(Ingestion({}, [], []), pc.remoteDescription.Some?,
                           RemoteCandidates(store.rooms, roomId, isCaller)).0
      ensures pollTimer !in old(scheduler.timers)
      ensures scheduler.timers == old(scheduler.timers)[pollTimer := TimerState(PollingIntervalsMs.iceCandidates, true, true)]
    {
      this.pc := pc;
      this.scheduler := scheduler;
      this.store := store;
      this.roomId := roomId;
      this.isCaller := isCaller;
      processed := {};
      buffer := [];
      applied := [];
      var id := scheduler.CreateInterval(PollingIntervalsMs.iceCandidates);
      pollTimer := id;
      new;
      pc.onIceCandidate := Some(LocalHandler(roomId, isCaller));
      pc.wrapped := true;
      var _ := ProcessRemote(fetchFails);
    }

    /** `processRemoteIceCandidates`: fetch the other side's candidates and
        run the ingestion loop over them; the result is whether the loop
        completed and the peer is then connected. A failed fetch, like a
        candidate that cannot be built, is caught and yields false. */
    method ProcessRemote(fetchFails: bool) returns (connected: bool)
      requires Valid()
      modifies this`processed, this`buffer, this`applied, pc`added
      ensures Valid()
      ensures fetchFails ==> !connected && State() == old(State())
      ensures !fetchFails ==>
        var (s, completed) := Process(old(State()), pc.remoteDescription.Some?,
                                      RemoteCandidates(store.rooms, roomId, isCaller));
        State() == s && connected == (completed && pc.Connected())
    {
      if fetchFails {
        return false;
      }
      var fetched := store.GetRemoteIceCandidates(roomId, isCaller);
      CollectionChoicesAgree(isCaller);
      assert fetched == RemoteCandidates(store.rooms, roomId, isCaller);
      var remoteSet := pc.remoteDescription.Some?;
      ghost var start := State();
      var i := 0;
      while i < |fetched|
        invariant 0 <= i <= |fetched|
        invariant Valid()
        invariant Process(start, remoteSet, fetched) == Process(State(), remoteSet, fetched[i..])
      {
        ProcessUnfold(State(), remoteSet, fetched[i..]);
        assert fetched[i..][0] == fetched[i] && fetched[i..][1..] == fetched[i + 1..];
        var ok := Ingest(fetched[i], remoteSet);
        if !ok {
          return false;
        }
        i := i + 1;
      }
      connected := pc.Connected();
    }

    /** The loop body for one fetched candidate: skip a processed id;
        otherwise mark it, then build the candidate (false when that
        throws) and give it to the peer or buffer it. */
    method Ingest(c: IceCandidateWithId, remoteSet: bool) returns (ok: bool)
      requires Valid()
      modifies this`processed, this`buffer, this`applied, pc`added
      ensures Valid()
      ensures (State(), ok) == Step(old(State()), remoteSet, c)
    {
      ok := true;
      if c.id !in processed {
        StepKeepsInv(State(), remoteSet, c);
        processed := processed + {c.id};
        if !Constructible(c.init) {
          return false;
        }
        if remoteSet {
          pc.AddIceCandidate(c.init);
          InitsConcat(applied, [c]);
          applied := applied + [c];
        } else {
          buffer := buffer + [c];
        }
      }
    }

    /** `processBufferedCandidates`: with a remote description and a
        non-empty buffer, give every buffered candidate to the peer in order
        (failures are caught and dropped), then empty the buffer. */
    method FlushBuffer()
      requires Valid()
      modifies this`buffer, this`applied, pc`added
      ensures Valid()
      ensures State() == Flush(old(State()), pc.remoteDescription.Some?)
    {
      if |buffer| > 0 && pc.remoteDescription.Some? {
        FlushKeepsInv(State(), true);
        for k := 0 to |buffer|
          modifies pc`added
          invariant pc.added == Inits(applied) + Inits(buffer[..k])
        {
          InitsConcat(buffer[..k], [buffer[k]]);
          assert buffer[..k + 1] == buffer[..k] + [buffer[k]];
          pc.AddIceCandidate(buffer[k].init);
        }
        assert buffer[..|buffer|] == buffer;
        InitsConcat(applied, buffer);
        applied := applied + buffer;
        buffer := [];
      }
    }

    /** The peer's `setRemoteDescription` as installed: the platform call
        first, and only when it succeeds and the wrapper is still in place,
        the buffer flush. */
    method SetRemoteDescription(d: SessionDescription, accepted: bool) returns (ok: bool)
      requires Valid()
      modifies pc`remoteDescription, this`buffer, this`applied, pc`added
      ensures Valid()
      ensures ok == accepted
      ensures pc.remoteDescription == if accepted then Some(d) else old(pc.remoteDescription)
      ensures State() == if pc.wrapped && accepted then Flush(old(State()), true) else old(State())
    {
      ok := pc.SetRemoteDescription(d, accepted);
      if pc.wrapped && ok {
        FlushBuffer();
      }
    }

    /** A firing of the candidate polling interval, whose stop condition is
        `isConnected(pc)`; `run` says whether the callback starts. */
    method PollTick() returns (run: bool)
      requires scheduler.Valid()
      modifies scheduler
      ensures scheduler.Valid()
      ensures pollTimer in old(scheduler.timers) ==>
        var (t, r) := Fire(old(scheduler.timers)[pollTimer], pc.Connected());
        scheduler.timers == old(scheduler.timers)[pollTimer := t] && run == r
      ensures pollTimer !in old(scheduler.timers) ==> scheduler.timers == old(scheduler.timers) && !run
    {
      run := scheduler.Tick(pollTimer, pc.Connected());
    }

    /** The polling callback, run after `PollTick` said so (the transport may
        change the peer's states while its fetch is in flight): process the
        candidates, and stop polling once the peer is connected. */
    method PollCallback(fetchFails: bool)
      requires Valid() && scheduler.Valid()
      modifies this`processed, this`buffer, this`applied, pc`added, scheduler
      ensures Valid() && scheduler.Valid()
      ensures fetchFails ==> State() == old(State())
      ensures !fetchFails ==>
        State() == Process(old(State()), pc.remoteDescription.Some?,
                           RemoteCandidates(store.rooms, roomId, isCaller)).0
      ensures var stopped := !fetchFails && pc.Connected() &&
                Process(old(State()), pc.remoteDescription.Some?, RemoteCandidates(store.rooms, roomId, isCaller)).1;
        && (stopped && pollTimer in old(scheduler.timers) ==>
              scheduler.timers == old(scheduler.timers)[pollTimer := Disposed(old(scheduler.timers)[pollTimer])])
        && (!stopped || pollTimer !in old(scheduler.timers) ==> scheduler.timers == old(scheduler.timers))
    {
      var connected := ProcessRemote(fetchFails);
      if connected {
        scheduler.Dispose(pollTimer);
      }
    }

    /** The cleanup `setupIceCandidateHandling` returns: stop polling and put
        the platform's own `setRemoteDescription` back. */
    method Cleanup()
      requires scheduler.Valid()
      modifies pc`wrapped, scheduler
      ensures scheduler.Valid() && !pc.wrapped && scheduler.Stopped(pollTimer)
      ensures pollTimer in old(scheduler.timers) ==>
        scheduler.timers == old(scheduler.timers)[pollTimer := Disposed(old(scheduler.timers)[pollTimer])]
      ensures pollTimer !in old(scheduler.timers) ==> scheduler.timers == old(scheduler.timers)
    {
      scheduler.Dispose(pollTimer);
      pc.wrapped := false;
    }
  }

  // ---------------------------------------------------------------------------
  // listenForAnswer

  /** The caller's answer poller: its interval, and the answers whose delayed
      retry is pending. It applies answers through the peer's installed
      `setRemoteDescription`, i.e. through `ice`. */
  class AnswerListener {
    const pc: Peer
    const ice: IceHandling
    const scheduler: Scheduler
    const store: RoomStore
    const roomId: string
    const timer: TimerId
    var retries: seq<SessionDescription>

    ghost predicate Valid()
      reads this, pc, ice, scheduler
    {
      ice.pc == pc && ice.Valid() && scheduler.Valid() && timer in scheduler.timers
    }

    ghost function Snapshot(): AnswerPoll
      requires timer in scheduler.timers
      reads this, scheduler, pc
    {
      AnswerPoll(scheduler.timers[timer], pc.remoteDescription, retries)
    }

    /** `listenForAnswer(pc, roomId)`: start polling every second. */
    constructor(ice: IceHandling, scheduler: Scheduler, store: RoomStore, roomId: string)
      requires ice.Valid() && scheduler.Valid()
      modifies scheduler
      ensures this.pc == ice.pc && this.ice == ice && this.scheduler == scheduler
      ensures this.store == store && this.roomId == roomId
      ensures Valid()
      ensures timer !in old(scheduler.timers)
      ensures scheduler.timers == old(scheduler.timers)[timer := TimerState(PollingIntervalsMs.answer, true, true)]
      ensures Snapshot() == AnswerPoll(TimerState(PollingIntervalsMs.answer, true, true), pc.remoteDescription, [])
    {
      this.pc := ice.pc;
      this.ice := ice;
      this.scheduler := scheduler;
      this.store := store;
      this.roomId := roomId;
      retries := [];
      var id := scheduler.CreateInterval(PollingIntervalsMs.answer);
      timer := id;
      new;
    }

    /** One firing: `fetchFails` says whether `getRemoteAnswer` throws,
        `accepted` whether the peer accepts the answer it returns. */
    method Tick(fetchFails: bool, accepted: bool)
      requires Valid()
      modifies scheduler, this`retries, pc`remoteDescription, pc`added, ice`buffer, ice`applied
      ensures Valid()
      ensures Snapshot() == AnswerTick(old(Snapshot()), old(pc.Connected()), fetchFails,
                                       RemoteAnswer(store.rooms, roomId), accepted)
      ensures scheduler.timers == old(scheduler.timers)[timer := Snapshot().timer]
      ensures ice.State() == if pc.remoteDescription != old(pc.remoteDescription) && pc.wrapped
                             then Flush(old(ice.State()), true) else old(ice.State())
    {
      var stop := pc.Connected() || pc.remoteDescription.Some?;
      var run := scheduler.Tick(timer, stop);
      if run && !fetchFails {
        var answer := store.GetRemoteAnswer(roomId);
        if answer.Some? && pc.remoteDescription.None? {
          var ok := ice.SetRemoteDescription(answer.value, accepted);
          if ok {
            scheduler.Dispose(timer);
          } else {
            retries := retries + [answer.value];
          }
        }
      }
    }

    /** The delayed retry of the oldest failed answer. */
    method Retry(accepted: bool)
      requires Valid() && |retries| > 0
      modifies scheduler, this`retries, pc`remoteDescription, pc`added, ice`buffer, ice`applied
      ensures Valid()
      ensures Snapshot() == AnswerRetry(old(Snapshot()), accepted)
      ensures scheduler.timers == old(scheduler.timers)[timer := Snapshot().timer]
      ensures ice.State() == if pc.remoteDescription != old(pc.remoteDescription) && pc.wrapped
                             then Flush(old(ice.State()), true) else old(ice.State())
    {
      var answer := retries[0];
      retries := retries[1..];
      if pc.remoteDescription.None? {
        var ok := ice.SetRemoteDescription(answer, accepted);
        if ok {
          scheduler.Dispose(timer);
        }
      }
    }
  }

  // ---------------------------------------------------------------------------
  // setupStatusMonitoring

  /** The status heartbeat's captured state: the frequent interval, the
      `isConnectedState` flag, the slow interval once started
      (`slowPollingCleanup`), and the number of status requests issued. */
  class StatusMonitor {
    const pc: Peer
    const scheduler: Scheduler
    const store: RoomStore
    const roomId: string
    const fast: TimerId
    var isConnectedState: bool
    var slowPollingCleanup: Option<TimerId>
    var checks: nat

    ghost predicate Valid()
      reads this, scheduler
    {
      && scheduler.Valid()
      && fast in scheduler.timers
      && (slowPollingCleanup.Some? ==>
            slowPollingCleanup.value in scheduler.timers && slowPollingCleanup.value != fast)
    }

    /** `id` is not the slow interval. */
    predicate NotSlow(id: TimerId)
      reads this
    {
      slowPollingCleanup.None? || id != slowPollingCleanup.value
    }

    ghost function Snapshot(): Monitor
      requires Valid()
      reads this, scheduler
    {
      Monitor(scheduler.timers[fast],
              if slowPollingCleanup.Some? then Some(scheduler.timers[slowPollingCleanup.value]) else None,
              isConnectedState, checks)
    }

    /** `setupStatusMonitoring(roomId, pc)`: start the frequent interval. */
    constructor(pc: Peer, scheduler: Scheduler, store: RoomStore, roomId: string)
      requires scheduler.Valid()
      modifies scheduler
      ensures this.pc == pc && this.scheduler == scheduler && this.store == store && this.roomId == roomId
      ensures Valid() && Snapshot() == MonitorStart
      ensures fast !in old(scheduler.timers)
      ensures scheduler.timers == old(scheduler.timers)[fast := MonitorStart.fast]
      ensures scheduler.timers.Keys == old(scheduler.timers.Keys) + {fast}
    {
      this.pc := pc;
      this.scheduler := scheduler;
      this.store := store;
      this.roomId := roomId;
      isConnectedState := false;
      slowPollingCleanup := None;
      checks := 0;
      var id := scheduler.CreateInterval(PollingIntervalsMs.statusFrequent);
      fast := id;
      new;
    }

    /** One firing of the frequent interval; `checkFails` says whether
        `checkStatus` throws. */
    method FastTick(checkFails: bool)
      requires Valid()
      modifies this`isConnectedState, this`slowPollingCleanup, this`checks, scheduler
      ensures Valid()
      ensures Snapshot() == Pollers.FastTick(old(Snapshot()), pc.Connected(), pc.Failed(), checkFails)
      ensures forall id :: (id in old(scheduler.timers) && id != fast && old(NotSlow(id))) ==>
                id in scheduler.timers && scheduler.timers[id] == old(scheduler.timers)[id]
    {
      var run := scheduler.Tick(fast, pc.Failed());
      if run {
        checks := checks + 1;
        if !checkFails {
          var _ := store.CheckStatus(roomId);
          var currentlyConnected := pc.Connected();
          if currentlyConnected && !isConnectedState {
            isConnectedState := true;
            scheduler.Dispose(fast);
            var slow := scheduler.CreateInterval(PollingIntervalsMs.statusSlow);
            slowPollingCleanup := Some(slow);
          }
        }
      }
    }

    /** One firing of the slow interval, if it has been started. */
    method SlowTick()
      requires Valid()
      modifies this`checks, scheduler
      ensures Valid()
      ensures Snapshot() == Pollers.SlowTick(old(Snapshot()), pc.Failed())
      ensures forall id :: (id in old(scheduler.timers) && NotSlow(id)) ==>
                id in scheduler.timers && scheduler.timers[id] == old(scheduler.timers)[id]
    {
      if slowPollingCleanup.Some? {
        var run := scheduler.Tick(slowPollingCleanup.value, pc.Failed());
        if run {
          checks := checks + 1;
          var _ := store.CheckStatus(roomId);
        }
      }
    }

    /** The disposer `setupStatusMonitoring` returns: stop both intervals. */
    method Dispose()
      requires scheduler.Valid()
      modifies scheduler
      ensures scheduler.Valid()
      ensures scheduler.Stopped(fast)
      ensures slowPollingCleanup.Some? ==> scheduler.Stopped(slowPollingCleanup.value)
      ensures scheduler.timers.Keys == old(scheduler.timers.Keys)
      ensures old(Valid()) ==> Valid() && Snapshot() == DisposeMonitor(old(Snapshot()))
      ensures forall id :: (id in old(scheduler.timers) && id != fast && NotSlow(id)) ==>
                id in scheduler.timers && scheduler.timers[id] == old(scheduler.timers)[id]
    {
      scheduler.Dispose(fast);
      if slowPollingCleanup.Some? {
        scheduler.Dispose(slowPollingCleanup.value);
      }
    }
  }

  // ---------------------------------------------------------------------------
  // useWebRTC

  /** A cleanup function the hook registers: the one
      `setupIceCandidateHandling` returns, the answer poller's stop function,
      or the status heartbeat's disposer. */
  datatype Cleanup =
    | IceCleanup(handling: IceHandling)
    | AnswerCleanup(listener: AnswerListener)
    | StatusCleanup(monitor: StatusMonitor)

  /** The heartbeats among `cleanups`: the only cleanups whose intervals
      can change after registration (the slow interval is created later). */
  function Monitors(cleanups: seq<Cleanup>): set<StatusMonitor> {
    set i | 0 <= i < |cleanups| && cleanups[i].StatusCleanup? :: cleanups[i].monitor
  }

  function SchedulerOf(c: Cleanup): Scheduler {
    match c
    case IceCleanup(h) => h.scheduler
    case AnswerCleanup(l) => l.scheduler
    case StatusCleanup(m) => m.scheduler
  }

  /** The interval a cleanup was registered for: the one its closure
      captured when it was created. */
  function TimerOf(c: Cleanup): TimerId {
    match c
    case IceCleanup(h) => h.pollTimer
    case AnswerCleanup(l) => l.timer
    case StatusCleanup(m) => m.fast
  }

  /** The intervals calling a cleanup stops: its own, and for the heartbeat
      also the slow interval, once that exists. */
  ghost function StopSet(c: Cleanup): set<TimerId>
    reads (if c.StatusCleanup? then {c.monitor} else {})`slowPollingCleanup
  {
    {TimerOf(c)} +
      if c.StatusCleanup? && c.monitor.slowPollingCleanup.Some? then {c.monitor.slowPollingCleanup.value} else {}
  }

  /** Where a join stops: the offer could not be fetched (network failure or
      "Room not found"), the offer could not be applied (missing from the
      room, or rejected by the peer), the answer could not be saved, or the
      join completed. */
  datatype JoinStep = OfferNotFetched | OfferNotApplied | AnswerNotSaved | Joined

  /** The step a join reaches, from the store's answer to `fetchOffer`, the
      peer's verdict on the offer and the outcome of `saveAnswer`. Each
      failing step throws and ends the join. */
  function JoinOutcome(fetchFails: bool, offer: Result<FetchedOffer, StoreError>,
                       offerAccepted: bool, saveFails: bool): (r: JoinStep)
    ensures r == OfferNotFetched <==> fetchFails || offer.Err?
    ensures r == Joined <==> !fetchFails && offer.Ok? && offer.value.offer.Some? && offerAccepted && !saveFails
  {
    if fetchFails || offer.Err? then OfferNotFetched
    else if offer.value.offer.None? || !offerAccepted then OfferNotApplied
    else if saveFails then AnswerNotSaved
    else Joined
  }

  /** The pollers a join leaves behind, and those it registers for cleanup. */
  datatype Poller = CandidatePoller | StatusPoller

  function JoinStarted(step: JoinStep): set<Poller> {
    if step == OfferNotFetched then {}
    else if step == Joined then {CandidatePoller, StatusPoller}
    else {CandidatePoller}
  }

  function JoinRegistered(step: JoinStep): set<Poller> {
    if step == Joined then {CandidatePoller, StatusPoller} else {}
  }

  /** As written, a join that fails after candidate handling was set up
      leaves the candidate poller running with no cleanup registered for it;
      a room whose document has no offer is one such input. */
  lemma JoinLeaksCandidatePoller(rooms: Rooms, roomId: string, accepted: bool, saveFails: bool)
    requires RoomAt(rooms, roomId).doc.Some? && RoomAt(rooms, roomId).doc.value.offer.None?
    ensures JoinOutcome(false, OfferOf(rooms, roomId), accepted, saveFails) == OfferNotApplied
    ensures JoinStarted(OfferNotApplied) - JoinRegistered(OfferNotApplied) == {CandidatePoller}
    ensures forall step :: JoinStarted(step) <= JoinRegistered(step) <==> step in {OfferNotFetched, Joined}
  {
  }

  /** With the candidate cleanup registered as soon as candidate handling
      exists, every poller a join starts is registered, whatever step it
      reaches. */
  function JoinRegisteredFixed(step: JoinStep): (r: set<Poller>)
    ensures r == JoinStarted(step)
  {
    (if step == OfferNotFetched then {} else {CandidatePoller}) + (if step == Joined then {StatusPoller} else {})
  }

  const CreateErrorPrefix := "Error al crear conexi\U{f3}n: "
  const JoinErrorPrefix := "Error al unirse a la sala: "
  const RoomNotFoundText := "Error: Room not found"

  function ChannelErrorMessage(isCallee: bool): (r: string)
    ensures StartsWith(r, "Error en canal de datos")
    ensures isCallee <==> |r| > |"Error en canal de datos"|
    ensures isCallee ==> r[|"Error en canal de datos"|..] == " (callee)"
    ensures !isCallee ==> r == "Error en canal de datos"
  {
    "Error en canal de datos" + if isCallee then " (callee)" else ""
  }

  /** The hook's state: the React state it exposes, the registered cleanups,
      and the objects it works with. `errorText` parameters stand for the
      text of an error thrown by the platform or the network. */
  class WebRtcHook {
    const scheduler: Scheduler
    const store: RoomStore
    const session: Session
    var roomId: Option<string>
    var connected: bool
    var dataChannel: DataChannel?
    var connectionState: ConnectionState
    var iceConnectionState: IceConnectionState
    var errorMessage: Option<string>
    var cleanupFunctions: seq<Cleanup>

    /** Every registered cleanup works on this hook's timers, and the
        intervals they were registered for exist. */
    ghost predicate Valid()
      reads this`cleanupFunctions, scheduler
    {
      && scheduler.Valid()
      && (forall i :: 0 <= i < |cleanupFunctions| ==> SchedulerOf(cleanupFunctions[i]) == scheduler)
      && OwnedTimers(cleanupFunctions) <= scheduler.timers.Keys
    }

    constructor(scheduler: Scheduler, store: RoomStore, session: Session)
      requires scheduler.Valid()
      ensures this.scheduler == scheduler && this.store == store && this.session == session
      ensures roomId == None && !connected && dataChannel == null && errorMessage == None
      ensures connectionState == ConnectionState.New && iceConnectionState == IceConnectionState.New
      ensures cleanupFunctions == [] && Valid()
    {
      this.scheduler := scheduler;
      this.store := store;
      this.session := session;
      roomId := None;
      connected := false;
      dataChannel := null;
      connectionState := ConnectionState.New;
      iceConnectionState := IceConnectionState.New;
      errorMessage := None;
      cleanupFunctions := [];
    }

    /** `onconnectionstatechange`: mirror the peer's connection state and
        recompute `connected`. */
    method OnConnectionStateChange(pc: Peer)
      modifies this`connectionState, this`connected
      ensures connectionState == pc.connectionState
      ensures connected == IsConnected(pc.connectionState, pc.iceConnectionState)
    {
      connectionState := pc.connectionState;
      connected := pc.Connected();
    }

    /** `oniceconnectionstatechange`: mirror the ICE state, recompute
        `connected`, and restart ICE when it failed. */
    method OnIceConnectionStateChange(pc: Peer)
      modifies this`iceConnectionState, this`connected, pc`iceRestarts
      ensures iceConnectionState == pc.iceConnectionState
      ensures connected == IsConnected(pc.connectionState, pc.iceConnectionState)
      ensures pc.iceRestarts == old(pc.iceRestarts) + if pc.iceConnectionState == IceConnectionState.Failed then 1 else 0
    {
      iceConnectionState := pc.iceConnectionState;
      connected := pc.Connected();
      if pc.iceConnectionState == IceConnectionState.Failed {
        pc.RestartIce();
      }
    }

    /** The data channel's `onopen`. */
    method OnChannelOpen()
      modifies this`connected
      ensures connected
    {
      connected := true;
    }

    /** The data channel's `onclose`. */
    method OnChannelClose()
      modifies this`connected
      ensures !connected
    {
      connected := false;
    }

    /** The data channel's `onerror`; the callee's handlers carry a suffix. */
    method OnChannelError(isCallee: bool)
      modifies this`errorMessage
      ensures errorMessage == Some(ChannelErrorMessage(isCallee))
    {
      errorMessage := Some(ChannelErrorMessage(isCallee));
    }

    /** The callee's `ondatachannel`: keep the channel the caller opened. */
    method OnDataChannel(channel: DataChannel)
      modifies this`dataChannel
      ensures dataChannel == channel
    {
      dataChannel := channel;
    }

    /** `sendMessage(msg)`: transmit only when a channel exists and is open;
        otherwise nothing is sent. */
    method SendMessage(msg: string) returns (sent: bool)
      modifies dataChannel
      ensures sent <==> old(dataChannel != null && dataChannel.readyState == ChannelState.Open)
      ensures sent ==> dataChannel.sent == old(dataChannel.sent) + [msg]
      ensures !sent && dataChannel != null ==> unchanged(dataChannel)
    {
      if dataChannel == null {
        return false;
      }
      if dataChannel.readyState == ChannelState.Open {
        dataChannel.Send(msg);
        sent := true;
      } else {
        sent := false;
      }
    }

    /** `cleanupFunctions.current.push(...)`: register cleanups that work on
        this hook's timers; the intervals owned afterwards are the old ones
        and those of the new cleanups. */
    method Register(added: seq<Cleanup>)
      requires Valid()
      requires forall k :: 0 <= k < |added| ==> SchedulerOf(added[k]) == scheduler
      requires OwnedTimers(added) <= scheduler.timers.Keys
      modifies this`cleanupFunctions
      ensures cleanupFunctions == old(cleanupFunctions) + added
      ensures Valid()
      ensures OwnedTimers(cleanupFunctions) == OwnedTimers(old(cleanupFunctions)) + OwnedTimers(added)
      ensures WrappedPeers(cleanupFunctions) == WrappedPeers(old(cleanupFunctions)) + WrappedPeers(added)
    {
      OwnedTimersAppend(cleanupFunctions, added);
      WrappedPeersAppend(cleanupFunctions, added);
      cleanupFunctions := cleanupFunctions + added;
    }

    /** `createConnection()`, the caller's side: a new peer with its data
        channel, the offer as local description, the room created with the
        offer, then candidate handling, the answer poller and the heartbeat,
        whose three cleanups are registered together; the hook and the
        session then hold the connection. `newRoomId` is the id the store
        generates; a failure of `createRoom` is caught into `errorMessage`
        before any interval starts. `gathered` are the local candidates the
        peer surfaces while `createRoom` is awaited, after the offer became
        the local description; no `onicecandidate` handler is installed yet,
        so none of them is saved. */
    method CreateConnection(offer: SessionDescription, newRoomId: string, createRoomFails: bool,
                            iceFetchFails: bool, errorText: string,
                            gathered: seq<IceCandidateInit>, docIds: seq<string>, times: seq<int>)
      returns (pc: Peer, channel: DataChannel)
      requires Valid() && |docIds| == |gathered| == |times|
      modifies this`errorMessage, this`roomId, this`dataChannel, this`cleanupFunctions, scheduler, store
      modifies session`pc, session`dataChannel, session`roomId, session`isConnected
      ensures Valid()
      ensures fresh(pc) && fresh(channel) && channel.config == DataChannelSettings
      ensures pc.localDescription == Some(offer)
      ensures pc.onIceCandidate == if createRoomFails then None else Some(LocalHandler(newRoomId, true))
      ensures createRoomFails ==>
        && errorMessage == Some(CreateErrorPrefix + errorText)
        && store.rooms == old(store.rooms) && scheduler.timers == old(scheduler.timers)
        && cleanupFunctions == old(cleanupFunctions) && roomId == old(roomId) && dataChannel == old(dataChannel)
        && unchanged(session)
      ensures !createRoomFails ==>
        && errorMessage == None && roomId == Some(newRoomId) && dataChannel == channel
        && store.rooms == WithRoomCreated(old(store.rooms), newRoomId, offer)
        && |cleanupFunctions| == |old(cleanupFunctions)| + 3
        && cleanupFunctions[..|old(cleanupFunctions)|] == old(cleanupFunctions)
        && cleanupFunctions[|old(cleanupFunctions)|].IceCleanup?
        && cleanupFunctions[|old(cleanupFunctions)|].handling.pc == pc
        && cleanupFunctions[|old(cleanupFunctions)| + 1].AnswerCleanup?
        && cleanupFunctions[|old(cleanupFunctions)| + 2].StatusCleanup?
        && session.pc == pc && session.dataChannel == channel && session.roomId == Some(newRoomId)
      ensures old(scheduler.timers.Keys) <= scheduler.timers.Keys
      ensures OwnedTimers(cleanupFunctions) == old(OwnedTimers(cleanupFunctions)) + (scheduler.timers.Keys - old(scheduler.timers.Keys))
    {
      errorMessage := None;
      pc := new Peer();
      channel := new DataChannel(DataChannelSettings);
      pc.SetLocalDescription(offer);
      SurfaceCandidates(pc, store, gathered, docIds, times);
      if createRoomFails {
        errorMessage := Some(CreateErrorPrefix + errorText);
        return;
      }
      var id := store.CreateRoom(offer, newRoomId);
      roomId := Some(id);
      var added := StartCallerPollers(pc, scheduler, store, id, iceFetchFails);
      Register(added);
      dataChannel := channel;
      session.SetConnection(pc, channel, id);
    }

    /** `createConnection()` with the `onicecandidate` handler installed
        before the offer is set and the candidates it receives queued until
        the room exists: those surfaced while `createRoom` is awaited are
        saved, in order, once candidate handling starts. Everything else is
        as in `CreateConnection`. */
    method CreateConnectionFixed(offer: SessionDescription, newRoomId: string, createRoomFails: bool,
                                 iceFetchFails: bool, errorText: string,
                                 gathered: seq<IceCandidateInit>, docIds: seq<string>, times: seq<int>)
      returns (pc: Peer, channel: DataChannel)
      requires Valid() && |docIds| == |gathered| == |times|
      modifies this`errorMessage, this`roomId, this`dataChannel, this`cleanupFunctions, scheduler, store
      modifies session`pc, session`dataChannel, session`roomId, session`isConnected
      ensures Valid()
      ensures fresh(pc) && fresh(channel) && pc.localDescription == Some(offer)
      ensures createRoomFails ==>
        errorMessage == Some(CreateErrorPrefix + errorText) && store.rooms == old(store.rooms)
      ensures !createRoomFails ==>
        && errorMessage == None && roomId == Some(newRoomId)
        && pc.onIceCandidate == Some(LocalHandler(newRoomId, true))
        && store.rooms == CandidatesSaved(WithRoomCreated(old(store.rooms), newRoomId, offer), newRoomId,
                                          gathered, true, docIds, times)
      ensures old(scheduler.timers.Keys) <= scheduler.timers.Keys
      ensures OwnedTimers(cleanupFunctions) == old(OwnedTimers(cleanupFunctions)) + (scheduler.timers.Keys - old(scheduler.timers.Keys))
    {
      pc, channel := CreateConnection(offer, newRoomId, createRoomFails, iceFetchFails, errorText, [], [], []);
      if !createRoomFails {
        SurfaceCandidates(pc, store, gathered, docIds, times);
      }
    }

    /** `joinConnection(roomId)`, the callee's side, as written: fetch the
        offer, create the peer, set up candidate handling, apply the offer
        through the installed wrapper, set the answer as local description,
        save it, start the heartbeat, and only then register the candidate
        and heartbeat cleanups. Every failure is caught into `errorMessage`.
        A failure after candidate handling was set up therefore leaves its
        interval running with no cleanup registered for it. */
    method JoinConnection(roomId: string, fetchFails: bool, iceFetchFails: bool, offerAccepted: bool,
                          answer: SessionDescription, saveFails: bool, errorText: string)
      returns (step: JoinStep, ice: IceHandling?)
      requires Valid()
      modifies this`errorMessage, this`roomId, this`cleanupFunctions, scheduler, store
      modifies session`pc, session`dataChannel, session`roomId, session`isConnected
      ensures Valid()
      ensures step == JoinOutcome(fetchFails, OfferOf(old(store.rooms), roomId), offerAccepted, saveFails)
      ensures errorMessage == JoinError(step, fetchFails, errorText)
      ensures store.rooms == if step == Joined then WithAnswer(old(store.rooms), roomId, answer) else old(store.rooms)
      ensures (ice == null) == (step == OfferNotFetched)
      ensures step == OfferNotFetched ==> scheduler.timers == old(scheduler.timers)
      ensures ice != null ==> fresh(ice) && fresh(ice.pc) && ice.roomId == roomId && !ice.isCaller
      ensures step == Joined ==>
        && |cleanupFunctions| == |old(cleanupFunctions)| + 2
        && cleanupFunctions[..|old(cleanupFunctions)|] == old(cleanupFunctions)
        && cleanupFunctions[|old(cleanupFunctions)|] == IceCleanup(ice)
        && cleanupFunctions[|old(cleanupFunctions)| + 1].StatusCleanup?
        && this.roomId == Some(roomId)
        && session.pc == ice.pc && session.dataChannel == null && session.roomId == Some(roomId)
        && ice.pc.remoteDescription == OfferOf(old(store.rooms), roomId).value.offer
        && ice.pc.localDescription == Some(answer)
      ensures step != Joined ==>
        cleanupFunctions == old(cleanupFunctions) && this.roomId == old(this.roomId) && unchanged(session)
      ensures step == OfferNotApplied || step == AnswerNotSaved ==>
        && ice.pollTimer !in old(scheduler.timers)
        && scheduler.timers == old(scheduler.timers)[ice.pollTimer := TimerState(PollingIntervalsMs.iceCandidates, true, true)]
        && ice.pollTimer !in OwnedTimers(cleanupFunctions)
        && ice.pc.wrapped && ice.pc !in WrappedPeers(cleanupFunctions)
      ensures old(scheduler.timers.Keys) <= scheduler.timers.Keys
      ensures OwnedTimers(cleanupFunctions) <= old(OwnedTimers(cleanupFunctions)) + (scheduler.timers.Keys - old(scheduler.timers.Keys))
      ensures (scheduler.timers.Keys - old(scheduler.timers.Keys) <= OwnedTimers(cleanupFunctions)) <==>
        JoinStarted(step) <= JoinRegistered(step)
    {
      errorMessage := None;
      ice := null;
      if fetchFails {
        step := OfferNotFetched;
        errorMessage := JoinError(step, fetchFails, errorText);
        return;
      }
      var fetched := store.FetchOffer(roomId);
      if fetched.Err? {
        step := OfferNotFetched;
        errorMessage := JoinError(step, fetchFails, errorText);
        return;
      }
      step, ice := JoinFetched(roomId, fetched.value.offer, iceFetchFails, offerAccepted, answer, saveFails, errorText);
    }

    /** The as-written join once the offer is fetched: peer and candidate
        handling, then the rest of the join with the candidate cleanup still
        pending. On a failure nothing is registered, and the candidate
        interval is the one change to the timers. */
    method JoinFetched(roomId: string, offer: Option<SessionDescription>, iceFetchFails: bool, offerAccepted: bool,
                       answer: SessionDescription, saveFails: bool, errorText: string)
      returns (step: JoinStep, ice: IceHandling)
      requires Valid()
      modifies this`errorMessage, this`roomId, this`cleanupFunctions, scheduler, store
      modifies session`pc, session`dataChannel, session`roomId, session`isConnected
      ensures Valid()
      ensures step == if offer.None? || !offerAccepted then OfferNotApplied
                      else if saveFails then AnswerNotSaved else Joined
      ensures errorMessage == JoinError(step, false, errorText)
      ensures store.rooms == if step == Joined then WithAnswer(old(store.rooms), roomId, answer) else old(store.rooms)
      ensures fresh(ice) && fresh(ice.pc) && ice.roomId == roomId && !ice.isCaller
      ensures old(scheduler.timers.Keys) <= scheduler.timers.Keys
      ensures step == Joined ==>
        && |cleanupFunctions| == |old(cleanupFunctions)| + 2
        && cleanupFunctions[..|old(cleanupFunctions)|] == old(cleanupFunctions)
        && cleanupFunctions[|old(cleanupFunctions)|] == IceCleanup(ice)
        && cleanupFunctions[|old(cleanupFunctions)| + 1].StatusCleanup?
        && this.roomId == Some(roomId)
        && session.pc == ice.pc && session.dataChannel == null && session.roomId == Some(roomId)
        && ice.pc.remoteDescription == offer && ice.pc.localDescription == Some(answer)
        && OwnedTimers(cleanupFunctions) == old(OwnedTimers(cleanupFunctions)) + (scheduler.timers.Keys - old(scheduler.timers.Keys))
      ensures step != Joined ==>
        && cleanupFunctions == old(cleanupFunctions) && this.roomId == old(this.roomId) && unchanged(session)
        && ice.pollTimer !in old(scheduler.timers)
        && scheduler.timers == old(scheduler.timers)[ice.pollTimer := TimerState(PollingIntervalsMs.iceCandidates, true, true)]
        && ice.pc.wrapped && ice.pc !in WrappedPeers(cleanupFunctions)
    {
      var pc := new Peer();
      ice := SetupCandidateHandling(pc, scheduler, store, roomId, false, iceFetchFails);
      SingleRegistration(IceCleanup(ice));
      var added;
      step, added := CompleteJoin(ice, roomId, offer, offerAccepted, answer, saveFails, errorText, [IceCleanup(ice)]);
    }

    /** The rest of a join once candidate handling exists: apply the offer,
        set and save the answer; on success start the heartbeat, push
        `pending` followed by the heartbeat's cleanup (`added`), and hold the
        connection in the hook and the session. A failure registers nothing
        and leaves the timers as they were. */
    method CompleteJoin(ice: IceHandling, roomId: string, offer: Option<SessionDescription>, offerAccepted: bool,
                        answer: SessionDescription, saveFails: bool, errorText: string, pending: seq<Cleanup>)
      returns (step: JoinStep, added: seq<Cleanup>)
      requires Valid() && ice.Valid()
      requires forall k :: 0 <= k < |pending| ==> SchedulerOf(pending[k]) == scheduler
      requires OwnedTimers(pending) <= scheduler.timers.Keys
      modifies this`errorMessage, this`roomId, this`cleanupFunctions, scheduler, store
      modifies session`pc, session`dataChannel, session`roomId, session`isConnected
      modifies ice.pc`remoteDescription, ice.pc`localDescription, ice.pc`added, ice`buffer, ice`applied
      ensures Valid()
      ensures step == if offer.None? || !offerAccepted then OfferNotApplied
                      else if saveFails then AnswerNotSaved else Joined
      ensures errorMessage == JoinError(step, false, errorText)
      ensures store.rooms == if step == Joined then WithAnswer(old(store.rooms), roomId, answer) else old(store.rooms)
      ensures cleanupFunctions == old(cleanupFunctions) + added
      ensures step == Joined ==>
        && |added| == |pending| + 1 && added[..|pending|] == pending
        && added[|pending|].StatusCleanup? && added[|pending|].monitor.pc == ice.pc
        && TimerOf(added[|pending|]) !in old(scheduler.timers)
        && scheduler.timers.Keys == old(scheduler.timers.Keys) + {TimerOf(added[|pending|])}
        && OwnedTimers(cleanupFunctions) == old(OwnedTimers(cleanupFunctions)) + OwnedTimers(pending) + {TimerOf(added[|pending|])}
        && WrappedPeers(cleanupFunctions) == old(WrappedPeers(cleanupFunctions)) + WrappedPeers(pending)
        && this.roomId == Some(roomId)
        && session.pc == ice.pc && session.dataChannel == null && session.roomId == Some(roomId)
        && ice.pc.remoteDescription == offer && ice.pc.localDescription == Some(answer)
      ensures step != Joined ==>
        && added == [] && scheduler.timers == old(scheduler.timers)
        && this.roomId == old(this.roomId) && unchanged(session)
    {
      step := AnswerOffer(ice, store, roomId, offer, offerAccepted, answer, saveFails);
      errorMessage := JoinError(step, false, errorText);
      added := [];
      if step == Joined {
        var monitor := FinishJoin(ice.pc, roomId, pending);
        added := pending + [StatusCleanup(monitor)];
      } else {
        assert old(cleanupFunctions) + added == old(cleanupFunctions);
      }
    }

    /** The end of a successful join: start the heartbeat, push `pending`
        followed by the heartbeat's cleanup, and hold the connection in the
        hook and the session. */
    method FinishJoin(pc: Peer, roomId: string, pending: seq<Cleanup>) returns (monitor: StatusMonitor)
      requires Valid()
      requires forall k :: 0 <= k < |pending| ==> SchedulerOf(pending[k]) == scheduler
      requires OwnedTimers(pending) <= scheduler.timers.Keys
      modifies this`roomId, this`cleanupFunctions, scheduler
      modifies session`pc, session`dataChannel, session`roomId, session`isConnected
      ensures Valid()
      ensures fresh(monitor) && monitor.pc == pc
      ensures cleanupFunctions == old(cleanupFunctions) + (pending + [StatusCleanup(monitor)])
      ensures monitor.fast !in old(scheduler.timers)
      ensures scheduler.timers.Keys == old(scheduler.timers.Keys) + {monitor.fast}
      ensures OwnedTimers(cleanupFunctions) == old(OwnedTimers(cleanupFunctions)) + OwnedTimers(pending) + {monitor.fast}
      ensures WrappedPeers(cleanupFunctions) == old(WrappedPeers(cleanupFunctions)) + WrappedPeers(pending)
      ensures this.roomId == Some(roomId)
      ensures session.pc == pc && session.dataChannel == null && session.roomId == Some(roomId)
    {
      monitor := new StatusMonitor(pc, scheduler, store, roomId);
      SingleRegistration(StatusCleanup(monitor));
      OwnedTimersAppend(pending, [StatusCleanup(monitor)]);
      WrappedPeersAppend(pending, [StatusCleanup(monitor)]);
      Register(pending + [StatusCleanup(monitor)]);
      this.roomId := Some(roomId);
      session.SetConnection(pc, null, roomId);
    }

    /** `joinConnection` with the candidate cleanup registered as soon as
        candidate handling exists: whatever step the join reaches, every
        interval it started has a registered cleanup. */
    method JoinConnectionFixed(roomId: string, fetchFails: bool, iceFetchFails: bool, offerAccepted: bool,
                               answer: SessionDescription, saveFails: bool, errorText: string)
      returns (step: JoinStep, ice: IceHandling?)
      requires Valid()
      modifies this`errorMessage, this`roomId, this`cleanupFunctions, scheduler, store
      modifies session`pc, session`dataChannel, session`roomId, session`isConnected
      ensures Valid()
      ensures step == JoinOutcome(fetchFails, OfferOf(old(store.rooms), roomId), offerAccepted, saveFails)
      ensures errorMessage == JoinError(step, fetchFails, errorText)
      ensures store.rooms == if step == Joined then WithAnswer(old(store.rooms), roomId, answer) else old(store.rooms)
      ensures (ice == null) == (step == OfferNotFetched)
      ensures ice != null ==>
        && fresh(ice) && fresh(ice.pc) && ice.roomId == roomId && !ice.isCaller
        && |cleanupFunctions| > |old(cleanupFunctions)|
        && cleanupFunctions[..|old(cleanupFunctions)|] == old(cleanupFunctions)
        && cleanupFunctions[|old(cleanupFunctions)|] == IceCleanup(ice)
        && ice.pc in WrappedPeers(cleanupFunctions)
      ensures step == Joined ==>
        && this.roomId == Some(roomId)
        && session.pc == ice.pc && session.dataChannel == null && session.roomId == Some(roomId)
      ensures old(scheduler.timers.Keys) <= scheduler.timers.Keys
      ensures OwnedTimers(cleanupFunctions) == old(OwnedTimers(cleanupFunctions)) + (scheduler.timers.Keys - old(scheduler.timers.Keys))
    {
      errorMessage := None;
      ice := null;
      if fetchFails {
        step := OfferNotFetched;
        errorMessage := JoinError(step, fetchFails, errorText);
        return;
      }
      var fetched := store.FetchOffer(roomId);
      if fetched.Err? {
        step := OfferNotFetched;
        errorMessage := JoinError(step, fetchFails, errorText);
        return;
      }
      step, ice := JoinFetchedFixed(roomId, fetched.value.offer, iceFetchFails, offerAccepted, answer, saveFails, errorText);
    }

    /** The corrected join once the offer is fetched: the candidate cleanup
        is pushed right after candidate handling is set up, and the
        heartbeat's after a successful save. */
    method JoinFetchedFixed(roomId: string, offer: Option<SessionDescription>, iceFetchFails: bool, offerAccepted: bool,
                            answer: SessionDescription, saveFails: bool, errorText: string)
      returns (step: JoinStep, ice: IceHandling)
      requires Valid()
      modifies this`errorMessage, this`roomId, this`cleanupFunctions, scheduler, store
      modifies session`pc, session`dataChannel, session`roomId, session`isConnected
      ensures Valid()
      ensures step == if offer.None? || !offerAccepted then OfferNotApplied
                      else if saveFails then AnswerNotSaved else Joined
      ensures errorMessage == JoinError(step, false, errorText)
      ensures store.rooms == if step == Joined then WithAnswer(old(store.rooms), roomId, answer) else old(store.rooms)
      ensures fresh(ice) && fresh(ice.pc) && ice.roomId == roomId && !ice.isCaller
      ensures |cleanupFunctions| > |old(cleanupFunctions)|
      ensures cleanupFunctions[..|old(cleanupFunctions)|] == old(cleanupFunctions)
      ensures cleanupFunctions[|old(cleanupFunctions)|] == IceCleanup(ice)
      ensures ice.pc in WrappedPeers(cleanupFunctions)
      ensures step == Joined ==>
        && this.roomId == Some(roomId)
        && session.pc == ice.pc && session.dataChannel == null && session.roomId == Some(roomId)
      ensures step != Joined ==> this.roomId == old(this.roomId) && unchanged(session)
      ensures old(scheduler.timers.Keys) <= scheduler.timers.Keys
      ensures OwnedTimers(cleanupFunctions) == old(OwnedTimers(cleanupFunctions)) + (scheduler.timers.Keys - old(scheduler.timers.Keys))
    {
      var pc := new Peer();
      ice := SetupCandidateHandling(pc, scheduler, store, roomId, false, iceFetchFails);
      SingleRegistration(IceCleanup(ice));
      Register([IceCleanup(ice)]);
      var added;
      step, added := CompleteJoin(ice, roomId, offer, offerAccepted, answer, saveFails, errorText, []);
    }

    /** Unmounting: call every registered cleanup in order, then forget them.
        Every interval a cleanup owns is stopped afterwards, every wrapper is
        removed, and no other interval is touched. */
    method Unmount()
      requires Valid()
      modifies this`cleanupFunctions, scheduler, WrappedPeers(cleanupFunctions)`wrapped
      ensures cleanupFunctions == [] && scheduler.Valid()
      ensures forall id :: id in old(StoppedTimers(cleanupFunctions)) ==> scheduler.Stopped(id)
      ensures forall p :: p in WrappedPeers(old(cleanupFunctions)) ==> !p.wrapped
      ensures scheduler.timers.Keys == old(scheduler.timers.Keys)
      ensures forall id :: id in old(scheduler.timers) && id !in old(StoppedTimers(cleanupFunctions)) ==>
        scheduler.timers[id] == old(scheduler.timers)[id]
    {
      RunCleanups(cleanupFunctions, scheduler);
      cleanupFunctions := [];
    }
  }

  /** `setupIceCandidateHandling` as the connection steps see it: the
      handling is new, bound to `pc`, and its one interval is the only change
      to the timers. What the initial pass ingested is the constructor's
      concern. */
  method SetupCandidateHandling(pc: Peer, scheduler: Scheduler, store: RoomStore, roomId: string,
                                isCaller: bool, fetchFails: bool)
    returns (ice: IceHandling)
    requires pc.added == [] && scheduler.Valid()
    modifies pc`added, pc`wrapped, pc`onIceCandidate, scheduler
    ensures fresh(ice) && ice.pc == pc && ice.scheduler == scheduler && ice.store == store
    ensures ice.roomId == roomId && ice.isCaller == isCaller
    ensures ice.Valid() && pc.wrapped && scheduler.Valid()
    ensures pc.onIceCandidate == Some(LocalHandler(roomId, isCaller))
    ensures ice.pollTimer !in old(scheduler.timers)
    ensures scheduler.timers == old(scheduler.timers)[ice.pollTimer := TimerState(PollingIntervalsMs.iceCandidates, true, true)]
    ensures scheduler.timers.Keys == old(scheduler.timers.Keys) + {ice.pollTimer}
  {
    ice := new IceHandling(pc, scheduler, store, roomId, isCaller, fetchFails);
  }

  /** The callee's steps between candidate handling and the heartbeat:
      apply the fetched offer through the wrapper, set the answer as local
      description and save it. The first step that throws ends the join;
      the result says which step that was, or `Joined`. */
  method AnswerOffer(ice: IceHandling, store: RoomStore, roomId: string, offer: Option<SessionDescription>,
                     offerAccepted: bool, answer: SessionDescription, saveFails: bool)
    returns (step: JoinStep)
    requires ice.Valid()
    modifies ice.pc`remoteDescription, ice.pc`localDescription, ice.pc`added, ice`buffer, ice`applied, store
    ensures ice.Valid()
    ensures step == if offer.None? || !offerAccepted then OfferNotApplied
                    else if saveFails then AnswerNotSaved else Joined
    ensures store.rooms == if step == Joined then WithAnswer(old(store.rooms), roomId, answer) else old(store.rooms)
    ensures step == Joined ==> ice.pc.remoteDescription == offer && ice.pc.localDescription == Some(answer)
  {
    if offer.None? {
      return OfferNotApplied;
    }
    var ok := ice.SetRemoteDescription(offer.value, offerAccepted);
    if !ok {
      return OfferNotApplied;
    }
    ice.pc.SetLocalDescription(answer);
    if saveFails {
      return AnswerNotSaved;
    }
    store.SaveAnswer(roomId, answer);
    step := Joined;
  }

  /** The part of `createConnection` after the room exists: candidate
      handling, the answer poller and the heartbeat, in that order, and the
      three cleanups they return. Each starts one interval, and together the
      cleanups own exactly the intervals started. */
  method StartCallerPollers(pc: Peer, scheduler: Scheduler, store: RoomStore, roomId: string,
                            iceFetchFails: bool)
    returns (added: seq<Cleanup>)
    requires pc.added == [] && scheduler.Valid()
    modifies pc`added, pc`wrapped, pc`onIceCandidate, scheduler
    ensures scheduler.Valid() && pc.wrapped
    ensures pc.onIceCandidate == Some(LocalHandler(roomId, true))
    ensures |added| == 3 && added[0].IceCleanup? && added[1].AnswerCleanup? && added[2].StatusCleanup?
    ensures added[0].handling.pc == pc && added[0].handling.isCaller && added[0].handling.roomId == roomId
    ensures added[1].listener.pc == pc && added[2].monitor.pc == pc
    ensures fresh(added[0].handling) && fresh(added[1].listener) && fresh(added[2].monitor)
    ensures forall k :: 0 <= k < |added| ==> SchedulerOf(added[k]) == scheduler
    ensures old(scheduler.timers.Keys) <= scheduler.timers.Keys
    ensures OwnedTimers(added) == scheduler.timers.Keys - old(scheduler.timers.Keys)
    ensures forall id :: id in old(scheduler.timers) ==> scheduler.timers[id] == old(scheduler.timers)[id]
    ensures forall id :: id in scheduler.timers && id !in old(scheduler.timers) ==>
      scheduler.timers[id].active && scheduler.timers[id].scheduled
    ensures WrappedPeers(added) == {pc}
  {
    var ice := SetupCandidateHandling(pc, scheduler, store, roomId, true, iceFetchFails);
    var listener := new AnswerListener(ice, scheduler, store, roomId);
    var monitor := new StatusMonitor(pc, scheduler, store, roomId);
    added := [IceCleanup(ice), AnswerCleanup(listener), StatusCleanup(monitor)];
    PairRegistration(IceCleanup(ice), AnswerCleanup(listener));
    SingleRegistration(StatusCleanup(monitor));
    assert added == [IceCleanup(ice), AnswerCleanup(listener)] + [StatusCleanup(monitor)];
    OwnedTimersAppend([IceCleanup(ice), AnswerCleanup(listener)], [StatusCleanup(monitor)]);
    WrappedPeersAppend([IceCleanup(ice), AnswerCleanup(listener)], [StatusCleanup(monitor)]);
  }

  /** The peers whose `setRemoteDescription` one of `cleanups` restores. */
  function WrappedPeers(cleanups: seq<Cleanup>): set<Peer> {
    set i | 0 <= i < |cleanups| && cleanups[i].IceCleanup? :: cleanups[i].handling.pc
  }

  function PeerOf(c: Cleanup): set<Peer> {
    if c.IceCleanup? then {c.handling.pc} else {}
  }

  lemma WrappedPeersSnoc(cleanups: seq<Cleanup>, i: nat)
    requires i < |cleanups|
    ensures WrappedPeers(cleanups[..i + 1]) == WrappedPeers(cleanups[..i]) + PeerOf(cleanups[i])
  {
    assert cleanups[..i + 1] == cleanups[..i] + [cleanups[i]];
    WrappedPeersAppend(cleanups[..i], [cleanups[i]]);
    SingleRegistration(cleanups[i]);
  }

  /** The cleanups called in order. */
  method RunCleanups(cleanups: seq<Cleanup>, scheduler: Scheduler)
    requires scheduler.Valid()
    requires forall k :: 0 <= k < |cleanups| ==> SchedulerOf(cleanups[k]) == scheduler
    modifies scheduler, WrappedPeers(cleanups)`wrapped
    ensures scheduler.Valid()
    ensures forall id :: id in old(StoppedTimers(cleanups)) ==> scheduler.Stopped(id)
    ensures forall p :: p in WrappedPeers(cleanups) ==> !p.wrapped
    ensures scheduler.timers.Keys == old(scheduler.timers.Keys)
    ensures forall id :: id in old(scheduler.timers) && id !in old(StoppedTimers(cleanups)) ==>
      scheduler.timers[id] == old(scheduler.timers)[id]
  {
    ghost var owned := StopSets(cleanups);
    ghost var done: set<TimerId> := {};
    ghost var unwrapped: set<Peer> := {};
    for i := 0 to |cleanups|
      invariant scheduler.Valid()
      invariant scheduler.timers.Keys == old(scheduler.timers.Keys)
      invariant unchanged(Monitors(cleanups))
      invariant done == Union(owned[..i])
      invariant forall id :: id in done ==> scheduler.Stopped(id)
      invariant unwrapped == WrappedPeers(cleanups[..i])
      invariant forall p :: p in unwrapped ==> !p.wrapped
      invariant forall id :: id in old(scheduler.timers) && id !in done ==>
        scheduler.timers[id] == old(scheduler.timers)[id]
    {
      UnionSnoc(owned, i);
      WrappedPeersSnoc(cleanups, i);
      assert PeerOf(cleanups[i]) <= WrappedPeers(cleanups);
      assert cleanups[i].StatusCleanup? ==> cleanups[i].monitor in Monitors(cleanups);
      assert StopSet(cleanups[i]) == old(StopSet(cleanups[i]));
      RunCleanup(cleanups[i], scheduler, owned[i]);
      done := done + owned[i];
      unwrapped := unwrapped + PeerOf(cleanups[i]);
    }
    assert owned[..|cleanups|] == owned;
    assert cleanups[..|cleanups|] == cleanups;
  }

  /** One registered cleanup, as `Unmount` calls it: it stops exactly the
      intervals the cleanup owns, and the candidate cleanup also removes the
      wrapper from its peer. */
  method RunCleanup(c: Cleanup, scheduler: Scheduler, ghost owned: set<TimerId>)
    requires SchedulerOf(c) == scheduler && scheduler.Valid() && StopSet(c) == owned
    modifies scheduler, PeerOf(c)`wrapped
    ensures scheduler.Valid()
    ensures scheduler.timers.Keys == old(scheduler.timers.Keys)
    ensures forall id :: id in owned ==> scheduler.Stopped(id)
    ensures forall id :: id in old(scheduler.timers) && id !in owned ==>
      scheduler.timers[id] == old(scheduler.timers)[id]
    ensures forall p :: p in PeerOf(c) ==> !p.wrapped
  {
    match c
    case IceCleanup(h) =>
      h.Cleanup();
    case AnswerCleanup(l) =>
      scheduler.Dispose(l.timer);
    case StatusCleanup(m) =>
      m.Dispose();
  }

  /** The intervals each cleanup in `cleanups` stops, in order. */
  ghost function StopSets(cleanups: seq<Cleanup>): (r: seq<set<TimerId>>)
    reads Monitors(cleanups)`slowPollingCleanup
    ensures |r| == |cleanups|
    ensures forall k :: 0 <= k < |cleanups| ==> r[k] == StopSet(cleanups[k])
  {
    if cleanups == [] then []
    else StopSets(cleanups[..|cleanups| - 1]) + [StopSet(cleanups[|cleanups| - 1])]
  }

  function Union(sets: seq<set<TimerId>>): set<TimerId> {
    if sets == [] then {} else Union(sets[..|sets| - 1]) + sets[|sets| - 1]
  }

  /** The intervals calling all of `cleanups` stops. */
  ghost function StoppedTimers(cleanups: seq<Cleanup>): set<TimerId>
    reads Monitors(cleanups)`slowPollingCleanup
  {
    Union(StopSets(cleanups))
  }

  /** The intervals `cleanups` were registered for, together. */
  function OwnedTimers(cleanups: seq<Cleanup>): set<TimerId> {
    set i | 0 <= i < |cleanups| :: TimerOf(cleanups[i])
  }

  lemma UnionSnoc(sets: seq<set<TimerId>>, i: nat)
    requires i < |sets|
    ensures Union(sets[..i + 1]) == Union(sets[..i]) + sets[i]
  {
    assert sets[..i + 1][..i] == sets[..i];
  }

  /** An interval belongs to the union exactly when one of the sets holds it. */
  lemma {:induction false} UnionHolds(sets: seq<set<TimerId>>, id: TimerId)
    ensures id in Union(sets) <==> exists k :: 0 <= k < |sets| && id in sets[k]
  {
    if sets != [] {
      var init := sets[..|sets| - 1];
      UnionHolds(init, id);
      if id in Union(init) {
        var k :| 0 <= k < |init| && id in init[k];
        assert sets[k] == init[k];
      }
      forall k | 0 <= k < |init| ensures sets[k] == init[k] { }
    }
  }

  /** Calling the registered cleanups stops every interval they were
      registered for. */
  lemma RegisteredAreStopped(cleanups: seq<Cleanup>)
    ensures OwnedTimers(cleanups) <= StoppedTimers(cleanups)
  {
    forall id | id in OwnedTimers(cleanups)
      ensures id in StoppedTimers(cleanups)
    {
      var i :| 0 <= i < |cleanups| && TimerOf(cleanups[i]) == id;
      assert id in StopSets(cleanups)[i];
      UnionHolds(StopSets(cleanups), id);
    }
  }

  /** The error a join leaves in `errorMessage`: none when it completes;
      "Room not found" when the room document is missing, as a development
      build reports the error `fetchOffer` throws (it runs as a server
      action, whose messages a production build replaces by a generic one);
      otherwise the text of whatever was thrown. */
  function JoinError(step: JoinStep, fetchFails: bool, errorText: string): (r: Option<string>)
    ensures r.None? <==> step == Joined
    ensures r.Some? ==> StartsWith(r.value, JoinErrorPrefix)
  {
    if step == Joined then None
    else if step == OfferNotFetched && !fetchFails then Some(JoinErrorPrefix + RoomNotFoundText)
    else Some(JoinErrorPrefix + errorText)
  }

  /** The interval and peer of one cleanup pushed alone. */
  lemma SingleRegistration(c: Cleanup)
    ensures OwnedTimers([c]) == {TimerOf(c)} && WrappedPeers([c]) == PeerOf(c)
  {
    assert [c][0] == c;
  }

  /** The intervals and peers of two cleanups pushed together. */
  lemma PairRegistration(a: Cleanup, b: Cleanup)
    ensures OwnedTimers([a, b]) == {TimerOf(a), TimerOf(b)}
    ensures WrappedPeers([a, b]) == PeerOf(a) + PeerOf(b)
  {
    assert [a, b] == [a] + [b];
    SingleRegistration(a);
    SingleRegistration(b);
    OwnedTimersAppend([a], [b]);
    WrappedPeersAppend([a], [b]);
  }

  /** Pushing more cleanups adds exactly their intervals. */
  lemma OwnedTimersAppend(cleanups: seq<Cleanup>, more: seq<Cleanup>)
    ensures OwnedTimers(cleanups + more) == OwnedTimers(cleanups) + OwnedTimers(more)
  {
    var all := cleanups + more;
    forall id | id in OwnedTimers(all)
      ensures id in OwnedTimers(cleanups) + OwnedTimers(more)
    {
      var i :| 0 <= i < |all| && TimerOf(all[i]) == id;
      if i < |cleanups| {
        assert all[i] == cleanups[i];
      } else {
        assert all[i] == more[i - |cleanups|];
      }
    }
    forall id | id in OwnedTimers(cleanups) + OwnedTimers(more)
      ensures id in OwnedTimers(all)
    {
      if id in OwnedTimers(cleanups) {
        var i :| 0 <= i < |cleanups| && TimerOf(cleanups[i]) == id;
        assert all[i] == cleanups[i];
      } else {
        var i :| 0 <= i < |more| && TimerOf(more[i]) == id;
        assert all[|cleanups| + i] == more[i];
      }
    }
  }

  /** Pushing more cleanups adds exactly their peers. */
  lemma WrappedPeersAppend(cleanups: seq<Cleanup>, more: seq<Cleanup>)
    ensures WrappedPeers(cleanups + more) == WrappedPeers(cleanups) + WrappedPeers(more)
  {
    var all := cleanups + more;
    forall p | p in WrappedPeers(all)
      ensures p in WrappedPeers(cleanups) + WrappedPeers(more)
    {
      var i :| 0 <= i < |all| && all[i].IceCleanup? && all[i].handling.pc == p;
      if i < |cleanups| {
        assert all[i] == cleanups[i];
      } else {
        assert all[i] == more[i - |cleanups|];
      }
    }
    forall p | p in WrappedPeers(cleanups) + WrappedPeers(more)
      ensures p in WrappedPeers(all)
    {
      if p in WrappedPeers(cleanups) {
        var i :| 0 <= i < |cleanups| && cleanups[i].IceCleanup? && cleanups[i].handling.pc == p;
        assert all[i] == cleanups[i];
      } else {
        var i :| 0 <= i < |more| && more[i].IceCleanup? && more[i].handling.pc == p;
        assert all[|cleanups| + i] == more[i];
      }
    }
  }
}
