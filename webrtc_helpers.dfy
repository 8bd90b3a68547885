/** Helpers of the connection code: the polling periods and data-channel
    settings, the connected / failed classification of a peer's two states,
    the naming of the two candidate collections, and `createInterval`, an
    interval with a stop condition and a disposer. */
module WebRtcHelpers {
  import opened Common
  import opened WebRtcTypes

  /** `POLLING_INTERVALS`, in milliseconds. */
  datatype PollingIntervals = PollingIntervals(
    iceCandidates: nat, answer: nat, statusFrequent: nat, statusSlow: nat)

  const PollingIntervalsMs := PollingIntervals(2000, 1000, 5000, 30000)

  /** `DATA_CHANNEL_CONFIG`: the label and the ordered, bounded-retransmission
      delivery of the one data channel the caller opens. */
  datatype DataChannelConfig = DataChannelConfig(channelLabel: string, ordered: bool, maxRetransmits: nat)

  const DataChannelSettings := DataChannelConfig("fileTransfer", true, 3)

  /** `isConnected`: the peer counts as connected when EITHER of its two
      states reports a connected value. */
  function IsConnected(cs: ConnectionState, ice: IceConnectionState): (r: bool)
    ensures r <==> cs == ConnectionState.Connected
                   || ice == IceConnectionState.Connected
                   || ice == IceConnectionState.Completed
  {
    cs in ConnectedStates || ice in ConnectedIceStates
  }

  /** `isFailed`: either state is failed, closed or disconnected. */
  function IsFailed(cs: ConnectionState, ice: IceConnectionState): (r: bool)
    ensures r <==> cs.Name() in {"failed", "closed", "disconnected"}
                   || ice.Name() in {"failed", "closed", "disconnected"}
  {
    cs in FailedStates || ice in FailedIceStates
  }

  /** The two classifications are not exclusive: the two states are tracked
      independently, so a peer can be connected by one and failed by the other;
      while both states are still "new", "connecting" or "checking" it is neither. */
  lemma ConnectedAndFailedOverlap()
    ensures IsConnected(ConnectionState.Connected, IceConnectionState.Disconnected)
    ensures IsFailed(ConnectionState.Connected, IceConnectionState.Disconnected)
    ensures forall cs: ConnectionState, ice: IceConnectionState ::
      cs in {ConnectionState.New, ConnectionState.Connecting} &&
      ice in {IceConnectionState.New, IceConnectionState.Checking} ==>
        !IsConnected(cs, ice) && !IsFailed(cs, ice)
  {
  }

  /** The two per-direction candidate collections of a room. */
  datatype CandidateCollection = CallerCandidates | CalleeCandidates {
    function Name(): string {
      match this
      case CallerCandidates => "callerCandidates"
      case CalleeCandidates => "calleeCandidates"
    }
  }

  /** `getCandidatesCollection`: the collection a side writes (`isRemote`
      false) or reads (`isRemote` true). Its result is the caller's collection
      exactly when one of the two flags holds. */
  function GetCandidatesCollection(isCaller: bool, isRemote: bool): (r: CandidateCollection)
    ensures r == CallerCandidates <==> isCaller != isRemote
  {
    if isCaller then
      (if isRemote then CalleeCandidates else CallerCandidates)
    else
      (if isRemote then CallerCandidates else CalleeCandidates)
  }

  /** Each side reads what the other side writes, and never its own collection. */
  lemma CollectionsPairUp(isCaller: bool)
    ensures GetCandidatesCollection(isCaller, true) == GetCandidatesCollection(!isCaller, false)
    ensures GetCandidatesCollection(isCaller, true) != GetCandidatesCollection(isCaller, false)
    ensures GetCandidatesCollection(isCaller, true).Name() != GetCandidatesCollection(isCaller, false).Name()
  {
  }

  // ---------------------------------------------------------------------------
  // createInterval

  type TimerId = nat

  /** One interval made by `createInterval`: its period, the captured
      `isActive` flag the disposer clears, and whether the underlying
      `setInterval` timer is still scheduled (not yet cleared). */
  datatype TimerState = TimerState(period: nat, active: bool, scheduled: bool)

  /** One firing of the timer. A cleared timer does not fire. Otherwise, when
      the interval is inactive or the stop condition holds, the timer is
      cleared and the callback does not run; else the callback runs and the
      interval is left as it was, whatever the callback does (a throwing
      callback is caught and logged). */
  function Fire(t: TimerState, stop: bool): (r: (TimerState, bool))
    ensures r.1 <==> t.scheduled && t.active && !stop
    ensures r.0.scheduled == r.1 && r.0.active == t.active && r.0.period == t.period
  {
    if !t.scheduled then (t, false)
    else if !t.active || stop then (t.(scheduled := false), false)
    else (t, true)
  }

  /** The disposer: `isActive := false` and `clearInterval`. */
  function Disposed(t: TimerState): (r: TimerState)
    ensures !r.active && !r.scheduled && r.period == t.period
  {
    t.(active := false, scheduled := false)
  }

  /** How many times the callback runs over consecutive firings that observe
      the stop condition values `stops`, when nothing else disposes the
      interval in between. */
  function Runs(t: TimerState, stops: seq<bool>): nat
    decreases |stops|
  {
    if stops == [] then 0
    else
      var (next, ran) := Fire(t, stops[0]);
      (if ran then 1 else 0) + Runs(next, stops[1..])
  }

  /** A cleared timer never runs the callback again. */
  lemma {:induction false} ClearedNeverRuns(t: TimerState, stops: seq<bool>)
    requires !t.scheduled
    ensures Runs(t, stops) == 0
    decreases |stops|
  {
    if stops != [] {
      ClearedNeverRuns(t, stops[1..]);
    }
  }

  /** After the disposer has been called, no further callback runs. */
  lemma {:induction false} DisposedNeverRuns(t: TimerState, stops: seq<bool>)
    ensures Runs(Disposed(t), stops) == 0
  {
    ClearedNeverRuns(Disposed(t), stops);
  }

  /** An inactive interval runs nothing, even if its timer was not yet cleared. */
  lemma {:induction false} InactiveNeverRuns(t: TimerState, stops: seq<bool>)
    requires !t.active
    ensures Runs(t, stops) == 0
  {
    if stops != [] {
      ClearedNeverRuns(Fire(t, stops[0]).0, stops[1..]);
    }
  }

  /** The first firing that observes the stop condition ends the interval for good. */
  lemma {:induction false} StopEndsInterval(t: TimerState, before: seq<bool>, after: seq<bool>)
    requires forall i :: 0 <= i < |before| ==> !before[i]
    ensures Runs(t, before + [true] + after) == Runs(t, before)
    decreases |before|
  {
    if before == [] {
      assert ([] + [true] + after)[1..] == after;
      ClearedNeverRuns(Fire(t, true).0, after);
    } else {
      assert (before + [true] + after)[1..] == before[1..] + [true] + after;
      StopEndsInterval(Fire(t, before[0]).0, before[1..], after);
    }
  }

  /** A live interval whose stop condition never holds runs the callback on
      every firing: nothing the callback does, throwing included, stops it. */
  lemma {:induction false} LiveIntervalRunsEveryFiring(t: TimerState, stops: seq<bool>)
    requires t.active && t.scheduled
    requires forall i :: 0 <= i < |stops| ==> !stops[i]
    ensures Runs(t, stops) == |stops|
    decreases |stops|
  {
    if stops != [] {
      LiveIntervalRunsEveryFiring(t, stops[1..]);
    }
  }

  /** The browser's table of interval timers, each with the state its
      `createInterval` closure captured. */
  class Scheduler {
    var timers: map<TimerId, TimerState>
    var nextId: TimerId

    ghost predicate Valid()
      reads this
    {
      forall id :: id in timers ==> id < nextId
    }

    constructor()
      ensures Valid() && timers == map[]
    {
      timers := map[];
      nextId := 0;
    }

    /** `createInterval(callback, period, stop)`: a new, live interval. */
    method CreateInterval(period: nat) returns (id: TimerId)
      requires Valid()
      modifies this
      ensures Valid()
      ensures id !in old(timers)
      ensures timers == old(timers)[id := TimerState(period, true, true)]
    {
      id := nextId;
      timers := timers[id := TimerState(period, true, true)];
      nextId := nextId + 1;
    }

    /** The timer `id` fires; `stop` is what the stop condition returns at
        that moment. `run` says whether the callback is to run now. */
    method Tick(id: TimerId, stop: bool) returns (run: bool)
      requires Valid()
      modifies this
      ensures Valid()
      ensures id in old(timers) ==> timers == old(timers)[id := Fire(old(timers)[id], stop).0]
      ensures id in old(timers) ==> run == Fire(old(timers)[id], stop).1
      ensures id !in old(timers) ==> timers == old(timers) && !run
    {
      run := false;
      if id in timers {
        var t := timers[id];
        if t.scheduled {
          if !t.active || stop {
            timers := timers[id := t.(scheduled := false)];
          } else {
            run := true;
          }
        }
      }
    }

    /** The disposer returned by `createInterval`. */
    method Dispose(id: TimerId)
      requires Valid()
      modifies this
      ensures Valid()
      ensures id in old(timers) ==> timers == old(timers)[id := Disposed(old(timers)[id])]
      ensures id !in old(timers) ==> timers == old(timers)
    {
      if id in timers {
        timers := timers[id := Disposed(timers[id])];
      }
    }

    /** The interval `id` has been stopped for good: it is inactive or cleared. */
    ghost predicate Stopped(id: TimerId)
      reads this
    {
      id in timers ==> !timers[id].active || !timers[id].scheduled
    }
  }
}
