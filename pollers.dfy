/** The two polling loops of the connection hook besides candidate polling,
    as functions on a value: the caller's answer poller (`listenForAnswer`)
    and the room status heartbeat (`setupStatusMonitoring`). Each tick is one
    firing of a `createInterval` timer; what the peer and the store report at
    that moment enters as parameters. `AnswerListener` and `StatusMonitor` in
    module UseWebRtc perform these steps in place and are specified by them. */
module Pollers {
  import opened Common
  import opened WebRtcTypes
  import opened WebRtcHelpers

  // ---------------------------------------------------------------------------
  // listenForAnswer

  /** The answer poller's timer, the peer's remote description, and the
      answers whose one delayed retry is still pending. */
  datatype AnswerPoll = AnswerPoll(
    timer: TimerState,
    remote: Option<SessionDescription>,
    retries: seq<SessionDescription>)

  /** The poller as `listenForAnswer` starts it, on a peer without a remote description. */
  const AnswerPollStart := AnswerPoll(TimerState(PollingIntervalsMs.answer, true, true), None, [])

  /** One firing. The stop condition is "connected, or a remote description
      exists". When the callback runs and the fetch yields an answer while no
      remote description is set, the answer is applied: if the peer accepts
      it the poller disposes itself, otherwise one retry of that answer is
      scheduled. A failed fetch is caught and changes nothing. */
  function AnswerTick(p: AnswerPoll, connected: bool, fetchFails: bool,
                      answer: Option<SessionDescription>, accepted: bool): (r: AnswerPoll)
    ensures r.timer.period == p.timer.period && (r.timer.scheduled ==> p.timer.scheduled)
    ensures p.remote.Some? ==> r.remote == p.remote
    ensures r.remote != p.remote ==> r.remote == answer && accepted && !r.timer.active && !r.timer.scheduled
    ensures p.retries <= r.retries && |r.retries| <= |p.retries| + 1
  {
    var (t, run) := Fire(p.timer, connected || p.remote.Some?);
    if !run || fetchFails || answer.None? || p.remote.Some? then p.(timer := t)
    else if accepted then AnswerPoll(Disposed(t), answer, p.retries)
    else p.(timer := t, retries := p.retries + [answer.value])
  }

  /** The delayed retry of the oldest failed answer: it applies the answer
      only if a remote description is still missing, disposes the poller on
      success, and schedules nothing further on failure. */
  function AnswerRetry(p: AnswerPoll, accepted: bool): (r: AnswerPoll)
    requires |p.retries| > 0
    ensures r.retries == p.retries[1..] && (r.timer.scheduled ==> p.timer.scheduled)
    ensures r.remote != p.remote ==> p.remote.None? && accepted && r.remote == Some(p.retries[0])
  {
    var rest := p.retries[1..];
    if p.remote.Some? then p.(retries := rest)
    else if accepted then AnswerPoll(Disposed(p.timer), Some(p.retries[0]), rest)
    else p.(retries := rest)
  }

  /** Once a remote description exists, the poller is stopped for good. */
  predicate AnswerInv(p: AnswerPoll) {
    p.remote.Some? ==> !p.timer.active && !p.timer.scheduled
  }

  /** The invariant holds at the start and after every tick and retry. */
  lemma AnswerInvPreserved(p: AnswerPoll, connected: bool, fetchFails: bool,
                           answer: Option<SessionDescription>, accepted: bool)
    requires AnswerInv(p)
    ensures AnswerInv(AnswerPollStart)
    ensures AnswerInv(AnswerTick(p, connected, fetchFails, answer, accepted))
    ensures |p.retries| > 0 ==> AnswerInv(AnswerRetry(p, accepted))
  {
  }

  /** The answer is set only while the remote description is null: a tick or
      retry never replaces an existing one, and when it sets one, that is the
      answer fetched (or retried) on a peer that accepted it, and the poller
      is disposed. */
  lemma AnswerSetOnlyWhileNull(p: AnswerPoll, connected: bool, fetchFails: bool,
                               answer: Option<SessionDescription>, accepted: bool)
    ensures var r := AnswerTick(p, connected, fetchFails, answer, accepted);
      && (p.remote.Some? ==> r.remote == p.remote)
      && (r.remote != p.remote ==>
            p.remote.None? && !connected && !fetchFails && accepted && r.remote == answer
            && !r.timer.active && !r.timer.scheduled)
    ensures |p.retries| > 0 ==>
      var r := AnswerRetry(p, accepted);
      && (p.remote.Some? ==> r.remote == p.remote)
      && (r.remote != p.remote ==>
            p.remote.None? && accepted && r.remote == Some(p.retries[0]) && !r.timer.active)
  {
  }

  /** A failed application schedules exactly one retry; every other tick
      schedules none, and a retry never schedules another. */
  lemma RetryAtMostOnce(p: AnswerPoll, connected: bool, fetchFails: bool,
                        answer: Option<SessionDescription>, accepted: bool)
    ensures var r := AnswerTick(p, connected, fetchFails, answer, accepted);
      var failedSet := p.timer.scheduled && p.timer.active && !connected && p.remote.None?
                       && !fetchFails && answer.Some? && !accepted;
      && (failedSet ==> r.retries == p.retries + [answer.value])
      && (!failedSet ==> r.retries == p.retries)
    ensures |p.retries| > 0 ==> AnswerRetry(p, accepted).retries == p.retries[1..]
  {
  }

  /** On a tick where the peer is connected or has a remote description, the
      callback does not run: no fetch result is used and the timer is cleared. */
  lemma AnswerPollerStops(p: AnswerPoll, connected: bool, fetchFails: bool,
                          answer: Option<SessionDescription>, accepted: bool)
    requires connected || p.remote.Some?
    ensures var r := AnswerTick(p, connected, fetchFails, answer, accepted);
      r.remote == p.remote && r.retries == p.retries && !r.timer.scheduled
  {
  }

  /** After the answer has been set, whatever the later stop conditions, the
      poller's callback never runs again. */
  lemma {:induction false} AnswerSetEndsPolling(p: AnswerPoll, stops: seq<bool>)
    requires AnswerInv(p) && p.remote.Some?
    ensures Runs(p.timer, stops) == 0
  {
    ClearedNeverRuns(p.timer, stops);
  }

  // ---------------------------------------------------------------------------
  // setupStatusMonitoring

  /** The heartbeat: the frequent timer, the slow timer once created
      (`slowPollingCleanup`), the `isConnectedState` flag, and the number of
      `checkStatus` requests issued. */
  datatype Monitor = Monitor(fast: TimerState, slow: Option<TimerState>, isConnectedState: bool, checks: nat)

  const MonitorStart := Monitor(TimerState(PollingIntervalsMs.statusFrequent, true, true), None, false, 0)

  const SlowTimerStart := TimerState(PollingIntervalsMs.statusSlow, true, true)

  /** One firing of the frequent timer, whose stop condition is `isFailed`.
      When it runs it issues a status check; if the check throws the rest of
      the callback is skipped. On the first run that finds the peer connected
      it sets the flag, disposes itself and starts the slow timer. */
  function FastTick(m: Monitor, connected: bool, failed: bool, checkFails: bool): (r: Monitor)
    ensures m.isConnectedState ==> r.isConnectedState
    ensures r.checks == m.checks + if m.fast.scheduled && m.fast.active && !failed then 1 else 0
    ensures r.fast.scheduled ==> m.fast.scheduled
    ensures m.isConnectedState ==> r.slow == m.slow
  {
    var (t, run) := Fire(m.fast, failed);
    if !run then m.(fast := t)
    else if checkFails then m.(fast := t, checks := m.checks + 1)
    else if connected && !m.isConnectedState then Monitor(Disposed(t), Some(SlowTimerStart), true, m.checks + 1)
    else m.(fast := t, checks := m.checks + 1)
  }

  /** One firing of the slow timer, whose stop condition is also `isFailed`. */
  function SlowTick(m: Monitor, failed: bool): (r: Monitor)
    ensures r.fast == m.fast && r.isConnectedState == m.isConnectedState && r.slow.Some? == m.slow.Some?
    ensures r.checks == m.checks +
      if m.slow.Some? && m.slow.value.scheduled && m.slow.value.active && !failed then 1 else 0
  {
    if m.slow.None? then m
    else
      var (t, run) := Fire(m.slow.value, failed);
      m.(slow := Some(t), checks := m.checks + if run then 1 else 0)
  }

  /** The disposer: stops the frequent timer and the slow one if it exists. */
  function DisposeMonitor(m: Monitor): (r: Monitor)
    ensures r.slow.Some? == m.slow.Some? && r.isConnectedState == m.isConnectedState && r.checks == m.checks
  {
    m.(fast := Disposed(m.fast), slow := if m.slow.Some? then Some(Disposed(m.slow.value)) else None)
  }

  /** The slow timer exists exactly when the switch happened, and after the
      switch the frequent timer is stopped. */
  predicate MonitorInv(m: Monitor) {
    && (m.slow.Some? <==> m.isConnectedState)
    && (m.isConnectedState ==> !m.fast.active && !m.fast.scheduled)
  }

  lemma MonitorInvPreserved(m: Monitor, connected: bool, failed: bool, checkFails: bool)
    requires MonitorInv(m)
    ensures MonitorInv(MonitorStart)
    ensures MonitorInv(FastTick(m, connected, failed, checkFails))
    ensures MonitorInv(SlowTick(m, failed))
    ensures MonitorInv(DisposeMonitor(m))
  {
  }

  /** The switch to slow polling happens at most once: once switched, a
      frequent tick changes nothing, so the slow timer is never replaced. */
  lemma SwitchAtMostOnce(m: Monitor, connected: bool, failed: bool, checkFails: bool)
    requires MonitorInv(m) && m.isConnectedState
    ensures FastTick(m, connected, failed, checkFails) == m
  {
  }

  /** The switch happens on the first frequent run that finds the peer
      connected (and whose status check succeeded), and only then. */
  lemma SwitchOnFirstConnectedTick(m: Monitor, connected: bool, failed: bool, checkFails: bool)
    ensures var r := FastTick(m, connected, failed, checkFails);
      (r.isConnectedState && !m.isConnectedState) <==>
        (m.fast.scheduled && m.fast.active && !failed && !checkFails && connected && !m.isConnectedState)
    ensures var r := FastTick(m, connected, failed, checkFails);
      r.isConnectedState && !m.isConnectedState ==>
        r.slow == Some(SlowTimerStart) && !r.fast.active && !r.fast.scheduled
  {
  }

  /** While the peer is failed, neither loop issues a check, and each
      firing clears its timer. */
  lemma FailureStopsBothLoops(m: Monitor, connected: bool, checkFails: bool)
    ensures var r := FastTick(m, connected, true, checkFails);
      r.checks == m.checks && !r.fast.scheduled && r.slow == m.slow
    ensures var r := SlowTick(m, true);
      r.checks == m.checks && r.fast == m.fast && (r.slow.Some? ==> !r.slow.value.scheduled)
  {
  }

  /** After the disposer, neither timer runs its callback again. */
  lemma {:induction false} DisposerStopsBoth(m: Monitor, stops: seq<bool>)
    ensures Runs(DisposeMonitor(m).fast, stops) == 0
    ensures DisposeMonitor(m).slow.Some? ==> Runs(DisposeMonitor(m).slow.value, stops) == 0
  {
    DisposedNeverRuns(m.fast, stops);
    if m.slow.Some? {
      DisposedNeverRuns(m.slow.value, stops);
    }
  }
}
