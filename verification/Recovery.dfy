/**
 The browser's WebRTC recovery machine: retry timer, offer watchdog, attempt
 counter, circuit breaker with cooldown, and the negotiation coroutine split at
 every `await`.

 `Page` is the value of the module-level variables; `Step` gives the effect of
 one event (JavaScript runs each callback to completion). `Controller` is the
 code in its own shape, every method proved to change the variables exactly as
 the corresponding function on `Page` says.
 */
module Recovery {
  import opened Options

  const OFFER_WATCHDOG_MS: nat := 35000
  const WEBRTC_MAX_AUTO_RECOVERIES: nat := 1
  const WEBRTC_CIRCUIT_COOLDOWN_MS: nat := 30000

  /** Where a negotiation coroutine is suspended. */
  datatype Phase = AwaitConfig | AwaitOffer | AwaitLocal | AwaitGather | AwaitAnswer | AwaitRemote

  /** One activation of `startWebRTC` that has not returned. `conn` is its local `connection`. */
  datatype Round = Round(recovery: bool, phase: Phase, conn: Option<nat>)

  datatype Watchdog = Watchdog(deadline: nat, conn: nat)

  /** Connections are numbered in the order they are constructed. */
  datatype Page = Page(
    demo: bool,
    now: nat,
    joined: bool,
    takeoverBlocked: bool,
    webRTCStarting: bool,
    recoveryPending: bool,
    reconnectAttempts: nat,
    circuitOpen: bool,
    circuitOpenedAt: nat,
    reconnectTimer: Option<nat>,
    watchdog: Option<Watchdog>,
    peerConnection: Option<nat>,
    dataChannel: Option<nat>,
    rounds: seq<Round>,
    started: nat,       // rounds ever started
    created: nat,       // connections ever constructed
    closed: set<nat>    // connections on which close() was called
  )

  datatype Failure = TakenOver | Gone | Other

  datatype Event =
    | Tick(ms: nat)
    | Join
    | ManualRetry(videoReady: bool)
    | BecameVisible(media: bool)
    | RetryTimerFires(media: bool)
    | WatchdogFires
    | ConfigReply(r: nat, realtimeExpected: bool)
    | AwaitDone(r: nat)
    | AwaitFailed(r: nat, failure: Failure)
    | ChannelOpen(conn: nat)
    | ChannelClosed(conn: nat)
    | ConnectionState(conn: nat, connected: bool)
    | TakeoverNotice
    | SessionOver

  /** The page before anybody joined. */
  function Loaded(demo: bool, now: nat): Page {
    Page(demo, now, false, false, false, false, 0, false, 0, None, None, None, None, [], 0, 0, {})
  }

  // ---------------------------------------------------------------- the code, as functions

  /** `media` is the browser's reading of connectionState, readyState and the visible image. */
  predicate MediaRestored(s: Page, media: bool) {
    s.demo || (s.peerConnection.Some? && s.dataChannel.Some? && media)
  }

  function OpenCircuit(s: Page): Page {
    if s.circuitOpen then s
    else s.(circuitOpen := true, circuitOpenedAt := s.now, reconnectTimer := None)
  }

  function ResetCircuit(s: Page): Page {
    s.(circuitOpen := false, circuitOpenedAt := 0, reconnectAttempts := 0)
  }

  function Cleanup(s: Page): Page {
    s.(reconnectTimer := None, watchdog := None, dataChannel := None, peerConnection := None,
       closed := if s.peerConnection.Some? then s.closed + {s.peerConnection.value} else s.closed)
  }

  function Pow2(n: nat): nat { if n == 0 then 1 else 2 * Pow2(n - 1) }

  function Min(a: nat, b: nat): nat { if a <= b then a else b }

  function Backoff(attempts: nat, immediate: bool): nat {
    if immediate then 0 else Min(30000, 800 * Pow2(Min(attempts, 4)))
  }

  /** The part of `scheduleWebRTCRecovery` after its three guards. */
  function Arm(s: Page, immediate: bool): Page {
    if s.reconnectTimer.Some? && !immediate then s
    else
      var t := s.(reconnectTimer := None, reconnectAttempts := s.reconnectAttempts + 1);
      if t.reconnectAttempts > WEBRTC_MAX_AUTO_RECOVERIES then OpenCircuit(t)
      else t.(reconnectTimer := Some(t.now + Backoff(t.reconnectAttempts, immediate)))
  }

  function Schedule(s: Page, immediate: bool): Page {
    if !s.joined || s.takeoverBlocked || s.demo then s
    else if s.webRTCStarting then s.(recoveryPending := true)
    else if s.circuitOpen then
      if !immediate || s.now - s.circuitOpenedAt < WEBRTC_CIRCUIT_COOLDOWN_MS then s
      else Arm(ResetCircuit(s), immediate)
    else Arm(s, immediate)
  }

  /** `startWebRTC` up to its first await. */
  function Start(s: Page, recovery: bool): Page {
    if s.takeoverBlocked || s.webRTCStarting then s
    else
      Cleanup(s.(webRTCStarting := true, recoveryPending := false))
      .(rounds := s.rounds + [Round(recovery, AwaitConfig, None)], started := s.started + 1)
  }

  function ShowTakeover(s: Page): Page {
    Cleanup(s.(takeoverBlocked := true)).(joined := false)
  }

  function EndSession(s: Page): Page {
    Cleanup(s).(takeoverBlocked := false, joined := false)
  }

  /** The `finally` block of round `r`, which then returns. */
  function Finish(s: Page, r: nat): Page
    requires r < |s.rounds|
  {
    var t := s.(webRTCStarting := false, rounds := s.rounds[..r] + s.rounds[r + 1..]);
    if t.recoveryPending && t.joined && !t.demo then Schedule(t, true) else t
  }

  /** The `catch` block of round `r`. */
  function Catch(s: Page, r: nat, failure: Failure): Page
    requires r < |s.rounds|
  {
    match failure
    case TakenOver => ShowTakeover(s)
    case Gone => EndSession(s)
    case Other => if s.rounds[r].recovery || s.joined then Schedule(s, false) else s
  }

  /** `scheduleWebRTCRecovery` touches only the breaker, the retry timer, the counter and the flag. */
  lemma ScheduleFrame(s: Page, immediate: bool)
    ensures var t := Schedule(s, immediate);
            t == s.(recoveryPending := t.recoveryPending, reconnectAttempts := t.reconnectAttempts,
                    circuitOpen := t.circuitOpen, circuitOpenedAt := t.circuitOpenedAt,
                    reconnectTimer := t.reconnectTimer)
  {}

  lemma CatchKeepsRounds(s: Page, r: nat, failure: Failure)
    requires r < |s.rounds|
    ensures Catch(s, r, failure).rounds == s.rounds
  {
    hide Schedule;
    ScheduleFrame(s, false);
  }

  /** The synchronous stretch from the config reply to the first await on the new connection. */
  function Negotiate(s: Page, r: nat): Page
    requires r < |s.rounds|
  {
    var c := s.created;
    s.(peerConnection := Some(c), dataChannel := Some(c), created := c + 1,
       watchdog := Some(Watchdog(s.now + OFFER_WATCHDOG_MS, c)),
       rounds := s.rounds[r := s.rounds[r].(phase := AwaitOffer, conn := Some(c))])
  }

  /** Round `r` is resumed and suspends again at its next await. */
  function MoveTo(s: Page, r: nat, phase: Phase): Page
    requires r < |s.rounds|
  {
    s.(rounds := s.rounds[r := s.rounds[r].(phase := phase)])
  }

  function Advance(s: Page, r: nat): Page
    requires r < |s.rounds| && !s.rounds[r].phase.AwaitConfig?
  {
    match s.rounds[r].phase
    case AwaitOffer => MoveTo(s, r, AwaitLocal)
    case AwaitLocal => MoveTo(s, r, AwaitGather)
    case AwaitGather => MoveTo(s, r, AwaitAnswer)
    case AwaitAnswer => if s.peerConnection == s.rounds[r].conn then MoveTo(s, r, AwaitRemote) else Finish(s, r)
    case AwaitRemote => Finish(s, r)
  }

  function ReplyToConfig(s: Page, r: nat, realtimeExpected: bool): Page
    requires r < |s.rounds|
  {
    if realtimeExpected then Negotiate(s, r) else Finish(OpenCircuit(s), r)
  }

  function FireWatchdog(s: Page): Page
    requires s.watchdog.Some?
  {
    var c := s.watchdog.value.conn;
    var t := s.(watchdog := None);
    if t.peerConnection != Some(c) then t
    else Schedule(t.(peerConnection := None, dataChannel := None, closed := t.closed + {c}), false)
  }

  function OnChannelOpen(s: Page, conn: nat): Page {
    if s.peerConnection != Some(conn) then s else s.(watchdog := None, reconnectAttempts := 0)
  }

  function OnChannelClosed(s: Page, conn: nat): Page {
    if s.peerConnection != Some(conn) then s
    else
      var t := s.(dataChannel := None, watchdog := None);
      if t.joined then Schedule(t, false) else t
  }

  function OnConnectionState(s: Page, conn: nat, connected: bool): Page {
    if s.peerConnection != Some(conn) then s
    else if connected then s.(reconnectTimer := None, reconnectAttempts := 0, recoveryPending := false)
    else Schedule(s, false)
  }

  function OnJoin(s: Page): Page {
    var t := s.(takeoverBlocked := false, joined := true);
    if t.demo then t else Start(t, false)
  }

  function OnManualRetry(s: Page, videoReady: bool): Page {
    if s.demo then s
    else if videoReady then ResetCircuit(s)
    else Start(ResetCircuit(s), true)
  }

  function OnVisible(s: Page, media: bool): Page {
    if !s.joined || s.demo || MediaRestored(s, media) then s else Schedule(s, true)
  }

  function OnRetryTimer(s: Page, media: bool): Page {
    var t := s.(reconnectTimer := None);
    if !t.joined || t.demo || MediaRestored(t, media) then t else Start(t, true)
  }

  /** The awaits on the connection itself. */
  predicate OnConnection(phase: Phase) { phase.AwaitOffer? || phase.AwaitLocal? || phase.AwaitRemote? }

  /**
   Timers fire no earlier than asked; promises settle only where a round is suspended. An
   operation on a connection that is closed rejects or, when it was already under way, never
   settles, as "WebRTC: Real-Time Communication in Browsers" has it for chained operations:
   it never succeeds. Waiting for candidates never rejects, and only a request's failure
   carries a status.
   */
  predicate Enabled(s: Page, e: Event) {
    match e
    case RetryTimerFires(_) => s.reconnectTimer.Some? && s.reconnectTimer.value <= s.now
    case WatchdogFires => s.watchdog.Some? && s.watchdog.value.deadline <= s.now
    case ConfigReply(r, _) => r < |s.rounds| && s.rounds[r].phase.AwaitConfig?
    case AwaitDone(r) =>
      && r < |s.rounds| && !s.rounds[r].phase.AwaitConfig?
      && (OnConnection(s.rounds[r].phase) && s.rounds[r].conn.Some? ==> s.rounds[r].conn.value !in s.closed)
    case AwaitFailed(r, failure) =>
      && r < |s.rounds| && !s.rounds[r].phase.AwaitGather?
      && (failure.Other? || s.rounds[r].phase.AwaitConfig? || s.rounds[r].phase.AwaitAnswer?)
    case _ => true
  }

  function Step(s: Page, e: Event): Page
    requires Enabled(s, e)
  {
    match e
    case Tick(ms) => s.(now := s.now + ms)
    case Join => OnJoin(s)
    case ManualRetry(videoReady) => OnManualRetry(s, videoReady)
    case BecameVisible(media) => OnVisible(s, media)
    case RetryTimerFires(media) => OnRetryTimer(s, media)
    case WatchdogFires => FireWatchdog(s)
    case ConfigReply(r, realtimeExpected) => ReplyToConfig(s, r, realtimeExpected)
    case AwaitDone(r) => Advance(s, r)
    case AwaitFailed(r, failure) => CatchKeepsRounds(s, r, failure); Finish(Catch(s, r, failure), r)
    case ChannelOpen(conn) => OnChannelOpen(s, conn)
    case ChannelClosed(conn) => OnChannelClosed(s, conn)
    case ConnectionState(conn, connected) => OnConnectionState(s, conn, connected)
    case TakeoverNotice => ShowTakeover(s)
    case SessionOver => EndSession(s)
  }

  // ---------------------------------------------------------------- runs

  ghost predicate IsRun(s: Page, es: seq<Event>)
    decreases |es|
  {
    es == [] || (Enabled(s, es[0]) && IsRun(Step(s, es[0]), es[1..]))
  }

  ghost function Exec(s: Page, es: seq<Event>): Page
    requires IsRun(s, es)
    decreases |es|
  {
    if es == [] then s else Exec(Step(s, es[0]), es[1..])
  }

  // ---------------------------------------------------------------- the structural invariant

  /** What holds of the coroutines in flight. */
  ghost predicate RoundsOk(s: Page) {
    && |s.rounds| == (if s.webRTCStarting then 1 else 0)
    && (s.webRTCStarting ==>
          var round := s.rounds[0];
          if round.phase.AwaitConfig? then round.conn == None && s.peerConnection == None
          else round.conn.Some? && round.conn.value < s.created && (s.peerConnection.Some? ==> s.peerConnection == round.conn))
  }

  /** No retry is armed while a round is starting or the breaker is open. */
  predicate TimersOk(s: Page) { s.reconnectTimer.Some? ==> !s.webRTCStarting && !s.circuitOpen }

  /**
   Every connection ever constructed is closed, except the current one; the watchdog and the
   data channel belong to the current one; a blocked viewer has not joined.
   */
  ghost predicate ConnectionsOk(s: Page) {
    && (s.peerConnection.Some? ==> s.peerConnection.value < s.created)
    && (forall c :: c in s.closed <==> 0 <= c < s.created && s.peerConnection != Some(c))
    && (s.watchdog.Some? ==> s.peerConnection == Some(s.watchdog.value.conn) && s.dataChannel.Some?)
    && (s.dataChannel.Some? ==> s.peerConnection == s.dataChannel)
    && (s.takeoverBlocked ==> !s.joined)
  }

  ghost predicate Inv(s: Page) { RoundsOk(s) && TimersOk(s) && ConnectionsOk(s) }

  lemma ScheduleKeepsTimers(s: Page, immediate: bool)
    requires TimersOk(s)
    ensures TimersOk(Schedule(s, immediate))
  {}

  lemma ScheduleKeepsInv(s: Page, immediate: bool)
    requires Inv(s)
    ensures Inv(Schedule(s, immediate))
  {
    hide Schedule, TimersOk;
    ScheduleKeepsTimers(s, immediate);
    ScheduleFrame(s, immediate);
  }

  /** With no current connection left, whatever else is dropped. */
  lemma CleanupKeepsInv(s: Page)
    requires RoundsOk(s) && ConnectionsOk(s.(takeoverBlocked := false))
    ensures RoundsOk(Cleanup(s)) && TimersOk(Cleanup(s))
    ensures forall blocked, joined :: (blocked ==> !joined) ==> ConnectionsOk(Cleanup(s).(takeoverBlocked := blocked, joined := joined))
  {}

  lemma StartKeepsInv(s: Page, recovery: bool)
    requires Inv(s)
    ensures Inv(Start(s, recovery))
  {
    if !s.takeoverBlocked && !s.webRTCStarting {
      var t := s.(webRTCStarting := true, recoveryPending := false);
      StartCleans(s);
      hide Cleanup, ConnectionsOk;
      CleanupFrame(t);
      var u := Cleanup(t);
      var r := u.(rounds := s.rounds + [Round(recovery, AwaitConfig, None)], started := s.started + 1);
      assert r == Start(s, recovery);
      SameConnections(u, r);
    }
  }

  lemma StartCleans(s: Page)
    requires Inv(s) && !s.webRTCStarting
    ensures var u := Cleanup(s.(webRTCStarting := true, recoveryPending := false));
            ConnectionsOk(u) && TimersOk(u)
  {}

  lemma CleanupFrame(s: Page)
    ensures var t := Cleanup(s);
            && t == s.(reconnectTimer := None, watchdog := None, dataChannel := None, peerConnection := None, closed := t.closed)
  {}

  /** What `ConnectionsOk` does not look at. */
  lemma SameConnections(s: Page, t: Page)
    requires ConnectionsOk(s)
    requires t == s.(webRTCStarting := t.webRTCStarting, recoveryPending := t.recoveryPending,
                     reconnectAttempts := t.reconnectAttempts, circuitOpen := t.circuitOpen,
                     circuitOpenedAt := t.circuitOpenedAt, reconnectTimer := t.reconnectTimer,
                     rounds := t.rounds, started := t.started)
    ensures ConnectionsOk(t)
  {}

  lemma TakeoverKeepsInv(s: Page)
    requires Inv(s)
    ensures Inv(ShowTakeover(s)) && Inv(EndSession(s))
  {
    var t := s.(takeoverBlocked := true);
    CleanupKeepsInv(t);
    CleanupKeepsInv(s);
    CleanupFrame(t);
    CleanupFrame(s);
    hide Cleanup, ConnectionsOk;
    assert ShowTakeover(s) == Cleanup(t).(takeoverBlocked := true, joined := false);
    assert EndSession(s) == Cleanup(s).(takeoverBlocked := false, joined := false);
  }

  lemma FinishKeepsInv(s: Page, r: nat)
    requires Inv(s) && r < |s.rounds|
    ensures Inv(Finish(s, r))
  {
    var t := s.(webRTCStarting := false, rounds := s.rounds[..r] + s.rounds[r + 1..]);
    assert t.rounds == [];
    SameConnections(s, t);
    hide Schedule, ConnectionsOk;
    ScheduleKeepsInv(t, true);
  }

  lemma NegotiateKeepsInv(s: Page, r: nat)
    requires Inv(s) && r < |s.rounds| && s.rounds[r].phase.AwaitConfig?
    ensures Inv(Negotiate(s, r))
  {}

  lemma CatchKeepsInv(s: Page, r: nat, failure: Failure)
    requires Inv(s) && r < |s.rounds|
    ensures Inv(Catch(s, r, failure))
  {
    hide Schedule, ShowTakeover, EndSession, Inv;
    ScheduleKeepsInv(s, false);
    TakeoverKeepsInv(s);
  }

  lemma FireWatchdogKeepsInv(s: Page)
    requires Inv(s) && s.watchdog.Some?
    ensures Inv(FireWatchdog(s))
  {
    hide Schedule;
    var c := s.watchdog.value.conn;
    ScheduleKeepsInv(s.(watchdog := None, peerConnection := None, dataChannel := None, closed := s.closed + {c}), false);
  }

  lemma MoveToKeepsInv(s: Page, r: nat, phase: Phase)
    requires Inv(s) && r < |s.rounds| && !s.rounds[r].phase.AwaitConfig? && !phase.AwaitConfig?
    ensures Inv(MoveTo(s, r, phase))
  {}

  lemma AdvanceKeepsInv(s: Page, r: nat)
    requires Inv(s) && r < |s.rounds| && !s.rounds[r].phase.AwaitConfig?
    ensures Inv(Advance(s, r))
  {
    hide Inv, Finish, MoveTo;
    match s.rounds[r].phase
    case AwaitOffer => MoveToKeepsInv(s, r, AwaitLocal);
    case AwaitLocal => MoveToKeepsInv(s, r, AwaitGather);
    case AwaitGather => MoveToKeepsInv(s, r, AwaitAnswer);
    case AwaitAnswer =>
      if s.peerConnection == s.rounds[r].conn { MoveToKeepsInv(s, r, AwaitRemote); } else { FinishKeepsInv(s, r); }
    case AwaitRemote => FinishKeepsInv(s, r);
  }

  lemma AwaitFailedKeepsInv(s: Page, r: nat, failure: Failure)
    requires Inv(s) && r < |s.rounds|
    ensures r < |Catch(s, r, failure).rounds| && Inv(Finish(Catch(s, r, failure), r))
  {
    hide Inv, Finish, Catch;
    CatchKeepsRounds(s, r, failure);
    CatchKeepsInv(s, r, failure);
    FinishKeepsInv(Catch(s, r, failure), r);
  }

  lemma RoundStepKeepsInv(s: Page, e: Event)
    requires Inv(s) && Enabled(s, e) && (e.ConfigReply? || e.AwaitDone? || e.AwaitFailed?)
    ensures Inv(Step(s, e))
  {
    hide Finish, Catch, Negotiate, Advance, ConnectionsOk;
    match e
    case ConfigReply(r, realtimeExpected) =>
      if realtimeExpected {
        NegotiateKeepsInv(s, r);
      } else {
        SameConnections(s, OpenCircuit(s));
        FinishKeepsInv(OpenCircuit(s), r);
      }
    case AwaitDone(r) => AdvanceKeepsInv(s, r);
    case AwaitFailed(r, failure) => AwaitFailedKeepsInv(s, r, failure);
  }

  lemma CallbackKeepsInv(s: Page, e: Event)
    requires Inv(s) && (e.ChannelOpen? || e.ChannelClosed? || e.ConnectionState?)
    ensures Inv(Step(s, e))
  {
    hide Schedule;
    match e
    case ChannelOpen(_) =>
    case ChannelClosed(_) => ScheduleKeepsInv(s.(dataChannel := None, watchdog := None), false);
    case ConnectionState(_, _) => ScheduleKeepsInv(s, false);
  }

  lemma UserEventKeepsInv(s: Page, e: Event)
    requires Inv(s) && Enabled(s, e) && (e.Join? || e.ManualRetry? || e.BecameVisible? || e.RetryTimerFires?)
    ensures Inv(Step(s, e))
  {
    hide Start, Schedule;
    match e
    case Join => StartKeepsInv(s.(takeoverBlocked := false, joined := true), false);
    case ManualRetry(_) => StartKeepsInv(ResetCircuit(s), true);
    case BecameVisible(_) => ScheduleKeepsInv(s, true);
    case RetryTimerFires(_) => StartKeepsInv(s.(reconnectTimer := None), true);
  }

  lemma StepKeepsInv(s: Page, e: Event)
    requires Inv(s) && Enabled(s, e)
    ensures Inv(Step(s, e))
  {
    hide OnJoin, OnManualRetry, OnVisible, OnRetryTimer, ReplyToConfig, Advance, Catch, Finish;
    hide OnChannelOpen, OnChannelClosed, OnConnectionState, FireWatchdog, ShowTakeover, EndSession;
    match e
    case Join | ManualRetry(_) | BecameVisible(_) | RetryTimerFires(_) => UserEventKeepsInv(s, e);
    case ConfigReply(_, _) | AwaitDone(_) | AwaitFailed(_, _) => RoundStepKeepsInv(s, e);
    case ChannelOpen(_) | ChannelClosed(_) | ConnectionState(_, _) => CallbackKeepsInv(s, e);
    case WatchdogFires => FireWatchdogKeepsInv(s);
    case TakeoverNotice | SessionOver => TakeoverKeepsInv(s);
    case Tick(_) =>
  }

  /** The structural invariant holds after every run, whatever the order of events. */
  lemma {:induction false} RunKeepsInv(s: Page, es: seq<Event>)
    requires Inv(s) && IsRun(s, es)
    ensures Inv(Exec(s, es))
    decreases |es|
  {
    if es != [] {
      StepKeepsInv(s, es[0]);
      RunKeepsInv(Step(s, es[0]), es[1..]);
    }
  }

  // ---------------------------------------------------------------- superseded connections

  /**
   Once a connection is closed it stays closed and is never current again, so none
   of its callbacks changes anything for the rest of the run.
   */
  lemma {:induction false} ClosedForGood(s: Page, es: seq<Event>, c: nat)
    requires Inv(s) && IsRun(s, es) && c in s.closed
    ensures c in Exec(s, es).closed
    ensures Step(Exec(s, es), ChannelOpen(c)) == Exec(s, es)
    ensures Step(Exec(s, es), ChannelClosed(c)) == Exec(s, es)
    ensures forall connected :: Step(Exec(s, es), ConnectionState(c, connected)) == Exec(s, es)
    decreases |es|
  {
    if es != [] {
      StepKeepsInv(s, es[0]);
      NeverCurrentAgain(s, es[0], c);
      ClosedForGood(Step(s, es[0]), es[1..], c);
    }
  }

  lemma FinishFrame(s: Page, r: nat)
    requires r < |s.rounds|
    ensures var t := Finish(s, r);
            t.created == s.created && t.peerConnection == s.peerConnection && t.closed == s.closed &&
            t.started == s.started && t.takeoverBlocked == s.takeoverBlocked && t.joined == s.joined
  {
    hide Schedule;
    ScheduleFrame(s.(webRTCStarting := false, rounds := s.rounds[..r] + s.rounds[r + 1..]), true);
  }

  lemma RoundStepKeepsClosed(s: Page, e: Event, c: nat)
    requires Inv(s) && Enabled(s, e) && (e.ConfigReply? || e.AwaitDone? || e.AwaitFailed?) && c in s.closed
    ensures c in Step(s, e).closed
  {
    hide Finish, Schedule;
    match e
    case ConfigReply(r, realtimeExpected) =>
      if !realtimeExpected { FinishFrame(OpenCircuit(s), r); }
    case AwaitDone(r) => AdvanceKeepsConnections(s, r);
    case AwaitFailed(r, failure) =>
      CatchKeepsRounds(s, r, failure);
      ScheduleFrame(s, false);
      FinishFrame(Catch(s, r, failure), r);
  }

  lemma AdvanceKeepsConnections(s: Page, r: nat)
    requires r < |s.rounds| && !s.rounds[r].phase.AwaitConfig?
    ensures var t := Advance(s, r);
            t.created == s.created && t.peerConnection == s.peerConnection && t.closed == s.closed
  {
    hide Finish, Schedule;
    if s.rounds[r].phase.AwaitRemote? || s.rounds[r].phase.AwaitAnswer? { FinishFrame(s, r); }
  }

  lemma NeverCurrentAgain(s: Page, e: Event, c: nat)
    requires Inv(s) && Enabled(s, e) && c in s.closed
    ensures c in Step(s, e).closed
  {
    hide Finish, Schedule;
    match e
    case ConfigReply(_, _) | AwaitDone(_) | AwaitFailed(_, _) => RoundStepKeepsClosed(s, e, c);
    case ChannelOpen(_) =>
    case ChannelClosed(_) => ScheduleFrame(s.(dataChannel := None, watchdog := None), false);
    case ConnectionState(_, _) => ScheduleFrame(s, false);
    case BecameVisible(_) => ScheduleFrame(s, true);
    case WatchdogFires =>
      var w := s.watchdog.value.conn;
      ScheduleFrame(s.(watchdog := None, peerConnection := None, dataChannel := None,
                                  closed := s.closed + {w}), false);
    case _ =>
  }

  // ---------------------------------------------------------------- a viewer that lost the lease

  /** Events that lift the takeover overlay: joining again, or learning that the share is over. */
  predicate LiftsOverlay(e: Event) {
    e.Join? || e.SessionOver? || (e.AwaitFailed? && e.failure.Gone?)
  }

  lemma BlockedRoundStep(s: Page, e: Event)
    requires Inv(s) && s.takeoverBlocked && Enabled(s, e) && !LiftsOverlay(e)
    requires e.ConfigReply? || e.AwaitDone? || e.AwaitFailed?
    ensures Step(s, e).started == s.started && Step(s, e).takeoverBlocked
  {
    hide Finish, Schedule;
    match e
    case ConfigReply(r, realtimeExpected) =>
      if !realtimeExpected { FinishFrame(OpenCircuit(s), r); }
    case AwaitDone(r) =>
      if s.rounds[r].phase.AwaitRemote? || s.rounds[r].phase.AwaitAnswer? { FinishFrame(s, r); }
    case AwaitFailed(r, failure) =>
      CatchKeepsRounds(s, r, failure);
      ScheduleFrame(s, false);
      FinishFrame(Catch(s, r, failure), r);
  }

  lemma BlockedStep(s: Page, e: Event)
    requires Inv(s) && s.takeoverBlocked && Enabled(s, e) && !LiftsOverlay(e)
    ensures Step(s, e).started == s.started && Step(s, e).takeoverBlocked
  {
    hide Finish, Schedule;
    match e
    case ConfigReply(_, _) | AwaitDone(_) | AwaitFailed(_, _) => BlockedRoundStep(s, e);
    case ChannelClosed(_) => ScheduleFrame(s.(dataChannel := None, watchdog := None), false);
    case ConnectionState(_, _) => ScheduleFrame(s, false);
    case WatchdogFires =>
      var w := s.watchdog.value.conn;
      ScheduleFrame(s.(watchdog := None, peerConnection := None, dataChannel := None,
                            closed := s.closed + {w}), false);
    case _ =>
  }

  /** While the takeover overlay is up, no order of events starts a round. */
  lemma {:induction false} BlockedViewerStartsNothing(s: Page, es: seq<Event>)
    requires Inv(s) && s.takeoverBlocked && IsRun(s, es)
    requires forall i :: 0 <= i < |es| ==> !LiftsOverlay(es[i])
    ensures Exec(s, es).started == s.started && Exec(s, es).takeoverBlocked
    decreases |es|
  {
    if es != [] {
      BlockedStep(s, es[0]);
      StepKeepsInv(s, es[0]);
      BlockedViewerStartsNothing(Step(s, es[0]), es[1..]);
    }
  }

  // ---------------------------------------------------------------- the recovery budget

  /** How many rounds an event can add to the budget besides the passing of time. */
  function Allowance(e: Event): nat {
    match e
    case Join => 1
    case ManualRetry(_) => 2
    case ChannelOpen(_) => 1
    case ConnectionState(_, connected) => if connected then 1 else 0
    case _ => 0
  }

  function TotalAllowance(es: seq<Event>): nat {
    if es == [] then 0 else Allowance(es[0]) + TotalAllowance(es[1..])
  }

  /** Rounds already promised: a retry that is armed, and the one automatic retry still unspent. */
  function Promised(s: Page): nat {
    (if s.reconnectTimer.Some? then 1 else 0) + (if !s.circuitOpen && s.reconnectAttempts == 0 then 1 else 0)
  }

  /** How long the breaker's cooldowns have been able to elapse. */
  function Elapsed(s: Page, t0: nat): int {
    (if s.circuitOpen then s.circuitOpenedAt else s.now) - t0
  }

  ghost predicate WithinBudget(s: Page, t0: nat, allowed: nat) {
    && t0 <= s.now
    && (s.circuitOpen ==> t0 <= s.circuitOpenedAt <= s.now)
    && WEBRTC_CIRCUIT_COOLDOWN_MS * (s.started + Promised(s) - allowed) <= Elapsed(s, t0)
  }

  /** The variables the budget does not look at. */
  lemma BudgetFrame(s: Page, t: Page, t0: nat, allowed: nat)
    requires WithinBudget(s, t0, allowed)
    requires t == s.(joined := t.joined, takeoverBlocked := t.takeoverBlocked, recoveryPending := t.recoveryPending,
                     watchdog := t.watchdog, peerConnection := t.peerConnection, dataChannel := t.dataChannel,
                     rounds := t.rounds, created := t.created, closed := t.closed)
    ensures WithinBudget(t, t0, allowed)
  {}

  lemma ScheduleWithinBudget(s: Page, immediate: bool, t0: nat, allowed: nat)
    requires Inv(s) && WithinBudget(s, t0, allowed)
    ensures WithinBudget(Schedule(s, immediate), t0, allowed)
  {}

  lemma FinishWithinBudget(s: Page, r: nat, t0: nat, allowed: nat)
    requires Inv(s) && r < |s.rounds| && WithinBudget(s, t0, allowed)
    ensures WithinBudget(Finish(s, r), t0, allowed)
  {
    var t := s.(webRTCStarting := false, rounds := s.rounds[..r] + s.rounds[r + 1..]);
    assert t.rounds == [];
    ScheduleWithinBudget(t, true, t0, allowed);
  }

  lemma CatchWithinBudget(s: Page, r: nat, failure: Failure, t0: nat, allowed: nat)
    requires Inv(s) && r < |s.rounds| && WithinBudget(s, t0, allowed)
    ensures WithinBudget(Catch(s, r, failure), t0, allowed)
  {
    ScheduleWithinBudget(s, false, t0, allowed);
  }

  lemma AwaitFailedWithinBudget(s: Page, r: nat, failure: Failure, t0: nat, allowed: nat)
    requires Inv(s) && r < |s.rounds| && WithinBudget(s, t0, allowed)
    ensures r < |Catch(s, r, failure).rounds| && WithinBudget(Finish(Catch(s, r, failure), r), t0, allowed)
  {
    CatchKeepsRounds(s, r, failure);
    CatchKeepsInv(s, r, failure);
    CatchWithinBudget(s, r, failure, t0, allowed);
    FinishWithinBudget(Catch(s, r, failure), r, t0, allowed);
  }

  lemma AdvanceWithinBudget(s: Page, r: nat, t0: nat, allowed: nat)
    requires Inv(s) && r < |s.rounds| && !s.rounds[r].phase.AwaitConfig? && WithinBudget(s, t0, allowed)
    ensures WithinBudget(Advance(s, r), t0, allowed)
  {
    hide WithinBudget, Inv, Finish;
    match s.rounds[r].phase
    case AwaitAnswer =>
      if s.peerConnection == s.rounds[r].conn { BudgetFrame(s, MoveTo(s, r, AwaitRemote), t0, allowed); }
      else { FinishWithinBudget(s, r, t0, allowed); }
    case AwaitRemote => FinishWithinBudget(s, r, t0, allowed);
    case AwaitOffer => BudgetFrame(s, MoveTo(s, r, AwaitLocal), t0, allowed);
    case AwaitLocal => BudgetFrame(s, MoveTo(s, r, AwaitGather), t0, allowed);
    case AwaitGather => BudgetFrame(s, MoveTo(s, r, AwaitAnswer), t0, allowed);
  }

  lemma RoundStepWithinBudget(s: Page, e: Event, t0: nat, allowed: nat)
    requires Inv(s) && Enabled(s, e) && (e.ConfigReply? || e.AwaitDone? || e.AwaitFailed?)
    requires WithinBudget(s, t0, allowed)
    ensures WithinBudget(Step(s, e), t0, allowed)
  {
    match e
    case ConfigReply(r, realtimeExpected) =>
      if !realtimeExpected { FinishWithinBudget(OpenCircuit(s), r, t0, allowed); }
    case AwaitDone(r) => AdvanceWithinBudget(s, r, t0, allowed);
    case AwaitFailed(r, failure) => AwaitFailedWithinBudget(s, r, failure, t0, allowed);
  }

  lemma FireWatchdogWithinBudget(s: Page, t0: nat, allowed: nat)
    requires Inv(s) && s.watchdog.Some? && WithinBudget(s, t0, allowed)
    ensures WithinBudget(FireWatchdog(s), t0, allowed)
  {
    var c := s.watchdog.value.conn;
    ScheduleWithinBudget(s.(watchdog := None, peerConnection := None, dataChannel := None, closed := s.closed + {c}),
                         false, t0, allowed);
  }

  lemma HealthyWithinBudget(s: Page, e: Event, t0: nat, allowed: nat)
    requires Inv(s) && WithinBudget(s, t0, allowed)
    requires e.ChannelOpen? || (e.ConnectionState? && e.connected)
    ensures WithinBudget(Step(s, e), t0, allowed + Allowance(e))
  {
    hide Schedule, Start, Finish, Inv;
  }

  lemma LossWithinBudget(s: Page, e: Event, t0: nat, allowed: nat)
    requires Inv(s) && WithinBudget(s, t0, allowed)
    requires e.ChannelClosed? || (e.ConnectionState? && !e.connected)
    ensures WithinBudget(Step(s, e), t0, allowed)
  {
    hide WithinBudget;
    match e
    case ChannelClosed(conn) =>
      if s.peerConnection == Some(conn) {
        var t := s.(dataChannel := None, watchdog := None);
        BudgetFrame(s, t, t0, allowed);
        ScheduleWithinBudget(t, false, t0, allowed);
      }
    case ConnectionState(_, _) => ScheduleWithinBudget(s, false, t0, allowed);
  }

  lemma UserEventWithinBudget(s: Page, e: Event, t0: nat, allowed: nat)
    requires Inv(s) && Enabled(s, e) && (e.Join? || e.ManualRetry? || e.RetryTimerFires?)
    requires WithinBudget(s, t0, allowed)
    ensures WithinBudget(Step(s, e), t0, allowed + Allowance(e))
  {
    hide Schedule, Finish;
  }

  lemma StepWithinBudget(s: Page, e: Event, t0: nat, allowed: nat)
    requires Inv(s) && Enabled(s, e) && WithinBudget(s, t0, allowed)
    ensures WithinBudget(Step(s, e), t0, allowed + Allowance(e))
  {
    match e
    case ConfigReply(_, _) | AwaitDone(_) | AwaitFailed(_, _) => RoundStepWithinBudget(s, e, t0, allowed);
    case Join | ManualRetry(_) | RetryTimerFires(_) => UserEventWithinBudget(s, e, t0, allowed);
    case ChannelOpen(_) => HealthyWithinBudget(s, e, t0, allowed);
    case ChannelClosed(_) => LossWithinBudget(s, e, t0, allowed);
    case ConnectionState(_, connected) =>
      if connected { HealthyWithinBudget(s, e, t0, allowed); } else { LossWithinBudget(s, e, t0, allowed); }
    case WatchdogFires => FireWatchdogWithinBudget(s, t0, allowed);
    case BecameVisible(_) => ScheduleWithinBudget(s, true, t0, allowed);
    case _ =>
  }

  lemma {:induction false} RunWithinBudget(s: Page, es: seq<Event>, t0: nat, allowed: nat)
    requires Inv(s) && IsRun(s, es) && WithinBudget(s, t0, allowed)
    ensures WithinBudget(Exec(s, es), t0, allowed + TotalAllowance(es))
    decreases |es|
  {
    if es != [] {
      StepKeepsInv(s, es[0]);
      StepWithinBudget(s, es[0], t0, allowed);
      RunWithinBudget(Step(s, es[0]), es[1..], t0, allowed + Allowance(es[0]));
    }
  }

  /**
   The recovery budget, for every run: rounds started never exceed one, plus what the
   joins, manual retries and healthy connections allow, plus one per full cooldown.
   */
  lemma RecoveryBudget(demo: bool, t0: nat, es: seq<Event>)
    requires IsRun(Loaded(demo, t0), es)
    ensures var s := Exec(Loaded(demo, t0), es);
            s.started <= 1 + TotalAllowance(es) + (s.now - t0) / WEBRTC_CIRCUIT_COOLDOWN_MS
  {
    var s0 := Loaded(demo, t0);
    RunWithinBudget(s0, es, t0, 1);
    RunKeepsInv(s0, es);
  }

  /** One join and nothing but failures after it: at most 2 + floor(T / 30 s) rounds by time T. */
  lemma UnattendedRecoveryBudget(demo: bool, t0: nat, es: seq<Event>)
    requires IsRun(Loaded(demo, t0), [Join] + es)
    requires forall i :: 0 <= i < |es| ==> Allowance(es[i]) == 0
    ensures var s := Exec(Loaded(demo, t0), [Join] + es);
            s.started <= 2 + (s.now - t0) / WEBRTC_CIRCUIT_COOLDOWN_MS
  {
    RecoveryBudget(demo, t0, [Join] + es);
    NoAllowance(es);
    assert ([Join] + es)[1..] == es;
  }

  lemma {:induction false} NoAllowance(es: seq<Event>)
    requires forall i :: 0 <= i < |es| ==> Allowance(es[i]) == 0
    ensures TotalAllowance(es) == 0
  {
    if es != [] { NoAllowance(es[1..]); }
  }

  // ---------------------------------------------------------------- timers

  const RETRY_DELAY_MS: nat := 1600

  /** An armed retry is due within 1.6 s, a watchdog within 35 s. */
  predicate TimersNear(s: Page) {
    && (s.reconnectTimer.Some? ==> s.reconnectTimer.value <= s.now + RETRY_DELAY_MS)
    && (s.watchdog.Some? ==> s.watchdog.value.deadline <= s.now + OFFER_WATCHDOG_MS)
  }

  lemma ScheduleKeepsTimersNear(s: Page, immediate: bool)
    requires TimersNear(s)
    ensures TimersNear(Schedule(s, immediate))
  {}

  lemma FinishKeepsTimersNear(s: Page, r: nat)
    requires TimersNear(s) && r < |s.rounds|
    ensures TimersNear(Finish(s, r))
  {
    hide Schedule;
    ScheduleKeepsTimersNear(s.(webRTCStarting := false, rounds := s.rounds[..r] + s.rounds[r + 1..]), true);
  }

  lemma CatchKeepsTimersNear(s: Page, r: nat, failure: Failure)
    requires TimersNear(s) && r < |s.rounds|
    ensures TimersNear(Catch(s, r, failure))
  {
    hide Schedule;
    ScheduleKeepsTimersNear(s, false);
  }

  lemma MoveToKeepsTimersNear(s: Page, r: nat, phase: Phase)
    requires TimersNear(s) && r < |s.rounds|
    ensures TimersNear(MoveTo(s, r, phase))
  {}

  lemma AdvanceKeepsTimersNear(s: Page, r: nat)
    requires TimersNear(s) && r < |s.rounds| && !s.rounds[r].phase.AwaitConfig?
    ensures TimersNear(Advance(s, r))
  {
    hide Finish, MoveTo, TimersNear;
    forall phase: Phase ensures TimersNear(MoveTo(s, r, phase)) { MoveToKeepsTimersNear(s, r, phase); }
    FinishKeepsTimersNear(s, r);
  }

  lemma ReplyKeepsTimersNear(s: Page, r: nat, realtimeExpected: bool)
    requires TimersNear(s) && r < |s.rounds|
    ensures TimersNear(ReplyToConfig(s, r, realtimeExpected))
  {
    hide Finish;
    if !realtimeExpected { FinishKeepsTimersNear(OpenCircuit(s), r); }
  }

  lemma RoundStepKeepsTimersNear(s: Page, e: Event)
    requires TimersNear(s) && Enabled(s, e) && (e.ConfigReply? || e.AwaitDone? || e.AwaitFailed?)
    ensures TimersNear(Step(s, e))
  {
    hide Finish, Catch, Advance, ReplyToConfig, TimersNear;
    match e
    case ConfigReply(r, realtimeExpected) => ReplyKeepsTimersNear(s, r, realtimeExpected);
    case AwaitDone(r) => AdvanceKeepsTimersNear(s, r);
    case AwaitFailed(r, failure) =>
      CatchKeepsRounds(s, r, failure);
      CatchKeepsTimersNear(s, r, failure);
      FinishKeepsTimersNear(Catch(s, r, failure), r);
  }

  lemma CallbackKeepsTimersNear(s: Page, e: Event)
    requires TimersNear(s) && Enabled(s, e) && (e.ChannelClosed? || e.ConnectionState? || e.WatchdogFires?)
    ensures TimersNear(Step(s, e))
  {
    hide Schedule;
    match e
    case ChannelClosed(_) => ScheduleKeepsTimersNear(s.(dataChannel := None, watchdog := None), false);
    case ConnectionState(_, _) => ScheduleKeepsTimersNear(s, false);
    case WatchdogFires =>
      var c := s.watchdog.value.conn;
      ScheduleKeepsTimersNear(s.(watchdog := None, peerConnection := None, dataChannel := None,
                                 closed := s.closed + {c}), false);
  }

  lemma StepKeepsTimersNear(s: Page, e: Event)
    requires TimersNear(s) && Enabled(s, e)
    ensures TimersNear(Step(s, e))
  {
    hide Schedule, Finish, Catch, Advance, ReplyToConfig, OnChannelClosed, OnConnectionState, FireWatchdog;
    match e
    case ConfigReply(_, _) | AwaitDone(_) | AwaitFailed(_, _) => RoundStepKeepsTimersNear(s, e);
    case ChannelClosed(_) | ConnectionState(_, _) | WatchdogFires => CallbackKeepsTimersNear(s, e);
    case BecameVisible(_) => ScheduleKeepsTimersNear(s, true);
    case _ =>
  }

  /**
   In every run an armed retry is due within 1.6 s: with one automatic recovery the backoff
   never grows, and neither its exponent nor its 30 s cap is ever reached.
   */
  lemma {:induction false} TimersStayNear(s: Page, es: seq<Event>)
    requires TimersNear(s) && IsRun(s, es)
    ensures TimersNear(Exec(s, es))
    decreases |es|
  {
    if es != [] {
      StepKeepsTimersNear(s, es[0]);
      TimersStayNear(Step(s, es[0]), es[1..]);
    }
  }

  /** A joined viewer outside the demo, not blocked and with no round under way. */
  predicate Idle(s: Page) { s.joined && !s.takeoverBlocked && !s.demo && !s.webRTCStarting }

  /** The first loss arms one retry, 1.6 s away; a loss after that one opens the breaker instead. */
  lemma OneAutomaticRetry(s: Page)
    requires Idle(s) && !s.circuitOpen && s.reconnectTimer == None
    ensures s.reconnectAttempts == 0 ==>
              Schedule(s, false) == s.(reconnectAttempts := 1, reconnectTimer := Some(s.now + RETRY_DELAY_MS))
    ensures s.reconnectAttempts > 0 ==>
              Schedule(s, false).circuitOpen && Schedule(s, false).circuitOpenedAt == s.now && Schedule(s, false).reconnectTimer == None
  {}

  /** With the breaker open, becoming visible leads to a new round if and only if 30 s have passed. */
  lemma VisibilityReopensExactly(s: Page, media: bool)
    requires Inv(s) && Idle(s) && s.circuitOpen && s.circuitOpenedAt <= s.now && !MediaRestored(s, media)
    ensures var t := Step(s, BecameVisible(media));
            if s.now - s.circuitOpenedAt >= WEBRTC_CIRCUIT_COOLDOWN_MS then
              Enabled(t, RetryTimerFires(media)) && Step(t, RetryTimerFires(media)).started == s.started + 1
            else t == s
  {}

  // ---------------------------------------------------------------- when recovery stalls

  /**
   A joined viewer outside the demo without a data channel, for whom nothing automatic is due
   or under way (no round, no armed retry, and by the invariant no watchdog) and who is not
   shown the open breaker either. There may still be a connection, which nobody watches.
   */
  predicate Stranded(s: Page) {
    s.joined && !s.demo && s.rounds == [] && s.dataChannel == None && s.reconnectTimer == None && !s.circuitOpen
  }

  /** The round is resumed for the last time: its answer is applied, or its connection is not the current one. */
  predicate Returns(s: Page, r: nat) {
    r < |s.rounds| && (s.rounds[r].phase.AwaitRemote? || (s.rounds[r].phase.AwaitAnswer? && s.peerConnection != s.rounds[r].conn))
  }

  /**
   The steps that strand a viewer who has no data channel: a round returns with nothing pending;
   a manual retry takes the breaker down because an old video frame is still decoded; and the
   connection reports that it is up, which takes back the retry armed for the lost channel.
   */
  predicate Strands(s: Page, e: Event) {
    && s.joined && !s.demo && s.dataChannel == None
    && match e
       case AwaitDone(r) => Returns(s, r) && !s.recoveryPending && !s.circuitOpen
       case ManualRetry(videoReady) => videoReady && s.rounds == [] && s.reconnectTimer == None
       case ConnectionState(conn, connected) => connected && s.peerConnection == Some(conn) && s.rounds == [] && !s.circuitOpen
       case _ => false
  }

  lemma ScheduleNeverStrands(s: Page, immediate: bool)
    requires s.takeoverBlocked ==> !s.joined
    ensures s.joined && !s.demo && !s.webRTCStarting ==> Schedule(s, immediate).circuitOpen || Schedule(s, immediate).reconnectTimer.Some?
    ensures s.joined && !s.demo && s.webRTCStarting ==> Schedule(s, immediate).recoveryPending
    ensures s.circuitOpen && !immediate ==> Schedule(s, immediate).circuitOpen
  {}

  /** A round returning with a recovery pending leads to a retry at once, or to the breaker. */
  lemma PendingRoundReturns(s: Page, r: nat)
    requires Inv(s) && r < |s.rounds| && s.joined && !s.demo && s.recoveryPending
    ensures var t := Finish(s, r);
            t.rounds == [] && (t.reconnectTimer == Some(s.now) || t.circuitOpen)
  {
    assert s.rounds[..r] + s.rounds[r + 1..] == [];
  }

  /** A round returning strands the viewer exactly when nothing is left and nothing is pending. */
  lemma FinishStrands(s: Page, r: nat)
    requires Inv(s) && r < |s.rounds|
    ensures Stranded(Finish(s, r)) <==>
              s.joined && !s.demo && s.dataChannel == None && !s.circuitOpen && !s.recoveryPending
  {
    var t := s.(webRTCStarting := false, rounds := s.rounds[..r] + s.rounds[r + 1..]);
    assert t.rounds == [];
    hide Schedule;
    ScheduleFrame(t, true);
    ScheduleNeverStrands(t, true);
  }

  lemma CatchStrands(s: Page, r: nat, failure: Failure)
    requires Inv(s) && r < |s.rounds|
    ensures r < |Catch(s, r, failure).rounds| && !Stranded(Finish(Catch(s, r, failure), r))
  {
    CatchKeepsRounds(s, r, failure);
    CatchKeepsInv(s, r, failure);
    FinishStrands(Catch(s, r, failure), r);
    hide Schedule, Finish, Inv;
    ScheduleFrame(s, false);
    if s.joined && !s.demo {
      CaughtIsPending(s, r, failure);
    }
  }

  lemma CaughtIsPending(s: Page, r: nat, failure: Failure)
    requires Inv(s) && r < |s.rounds| && s.joined && !s.demo
    ensures Catch(s, r, failure).joined ==> Catch(s, r, failure).recoveryPending && Catch(s, r, failure).demo == s.demo
  {}

  lemma AdvanceStrands(s: Page, r: nat)
    requires Inv(s) && Enabled(s, AwaitDone(r)) && !Stranded(s)
    ensures Stranded(Advance(s, r)) <==> Strands(s, AwaitDone(r))
  {
    FinishStrands(s, r);
    hide Finish;
  }

  lemma RoundStepStrands(s: Page, e: Event)
    requires Inv(s) && Enabled(s, e) && (e.ConfigReply? || e.AwaitDone? || e.AwaitFailed?) && !Stranded(s)
    ensures Stranded(Step(s, e)) <==> Strands(s, e)
  {
    hide Finish, Catch, Advance, Schedule;
    match e
    case ConfigReply(r, realtimeExpected) =>
      if !realtimeExpected { OpenedNeverStrands(s, r); }
    case AwaitDone(r) => AdvanceStrands(s, r);
    case AwaitFailed(r, failure) => CatchStrands(s, r, failure);
  }

  lemma OpenedNeverStrands(s: Page, r: nat)
    requires Inv(s) && r < |s.rounds|
    ensures !Stranded(Finish(OpenCircuit(s), r))
  {
    SameConnections(s, OpenCircuit(s));
    FinishStrands(OpenCircuit(s), r);
  }

  lemma OtherStepStrands(s: Page, e: Event)
    requires Inv(s) && Enabled(s, e) && !Stranded(s)
    requires e.ChannelOpen? || e.ChannelClosed? || e.ConnectionState? || e.WatchdogFires? || e.BecameVisible?
    ensures Stranded(Step(s, e)) <==> Strands(s, e)
  {
    hide Schedule;
    match e
    case ChannelOpen(_) =>
    case ChannelClosed(_) =>
      var t := s.(dataChannel := None, watchdog := None);
      ScheduleFrame(t, false);
      ScheduleNeverStrands(t, false);
    case WatchdogFires =>
      var c := s.watchdog.value.conn;
      var t := s.(watchdog := None, peerConnection := None, dataChannel := None, closed := s.closed + {c});
      ScheduleFrame(t, false);
      ScheduleNeverStrands(t, false);
    case ConnectionState(_, _) =>
      ScheduleFrame(s, false);
      ScheduleNeverStrands(s, false);
    case BecameVisible(_) =>
      ScheduleFrame(s, true);
      ScheduleNeverStrands(s, true);
  }

  /** A step strands a viewer if and only if it is one of the three. */
  lemma RecoveryKeptExactly(s: Page, e: Event)
    requires Inv(s) && Enabled(s, e) && !Stranded(s)
    ensures Stranded(Step(s, e)) <==> Strands(s, e)
  {
    hide ReplyToConfig, Advance, Catch, Finish, OnChannelOpen, OnChannelClosed, OnConnectionState, FireWatchdog, OnVisible;
    match e
    case ConfigReply(_, _) | AwaitDone(_) | AwaitFailed(_, _) => RoundStepStrands(s, e);
    case ChannelOpen(_) | ChannelClosed(_) | ConnectionState(_, _) | WatchdogFires | BecameVisible(_) => OtherStepStrands(s, e);
    case _ =>
  }

  ghost predicate AvoidsStalls(s: Page, es: seq<Event>)
    requires IsRun(s, es)
    decreases |es|
  {
    es == [] || (!Strands(s, es[0]) && AvoidsStalls(Step(s, es[0]), es[1..]))
  }

  /** A run without such a step never strands a viewer. */
  lemma {:induction false} NeverStalls(s: Page, es: seq<Event>)
    requires Inv(s) && !Stranded(s) && IsRun(s, es) && AvoidsStalls(s, es)
    ensures !Stranded(Exec(s, es))
    decreases |es|
  {
    if es != [] {
      StepKeepsInv(s, es[0]);
      RecoveryKeptExactly(s, es[0]);
      hide Step, Inv, Stranded, Strands;
      NeverStalls(Step(s, es[0]), es[1..]);
    }
  }

  // ---------------------------------------------------------------- what leads on from where

  /** No round, no data channel and no armed retry, whatever the breaker. */
  predicate Quiet(s: Page) { s.rounds == [] && s.dataChannel == None && s.reconnectTimer == None }

  /**
   The events that may begin a round or arm a retry without a timer: somebody joins, asks for
   video, or comes back to the page, or a connection still there reports that it is lost.
   */
  predicate Wakes(e: Event, link: Option<nat>) {
    || e.Join? || e.ManualRetry? || e.BecameVisible?
    || (e.ChannelClosed? && link == Some(e.conn))
    || (e.ConnectionState? && !e.connected && link == Some(e.conn))
  }

  /** From a quiet page, stranded or behind the breaker, no run starts a round until such an event. */
  lemma {:induction false} NothingByItself(s: Page, es: seq<Event>)
    requires Inv(s) && Quiet(s) && IsRun(s, es)
    requires forall i :: 0 <= i < |es| ==> !Wakes(es[i], s.peerConnection)
    ensures Quiet(Exec(s, es)) && Exec(s, es).started == s.started
    decreases |es|
  {
    if es != [] {
      StepKeepsInv(s, es[0]);
      QuietStep(s, es[0]);
      hide Step, Inv, Quiet;
      NothingByItself(Step(s, es[0]), es[1..]);
    }
  }

  lemma QuietStep(s: Page, e: Event)
    requires Inv(s) && Quiet(s) && Enabled(s, e) && !Wakes(e, s.peerConnection)
    ensures var t := Step(s, e);
            Quiet(t) && t.started == s.started && (t.peerConnection == s.peerConnection || t.peerConnection == None)
  {
    hide Schedule, Finish, Catch, Advance, ReplyToConfig;
  }

  /**
   What does lead out of being stranded: joining again, and asking for video when none is
   decoded, start a round; coming back to the page arms a retry that is due at once if and only
   if no automatic recovery has been spent, and otherwise opens the breaker; the loss of a
   connection still there arms a retry under the same condition.
   */
  lemma WaysOut(s: Page, media: bool)
    requires Inv(s) && Stranded(s)
    ensures Step(s, Join).started == s.started + 1
    ensures Step(s, ManualRetry(false)).started == s.started + 1
    ensures Stranded(Step(s, ManualRetry(true))) && Step(s, ManualRetry(true)).started == s.started
    ensures var t := Step(s, BecameVisible(media));
            if s.reconnectAttempts == 0 then
              Enabled(t, RetryTimerFires(media)) && Step(t, RetryTimerFires(media)).started == s.started + 1
            else Quiet(t) && t.circuitOpen && t.circuitOpenedAt == s.now && t.started == s.started
    ensures s.peerConnection.Some? ==>
              var t := Step(s, ConnectionState(s.peerConnection.value, false));
              if s.reconnectAttempts == 0 then t.reconnectTimer == Some(s.now + RETRY_DELAY_MS)
              else Quiet(t) && t.circuitOpen
  {}

  /** Behind the breaker, asking for video starts a round or strands the viewer, as a frame is decoded or not. */
  lemma WaysOutOfTheBreaker(s: Page)
    requires Inv(s) && s.joined && !s.demo && Quiet(s) && s.circuitOpen
    ensures Step(s, Join).started == s.started + 1
    ensures Step(s, ManualRetry(false)).started == s.started + 1
    ensures Stranded(Step(s, ManualRetry(true))) && Step(s, ManualRetry(true)).started == s.started
  {}

  /** An armed retry starts a round when it fires, unless media is back. */
  lemma DueRetryStarts(s: Page, ms: nat, media: bool)
    requires Inv(s) && s.joined && !s.demo && s.reconnectTimer.Some?
    ensures var t := Step(s, Tick(ms));
            && (Enabled(t, RetryTimerFires(media)) <==> s.reconnectTimer.value <= s.now + ms)
            && (Enabled(t, RetryTimerFires(media)) ==>
                  Step(t, RetryTimerFires(media)).started == s.started + if MediaRestored(s, media) then 0 else 1)
  {}

  // ---------------------------------------------------------------- rounds whose operation never settles

  /** The round waits for an operation on a connection that has been closed. */
  ghost predicate Hung(s: Page) {
    s.rounds != [] && OnConnection(s.rounds[0].phase) && s.rounds[0].conn.Some? && s.rounds[0].conn.value in s.closed
  }

  lemma HungStep(s: Page, e: Event)
    requires Inv(s) && Hung(s) && Enabled(s, e) && !e.AwaitFailed?
    ensures Hung(Step(s, e)) && Step(s, e).started == s.started
  {
    NeverCurrentAgain(s, e, s.rounds[0].conn.value);
    hide Schedule, Finish, Catch, MoveTo;
    if e.BecameVisible? { ScheduleFrame(s, true); }
  }

  /**
   As long as that operation does not reject, no run starts another round: not by timers, not by
   coming back to the page, joining again or asking for video.
   */
  lemma {:induction false} HungForGood(s: Page, es: seq<Event>)
    requires Inv(s) && Hung(s) && IsRun(s, es)
    requires forall i :: 0 <= i < |es| ==> !es[i].AwaitFailed?
    ensures Hung(Exec(s, es)) && Exec(s, es).started == s.started
    decreases |es|
  {
    if es != [] {
      StepKeepsInv(s, es[0]);
      HungStep(s, es[0]);
      hide Step, Inv, Hung;
      HungForGood(Step(s, es[0]), es[1..]);
    }
  }

  /** If it rejects, a joined viewer gets a retry at once, or the breaker. */
  lemma HungRoundRejects(s: Page)
    requires Inv(s) && Hung(s) && s.joined && !s.demo
    ensures Enabled(s, AwaitFailed(0, Other))
    ensures var t := Step(s, AwaitFailed(0, Other)); t.rounds == [] && (t.reconnectTimer == Some(s.now) || t.circuitOpen)
  {
    CatchKeepsRounds(s, 0, Other);
    CatchKeepsInv(s, 0, Other);
    CaughtIsPending(s, 0, Other);
    hide Schedule, Inv;
    ScheduleFrame(s, false);
    PendingRoundReturns(Catch(s, 0, Other), 0);
  }

  // ---------------------------------------------------------------- runs that get there

  lemma Prepend(s: Page, e: Event, es: seq<Event>) returns (r: seq<Event>)
    requires Enabled(s, e) && IsRun(Step(s, e), es)
    ensures r == [e] + es && IsRun(s, r) && Exec(s, r) == Exec(Step(s, e), es)
  {
    r := [e] + es;
    assert r[1..] == es;
  }

  lemma {:induction false} Chain(s: Page, es: seq<Event>, fs: seq<Event>)
    requires IsRun(s, es) && IsRun(Exec(s, es), fs)
    ensures IsRun(s, es + fs) && Exec(s, es + fs) == Exec(Exec(s, es), fs)
    decreases |es|
  {
    hide Step;
    if es == [] {
      assert es + fs == fs;
    } else {
      assert (es + fs)[1..] == es[1..] + fs;
      Chain(Step(s, es[0]), es[1..], fs);
    }
  }

  /** A round waiting for candidates whose connection was dropped, with nothing pending, posts its offer, is answered, and returns without scheduling anything. */
  lemma DroppedRoundReturns(s: Page) returns (es: seq<Event>)
    requires |s.rounds| == 1 && s.rounds[0].phase.AwaitGather? && s.rounds[0].conn.Some?
    requires s.peerConnection == None && !s.recoveryPending
    ensures IsRun(s, es) && Exec(s, es) == s.(webRTCStarting := false, rounds := [])
  {
    var s1 := MoveTo(s, 0, AwaitAnswer);
    var s2 := s.(webRTCStarting := false, rounds := []);
    assert s1.rounds[..0] + s1.rounds[1..] == [];
    assert Step(s1, AwaitDone(0)) == s2;
    var done: seq<Event> := [];
    var e1 := Prepend(s1, AwaitDone(0), done);
    es := Prepend(s, AwaitDone(0), e1);
  }

  /** Joining, and a round up to where it waits for candidates. */
  lemma FirstRound() returns (es: seq<Event>)
    ensures es == [Join, ConfigReply(0, true), AwaitDone(0), AwaitDone(0)]
    ensures IsRun(Loaded(false, 0), es)
    ensures Exec(Loaded(false, 0), es) == Loaded(false, 0).(
              joined := true, webRTCStarting := true, started := 1, created := 1, peerConnection := Some(0),
              dataChannel := Some(0), watchdog := Some(Watchdog(OFFER_WATCHDOG_MS, 0)),
              rounds := [Round(false, AwaitGather, Some(0))])
  {
    var s0 := Loaded(false, 0);
    var s1 := Step(s0, Join);
    var s2 := Step(s1, ConfigReply(0, true));
    var s3 := Step(s2, AwaitDone(0));
    var s4 := Step(s3, AwaitDone(0));
    assert s4.rounds == [Round(false, AwaitGather, Some(0))];
    var done: seq<Event> := [];
    var e4 := Prepend(s3, AwaitDone(0), done);
    var e3 := Prepend(s2, AwaitDone(0), e4);
    var e2 := Prepend(s1, ConfigReply(0, true), e3);
    es := Prepend(s0, Join, e2);
  }

  /**
   Control is taken over while a round waits for candidates, the viewer reclaims it, and the
   old round, whose offer now goes out under the new lease, returns with nothing scheduled.
   */
  lemma ReclaimDuringRoundStalls() returns (es: seq<Event>)
    ensures IsRun(Loaded(false, 0), es) && Stranded(Exec(Loaded(false, 0), es))
  {
    var first := FirstRound();
    var s := Exec(Loaded(false, 0), first);
    var s1 := Step(s, TakeoverNotice);
    var s2 := Step(s1, Join);
    var e2 := DroppedRoundReturns(s2);
    var e1 := Prepend(s1, Join, e2);
    var rest := Prepend(s, TakeoverNotice, e1);
    Chain(Loaded(false, 0), first, rest);
    es := first + rest;
  }

  /** The takeover comes while the offer is being made: joining again finds the round waiting on a closed connection. */
  lemma ReclaimDuringOfferHangs() returns (es: seq<Event>)
    ensures IsRun(Loaded(false, 0), es)
    ensures var s := Exec(Loaded(false, 0), es); s.joined && !s.demo && Hung(s)
  {
    var s0 := Loaded(false, 0);
    var s1 := Step(s0, Join);
    var s2 := Step(s1, ConfigReply(0, true));
    var s3 := Step(s2, TakeoverNotice);
    var done: seq<Event> := [];
    var e3 := Prepend(s3, Join, done);
    var e2 := Prepend(s2, TakeoverNotice, e3);
    var e1 := Prepend(s1, ConfigReply(0, true), e2);
    es := Prepend(s0, Join, e1);
  }

  /** The first round is answered and returns, and the connection comes up; the watchdog still waits for the channel. */
  lemma ConnectedRound() returns (es: seq<Event>)
    ensures es == [Join, ConfigReply(0, true), AwaitDone(0), AwaitDone(0), AwaitDone(0), AwaitDone(0), AwaitDone(0),
                   ConnectionState(0, true)]
    ensures IsRun(Loaded(false, 0), es)
    ensures Exec(Loaded(false, 0), es) == Loaded(false, 0).(
              joined := true, started := 1, created := 1, peerConnection := Some(0), dataChannel := Some(0),
              watchdog := Some(Watchdog(OFFER_WATCHDOG_MS, 0)))
  {
    var first := FirstRound();
    var s := Exec(Loaded(false, 0), first);
    var s1 := Step(s, AwaitDone(0));
    var s2 := Step(s1, AwaitDone(0));
    assert s2.rounds == [Round(false, AwaitRemote, Some(0))];
    assert s2.rounds[..0] + s2.rounds[1..] == [];
    var s3 := Step(s2, AwaitDone(0));
    var done: seq<Event> := [];
    var e3 := Prepend(s3, ConnectionState(0, true), done);
    var e2 := Prepend(s2, AwaitDone(0), e3);
    var e1 := Prepend(s1, AwaitDone(0), e2);
    var rest := Prepend(s, AwaitDone(0), e1);
    Chain(Loaded(false, 0), first, rest);
    es := first + rest;
  }

  /**
   The video plays but the data channel never opens: the watchdog drops the connection and arms
   a retry, coming back to the page before it is due opens the breaker, and a manual retry with
   the last frame still decoded takes the breaker down again.
   */
  lemma RetryBehindOldFrameStalls() returns (es: seq<Event>)
    ensures IsRun(Loaded(false, 0), es) && Stranded(Exec(Loaded(false, 0), es))
    ensures Exec(Loaded(false, 0), es).peerConnection == None
    ensures es == [Join, ConfigReply(0, true), AwaitDone(0), AwaitDone(0), AwaitDone(0), AwaitDone(0), AwaitDone(0),
                   ConnectionState(0, true), Tick(OFFER_WATCHDOG_MS), WatchdogFires, BecameVisible(false), ManualRetry(true)]
  {
    var first := ConnectedRound();
    var s := Exec(Loaded(false, 0), first);
    var s1 := Step(s, Tick(OFFER_WATCHDOG_MS));
    var s2 := Step(s1, WatchdogFires);
    assert s2.reconnectTimer == Some(s2.now + RETRY_DELAY_MS) && s2.reconnectAttempts == 1;
    var s3 := Step(s2, BecameVisible(false));
    assert s3.circuitOpen;
    var done: seq<Event> := [];
    var e3 := Prepend(s3, ManualRetry(true), done);
    var e2 := Prepend(s2, BecameVisible(false), e3);
    var e1 := Prepend(s1, WatchdogFires, e2);
    var rest := Prepend(s, Tick(OFFER_WATCHDOG_MS), e1);
    Chain(Loaded(false, 0), first, rest);
    es := first + rest;
  }

  /**
   The channel closes while the connection is interrupted; when the connection is up again, it
   takes back the retry armed for it, and the viewer is left with a connection without a channel.
   */
  lemma ChannelLossStalls() returns (es: seq<Event>)
    ensures IsRun(Loaded(false, 0), es) && Stranded(Exec(Loaded(false, 0), es))
    ensures Exec(Loaded(false, 0), es).peerConnection == Some(0)
    ensures es == [Join, ConfigReply(0, true), AwaitDone(0), AwaitDone(0), AwaitDone(0), AwaitDone(0), AwaitDone(0),
                   ConnectionState(0, true), ChannelOpen(0), ConnectionState(0, false), ChannelClosed(0), ConnectionState(0, true)]
  {
    var first := ConnectedRound();
    var s := Exec(Loaded(false, 0), first);
    var s1 := Step(s, ChannelOpen(0));
    var s2 := Step(s1, ConnectionState(0, false));
    var s3 := Step(s2, ChannelClosed(0));
    assert s3.reconnectTimer == Some(RETRY_DELAY_MS) && s3.dataChannel == None;
    var done: seq<Event> := [];
    var e3 := Prepend(s3, ConnectionState(0, true), done);
    var e2 := Prepend(s2, ChannelClosed(0), e3);
    var e1 := Prepend(s1, ConnectionState(0, false), e2);
    var rest := Prepend(s, ChannelOpen(0), e1);
    Chain(Loaded(false, 0), first, rest);
    es := first + rest;
  }

  // ---------------------------------------------------------------- the code, in its own shape

  /** The module-level variables of the page and the callbacks that change them. */
  class Controller {
    const demo: bool
    var now: nat
    var joined: bool
    var takeoverBlocked: bool
    var webRTCStarting: bool
    var recoveryPending: bool
    var reconnectAttempts: nat
    var circuitOpen: bool
    var circuitOpenedAt: nat
    var reconnectTimer: Option<nat>
    var watchdog: Option<Watchdog>
    var peerConnection: Option<nat>
    var dataChannel: Option<nat>
    var rounds: seq<Round>
    var created: nat
    ghost var started: nat
    ghost var closed: set<nat>

    ghost function View(): Page
      reads this
    {
      Page(demo, now, joined, takeoverBlocked, webRTCStarting, recoveryPending, reconnectAttempts, circuitOpen,
           circuitOpenedAt, reconnectTimer, watchdog, peerConnection, dataChannel, rounds, started, created, closed)
    }

    constructor (demo: bool, now: nat)
      ensures View() == Loaded(demo, now)
      ensures Inv(View())
    {
      this.demo, this.now := demo, now;
      joined, takeoverBlocked, webRTCStarting, recoveryPending := false, false, false, false;
      reconnectAttempts, circuitOpen, circuitOpenedAt := 0, false, 0;
      reconnectTimer, watchdog, peerConnection, dataChannel := None, None, None, None;
      rounds, created, started, closed := [], 0, 0, {};
    }

    method OpenWebRTCCircuit()
      modifies this
      ensures View() == OpenCircuit(old(View()))
    {
      if circuitOpen { return; }
      circuitOpen := true;
      circuitOpenedAt := now;
      reconnectTimer := None;
    }

    method ResetWebRTCCircuit()
      modifies this
      ensures View() == ResetCircuit(old(View()))
    {
      circuitOpen := false;
      circuitOpenedAt := 0;
      reconnectAttempts := 0;
    }

    method CleanupWebRTC()
      modifies this
      ensures View() == Cleanup(old(View()))
    {
      reconnectTimer := None;
      watchdog := None;
      dataChannel := None;
      if peerConnection.Some? {
        closed := closed + {peerConnection.value};
        peerConnection := None;
      }
    }

    method ScheduleWebRTCRecovery(immediate: bool)
      modifies this
      ensures View() == Schedule(old(View()), immediate)
    {
      if !joined || takeoverBlocked || demo { return; }
      if webRTCStarting {
        recoveryPending := true;
        return;
      }
      if circuitOpen {
        if !immediate { return; }
        if now - circuitOpenedAt < WEBRTC_CIRCUIT_COOLDOWN_MS { return; }
        ResetWebRTCCircuit();
      }
      if reconnectTimer.Some? {
        if !immediate { return; }
        reconnectTimer := None;
      }
      reconnectAttempts := reconnectAttempts + 1;
      if reconnectAttempts > WEBRTC_MAX_AUTO_RECOVERIES {
        OpenWebRTCCircuit();
        return;
      }
      reconnectTimer := Some(now + Backoff(reconnectAttempts, immediate));
    }

    /** `startWebRTC` up to its first await. */
    method StartWebRTC(recovery: bool)
      modifies this
      ensures View() == Start(old(View()), recovery)
    {
      hide Cleanup;
      if takeoverBlocked { return; }
      if webRTCStarting { return; }
      CleanupFrame(View().(webRTCStarting := true, recoveryPending := false));
      webRTCStarting := true;
      recoveryPending := false;
      CleanupWebRTC();
      rounds := rounds + [Round(recovery, AwaitConfig, None)];
      started := started + 1;
    }

    method DisplayTakeover()
      modifies this
      ensures View() == ShowTakeover(old(View()))
    {
      takeoverBlocked := true;
      CleanupWebRTC();
      joined := false;
    }

    method LeaveSession()
      modifies this
      ensures View() == EndSession(old(View()))
    {
      CleanupWebRTC();
      takeoverBlocked := false;
      joined := false;
    }

    method FinallyBlock(r: nat)
      requires r < |rounds|
      modifies this
      ensures View() == Finish(old(View()), r)
    {
      webRTCStarting := false;
      rounds := rounds[..r] + rounds[r + 1..];
      if recoveryPending && joined && !demo {
        ScheduleWebRTCRecovery(true);
      }
    }

    method CatchBlock(r: nat, failure: Failure)
      requires r < |rounds|
      modifies this
      ensures View() == Catch(old(View()), r, failure)
    {
      match failure
      case TakenOver => DisplayTakeover();
      case Gone => LeaveSession();
      case Other =>
        if rounds[r].recovery || joined { ScheduleWebRTCRecovery(false); }
    }

    method OnConfigReply(r: nat, realtimeExpected: bool)
      requires Enabled(View(), ConfigReply(r, realtimeExpected))
      modifies this
      ensures View() == Step(old(View()), ConfigReply(r, realtimeExpected))
    {
      if !realtimeExpected {
        OpenWebRTCCircuit();
        FinallyBlock(r);
        return;
      }
      var connection := created;
      created := created + 1;
      peerConnection := Some(connection);
      dataChannel := Some(connection);
      watchdog := Some(Watchdog(now + OFFER_WATCHDOG_MS, connection));
      rounds := rounds[r := rounds[r].(phase := AwaitOffer, conn := Some(connection))];
    }

    method OnAwaitDone(r: nat)
      requires Enabled(View(), AwaitDone(r))
      modifies this
      ensures View() == Step(old(View()), AwaitDone(r))
    {
      var round := rounds[r];
      match round.phase
      case AwaitOffer => rounds := rounds[r := round.(phase := AwaitLocal)];
      case AwaitLocal => rounds := rounds[r := round.(phase := AwaitGather)];
      case AwaitGather => rounds := rounds[r := round.(phase := AwaitAnswer)];
      case AwaitAnswer =>
        if peerConnection == round.conn {
          rounds := rounds[r := round.(phase := AwaitRemote)];
        } else {
          FinallyBlock(r);
        }
      case AwaitRemote => FinallyBlock(r);
    }

    method OnAwaitFailed(r: nat, failure: Failure)
      requires Enabled(View(), AwaitFailed(r, failure))
      modifies this
      ensures View() == Step(old(View()), AwaitFailed(r, failure))
    {
      CatchKeepsRounds(View(), r, failure);
      CatchBlock(r, failure);
      FinallyBlock(r);
    }

    method OnWatchdog()
      requires Enabled(View(), WatchdogFires)
      modifies this
      ensures View() == Step(old(View()), WatchdogFires)
    {
      hide Schedule, RoundsOk;
      var connection := watchdog.value.conn;
      watchdog := None;
      if peerConnection != Some(connection) { return; }
      peerConnection := None;
      dataChannel := None;
      closed := closed + {connection};
      ScheduleWebRTCRecovery(false);
    }

    method OnDataChannelOpen(connection: nat)
      modifies this
      ensures View() == Step(old(View()), ChannelOpen(connection))
    {
      if peerConnection != Some(connection) { return; }
      watchdog := None;
      reconnectAttempts := 0;
    }

    method OnDataChannelClose(connection: nat)
      modifies this
      ensures View() == Step(old(View()), ChannelClosed(connection))
    {
      if peerConnection != Some(connection) { return; }
      dataChannel := None;
      watchdog := None;
      if joined { ScheduleWebRTCRecovery(false); }
    }

    method OnConnectionStateChange(connection: nat, connected: bool)
      modifies this
      ensures View() == Step(old(View()), ConnectionState(connection, connected))
    {
      if peerConnection != Some(connection) { return; }
      if connected {
        reconnectTimer := None;
        reconnectAttempts := 0;
        recoveryPending := false;
      } else {
        ScheduleWebRTCRecovery(false);
      }
    }

    method PerformJoin()
      modifies this
      ensures View() == Step(old(View()), Join)
    {
      takeoverBlocked := false;
      joined := true;
      if !demo { StartWebRTC(false); }
    }

    method RetryLowLatencyVideo(videoReady: bool)
      modifies this
      ensures View() == Step(old(View()), ManualRetry(videoReady))
    {
      if demo { return; }
      ResetWebRTCCircuit();
      if videoReady { return; }
      StartWebRTC(true);
    }

    method OnVisibilityChange(media: bool)
      modifies this
      ensures View() == Step(old(View()), BecameVisible(media))
    {
      if !joined || demo { return; }
      var restored := peerConnection.Some? && dataChannel.Some? && media;
      if !restored { ScheduleWebRTCRecovery(true); }
    }

    method OnRetryTimer(media: bool)
      requires Enabled(View(), RetryTimerFires(media))
      modifies this
      ensures View() == Step(old(View()), RetryTimerFires(media))
    {
      reconnectTimer := None;
      if !joined || demo { return; }
      var restored := peerConnection.Some? && dataChannel.Some? && media;
      if restored { return; }
      StartWebRTC(true);
    }
  }
}
