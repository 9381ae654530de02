/**
 What each callback of the page leaves behind, field by field and in milliseconds, without the
 functions the page's code shares between callbacks.
 */
module RecoveryCallbacks {
  import opened Options
  import opened Recovery

  /** Nothing of a negotiation is left: no round, no timer, no connection, and the former one is closed. */
  predicate TornDown(s: Page, t: Page) {
    && t.reconnectTimer == None && t.watchdog == None && t.peerConnection == None && t.dataChannel == None
    && (s.peerConnection.Some? ==> s.peerConnection.value in t.closed)
    && s.closed <= t.closed && t.started == s.started && t.now == s.now
  }

  /** A 409 in a round's answer: the overlay is up, the viewer is out, and nothing is scheduled. */
  lemma TakeoverAnswer(s: Page, r: nat)
    requires Inv(s) && Enabled(s, AwaitFailed(r, TakenOver))
    ensures var t := Step(s, AwaitFailed(r, TakenOver));
            TornDown(s, t) && t.takeoverBlocked && !t.joined && t.rounds == [] && !t.webRTCStarting
  {
    assert s.rounds[..r] + s.rounds[r + 1..] == [];
  }

  /** A 404 or 410: the session is over, and there is no overlay to reclaim from. */
  lemma GoneAnswer(s: Page, r: nat)
    requires Inv(s) && Enabled(s, AwaitFailed(r, Gone))
    ensures var t := Step(s, AwaitFailed(r, Gone));
            TornDown(s, t) && !t.takeoverBlocked && !t.joined && t.rounds == [] && !t.webRTCStarting
  {
    assert s.rounds[..r] + s.rounds[r + 1..] == [];
  }

  /** The same outside a round, which goes on if there is one. */
  lemma NoticeOrEnd(s: Page)
    ensures var t := Step(s, TakeoverNotice);
            TornDown(s, t) && t.takeoverBlocked && !t.joined && t.rounds == s.rounds && t.webRTCStarting == s.webRTCStarting
    ensures var t := Step(s, SessionOver);
            TornDown(s, t) && !t.takeoverBlocked && !t.joined && t.rounds == s.rounds && t.webRTCStarting == s.webRTCStarting
  {}

  /**
   What a loss leads to: nothing for a viewer who has not joined, is blocked or watches the demo;
   a note while a round is starting; behind the breaker nothing, unless the page comes back 30 s
   after it opened; a retry after 1.6 s, or at once, the first time; and then the breaker.
   */
  predicate Scheduled(s: Page, immediate: bool, t: Page) {
    if !s.joined || s.takeoverBlocked || s.demo then t == s
    else if s.webRTCStarting then t == s.(recoveryPending := true)
    else if s.circuitOpen then
      if immediate && s.now - s.circuitOpenedAt >= 30000 then
        t == s.(circuitOpen := false, circuitOpenedAt := 0, reconnectAttempts := 1, reconnectTimer := Some(s.now))
      else t == s
    else if s.reconnectTimer.Some? && !immediate then t == s
    else if s.reconnectAttempts == 0 then
      t == s.(reconnectAttempts := 1, reconnectTimer := Some(s.now + if immediate then 0 else 1600))
    else
      t == s.(reconnectAttempts := s.reconnectAttempts + 1, reconnectTimer := None, circuitOpen := true, circuitOpenedAt := s.now)
  }

  lemma ScheduleExactly(s: Page, immediate: bool)
    ensures Scheduled(s, immediate, Schedule(s, immediate))
  {}

  /** The config reply of a reachable server builds a connection and gives its channel 35 s. */
  lemma ConfigNegotiates(s: Page, r: nat)
    requires Enabled(s, ConfigReply(r, true))
    ensures Step(s, ConfigReply(r, true)) == s.(
              peerConnection := Some(s.created), dataChannel := Some(s.created), created := s.created + 1,
              watchdog := Some(Watchdog(s.now + 35000, s.created)),
              rounds := s.rounds[r := Round(s.rounds[r].recovery, AwaitOffer, Some(s.created))])
  {}

  /** Where no real-time path can work the breaker opens and the round returns. */
  lemma ConfigRefuses(s: Page, r: nat)
    requires Inv(s) && Enabled(s, ConfigReply(r, false)) && !s.recoveryPending
    ensures var t := Step(s, ConfigReply(r, false));
            && t.circuitOpen && t.circuitOpenedAt == (if s.circuitOpen then s.circuitOpenedAt else s.now)
            && t.rounds == [] && !t.webRTCStarting && t.reconnectTimer == None && t.started == s.started
  {
    assert s.rounds[..r] + s.rounds[r + 1..] == [];
  }

  /** The awaits of a round in order, and where it returns. */
  lemma RoundGoesOn(s: Page, r: nat)
    requires Inv(s) && Enabled(s, AwaitDone(r))
    ensures var phase, t := s.rounds[r].phase, Step(s, AwaitDone(r));
            var next := match phase
              case AwaitOffer => Some(AwaitLocal)
              case AwaitLocal => Some(AwaitGather)
              case AwaitGather => Some(AwaitAnswer)
              case AwaitAnswer => (if s.peerConnection == s.rounds[r].conn then Some(AwaitRemote) else None)
              case _ => None;
            if next.Some? then t == s.(rounds := [s.rounds[0].(phase := next.value)])
            else
              var done := s.(webRTCStarting := false, rounds := []);
              if s.recoveryPending then Scheduled(done, true, t) else t == done
  {
    assert s.rounds[..r] + s.rounds[r + 1..] == [];
    hide Schedule;
    ScheduleExactly(s.(webRTCStarting := false, rounds := []), true);
  }

  /** Any other failure of a joined viewer's round counts as a loss once the round has returned. */
  lemma RoundFails(s: Page, r: nat)
    requires Inv(s) && Enabled(s, AwaitFailed(r, Other)) && s.joined
    ensures Scheduled(s.(webRTCStarting := false, rounds := [], recoveryPending := !s.demo || s.recoveryPending), true,
                      Step(s, AwaitFailed(r, Other)))
  {
    assert s.rounds[..r] + s.rounds[r + 1..] == [];
    ScheduleExactly(s.(webRTCStarting := false, rounds := [], recoveryPending := !s.demo || s.recoveryPending), true);
  }

  /** The watchdog closes its connection, which is the current one, and that is a loss. */
  lemma WatchdogDrops(s: Page)
    requires Inv(s) && Enabled(s, WatchdogFires)
    ensures s.now >= s.watchdog.value.deadline && s.peerConnection == Some(s.watchdog.value.conn)
    ensures Scheduled(
              s.(watchdog := None, peerConnection := None, dataChannel := None, closed := s.closed + {s.watchdog.value.conn}),
              false, Step(s, WatchdogFires))
  {
    hide Schedule;
    ScheduleExactly(s.(watchdog := None, peerConnection := None, dataChannel := None, closed := s.closed + {s.watchdog.value.conn}), false);
  }

  /** Callbacks of the current connection and its channel; those of any other change nothing. */
  lemma LinkCallbacks(s: Page, conn: nat)
    ensures s.peerConnection != Some(conn) ==>
              && Step(s, ChannelOpen(conn)) == Step(s, ChannelClosed(conn)) == s
              && Step(s, ConnectionState(conn, true)) == Step(s, ConnectionState(conn, false)) == s
    ensures s.peerConnection == Some(conn) ==>
              && Step(s, ChannelOpen(conn)) == s.(watchdog := None, reconnectAttempts := 0)
              && Step(s, ConnectionState(conn, true)) == s.(reconnectTimer := None, reconnectAttempts := 0, recoveryPending := false)
              && Scheduled(s, false, Step(s, ConnectionState(conn, false)))
              && Scheduled(s.(dataChannel := None, watchdog := None), false, Step(s, ChannelClosed(conn)))
  {
    ScheduleExactly(s, false);
    ScheduleExactly(s.(dataChannel := None, watchdog := None), false);
  }

  /** A round starts: everything of the one before is dropped and closed. */
  predicate Begun(s: Page, recovery: bool, t: Page) {
    if s.takeoverBlocked || s.webRTCStarting then t == s
    else
      t == s.(webRTCStarting := true, recoveryPending := false, reconnectTimer := None, watchdog := None,
              dataChannel := None, peerConnection := None, rounds := s.rounds + [Round(recovery, AwaitConfig, None)],
              started := s.started + 1,
              closed := s.closed + if s.peerConnection.Some? then {s.peerConnection.value} else {})
  }

  /** Joining lifts the block and starts a round; asking for video closes the breaker and does so unless a frame is there. */
  lemma JoinAndRetry(s: Page)
    ensures var j, t := s.(joined := true, takeoverBlocked := false), Step(s, Join);
            if s.demo then t == j else Begun(j, false, t)
    ensures var c := s.(circuitOpen := false, circuitOpenedAt := 0, reconnectAttempts := 0);
            if s.demo then Step(s, ManualRetry(true)) == Step(s, ManualRetry(false)) == s
            else Step(s, ManualRetry(true)) == c && Begun(c, true, Step(s, ManualRetry(false)))
  {}

  /** The retry timer starts a round, and coming back is a loss at once, for a joined viewer who is without connection, channel or picture. */
  lemma RetryAndReturn(s: Page, media: bool)
    ensures var missing := s.joined && !s.demo && !(s.peerConnection.Some? && s.dataChannel.Some? && media);
            && (if missing then Scheduled(s, true, Step(s, BecameVisible(media))) else Step(s, BecameVisible(media)) == s)
            && (Enabled(s, RetryTimerFires(media)) ==>
                  var u := s.(reconnectTimer := None);
                  if missing then Begun(u, true, Step(s, RetryTimerFires(media))) else Step(s, RetryTimerFires(media)) == u)
            && (Enabled(s, RetryTimerFires(media)) <==> s.reconnectTimer.Some? && s.reconnectTimer.value <= s.now)
  {
    hide Schedule;
    ScheduleExactly(s, true);
  }

  /** The delays: doubled up to the fifth attempt, so that the limit of 30 s is never what decides. */
  lemma Delays(attempts: nat)
    ensures Backoff(attempts, true) == 0
    ensures Backoff(0, false) == 800 && Backoff(1, false) == 1600 && Backoff(2, false) == 3200 && Backoff(3, false) == 6400
    ensures attempts >= 4 ==> Backoff(attempts, false) == 12800
  {
    assert Pow2(1) == 2 && Pow2(2) == 4 && Pow2(3) == 8 && Pow2(4) == 16;
  }

  predicate Untouched(s: Page) {
    && !s.joined && s.started == 0 && s.created == 0 && s.rounds == [] && s.closed == {}
    && s.peerConnection == s.dataChannel == s.reconnectTimer == None && s.watchdog == None
  }

  lemma UntouchedStep(s: Page, e: Event)
    requires Untouched(s) && Enabled(s, e) && !e.Join? && !e.ManualRetry?
    ensures Untouched(Step(s, e))
  {}

  lemma {:induction false} UntouchedRun(s: Page, es: seq<Event>)
    requires Untouched(s) && IsRun(s, es)
    requires forall i :: 0 <= i < |es| ==> !es[i].Join? && !es[i].ManualRetry?
    ensures Untouched(Exec(s, es))
    decreases |es|
  {
    if es != [] {
      hide Step, Untouched;
      UntouchedStep(s, es[0]);
      UntouchedRun(Step(s, es[0]), es[1..]);
    }
  }

  /** A page that nobody joins and nobody asks for video starts no round and makes no connection. */
  lemma NothingUnasked(demo: bool, t0: nat, es: seq<Event>)
    requires IsRun(Loaded(demo, t0), es)
    requires forall i :: 0 <= i < |es| ==> !es[i].Join? && !es[i].ManualRetry?
    ensures var s := Exec(Loaded(demo, t0), es); !s.joined && s.started == 0 && s.created == 0 && s.rounds == []
  {
    UntouchedRun(Loaded(demo, t0), es);
  }
}
