/**
 What every request is answered and what it leaves behind, stated on the world alone: by the
 session its link names, the time, and the session's own fields.
 */
module SessionReplies {
  import opened Options
  import opened Sessions

  /** Neither stopped nor expired, nor past its end. */
  predicate Live(d: SessionData, now: nat) {
    (d.state.Waiting? || d.state.Connected?) && (d.expiresAt.Some? ==> now < d.expiresAt.value)
  }

  /** The link names a live session. */
  predicate Opens(w: World, token: Key) {
    && token in w.tokens && w.tokens[token] != NONE && w.tokens[token] in w.sessions
    && Live(w.sessions[w.tokens[token]], w.now)
  }

  /** What a refused request leaves: the session its link names is marked as over if it is past its end, and nothing else. */
  predicate OnlyExpires(w: World, token: Key, t: World) {
    t == w.(sessions :=
      if token in w.tokens && w.tokens[token] != NONE && w.tokens[token] in w.sessions
         && !w.sessions[w.tokens[token]].state.Stopped? && !w.sessions[w.tokens[token]].state.Expired?
         && !Live(w.sessions[w.tokens[token]], w.now)
      then w.sessions[w.tokens[token] := w.sessions[w.tokens[token]].(
             state := Expired, viewerState := ViewerDisconnected, connectionMode := NotConnected)]
      else w.sessions)
  }

  /** Looking a link up finds the live session it names and changes nothing; otherwise it finds none. */
  lemma LookupExactly(w: World, token: Key)
    ensures var (t, found) := Lookup(w, token);
            if Opens(w, token) then t == w && found == Some(w.tokens[token]) else OnlyExpires(w, token, t) && found == None
  {
    if token in w.tokens && w.tokens[token] in w.sessions {
      var id := w.tokens[token];
      assert w.sessions[id := w.sessions[id]] == w.sessions;
    }
  }

  /** The file holds the sessions that are not over, without lease and pointer start, and names the active one. */
  ghost predicate FileHolds(w: World) {
    && w.store.activeID == w.activeID
    && (forall id :: id in w.store.saved <==> id in w.sessions && !w.sessions[id].state.Stopped? && !w.sessions[id].state.Expired?)
    && (forall id :: id in w.store.saved ==> w.store.saved[id] == w.sessions[id].(viewerToken := NONE, pointerStart := None))
  }

  // ---------------------------------------------------------------- joining

  /**
   A join succeeds if and only if the link names a live session, the code is the session's own
   where one is required, and the request brings the session's lease or a new one was drawn. The
   session is then connected and leased to whoever asked, and its peer is taken out to be closed.
   */
  lemma JoinExactly(w: World, token: Key, code: Key, requested: Key, lease: Key)
    ensures var (t, reply) := Outcome(w, Join(token, code, requested, lease));
            if !Opens(w, token) then reply == GoneAway && OnlyExpires(w, token, t)
            else
              var id, d := w.tokens[token], w.sessions[w.tokens[token]];
              var reusing := requested != NONE && requested == d.viewerToken;
              if d.requireCode && code != d.accessCode then reply == Unauthorized && t == w
              else if !reusing && lease == NONE then reply == ServerError && t == w
              else
                && reply == OK
                && t.sessions == w.sessions[id := d.(
                     state := Connected, viewerState := ViewerConnected, viewerToken := if reusing then requested else lease,
                     connectionMode := if d.isDemo then Demo else FallbackScreen)]
                && t.peers == w.peers - {id} && t.open == w.open
                && t.closing == w.closing + (if id in w.peers then {w.peers[id]} else {})
                && t.tokens == w.tokens && t.inFlight == w.inFlight && t.activeID == w.activeID && FileHolds(t)
  {
    LookupExactly(w, token);
    hide Lookup;
  }

  /** Whoever brings the right code to a live session gets in. */
  lemma RightCodeJoins(w: World, token: Key, lease: Key)
    requires Opens(w, token) && lease != NONE
    ensures Outcome(w, Join(token, w.sessions[w.tokens[token]].accessCode, NONE, lease)).1 == OK
  {
    JoinExactly(w, token, w.sessions[w.tokens[token]].accessCode, NONE, lease);
  }

  // ---------------------------------------------------------------- offers

  /** An offer is begun if and only if its sender holds the lease of a live, connected session. */
  lemma BeginOfferExactly(w: World, token: Key, supplied: Key)
    ensures var (t, reply) := Outcome(w, BeginOffer(token, supplied));
            if !Opens(w, token) then reply == GoneAway && OnlyExpires(w, token, t)
            else
              var id, d := w.tokens[token], w.sessions[w.tokens[token]];
              if !d.viewerState.ViewerConnected? then reply == GoneAway && t == w
              else if supplied == NONE || supplied != d.viewerToken then reply == Conflict && t == w
              else
                && reply == OK
                && t == w.(sessions := w.sessions[id := d.(connectionMode := Negotiating)],
                           peers := w.peers - {id}, closing := w.closing + (if id in w.peers then {w.peers[id]} else {}),
                           inFlight := w.inFlight + {Offer(w.issued, id, supplied)}, issued := w.issued + 1)
  {
    LookupExactly(w, token);
    hide Lookup;
  }

  /** An answered offer is registered if and only if its session is not over and still under its lease. */
  lemma FinishOfferExactly(w: World, offer: Offer)
    ensures var (t, reply) := Outcome(w, FinishOffer(offer, true));
            var u := w.(inFlight := w.inFlight - {offer});
            if offer.sessionID !in w.sessions then reply == GoneAway && t == u
            else
              var d := w.sessions[offer.sessionID];
              if d.state.Stopped? || d.state.Expired? || !d.viewerState.ViewerConnected? then reply == GoneAway && t == u
              else if d.viewerToken != offer.viewerToken then reply == Conflict && t == u
              else reply == OK && t == u.(peers := w.peers[offer.sessionID := offer], open := w.open + {offer})
  {}

  /** An offer that failed leaves the session on screenshots, unless it is over. */
  lemma FailedOfferExactly(w: World, offer: Offer)
    ensures var (t, reply) := Outcome(w, FinishOffer(offer, false));
            && reply == BadGateway && t.inFlight == w.inFlight - {offer} && t.peers == w.peers
            && t.sessions == (
                 if offer.sessionID !in w.sessions || w.sessions[offer.sessionID].state.Stopped? || w.sessions[offer.sessionID].state.Expired?
                 then w.sessions
                 else w.sessions[offer.sessionID := w.sessions[offer.sessionID].(connectionMode := FallbackScreen)])
            && if t.sessions != w.sessions then FileHolds(t) else t.store == w.store
  {}

  /** A report of the registered peer sets and stores the mode of a session that is not over; any other, and the same mode again, changes nothing. */
  lemma ReportExactly(w: World, peer: Offer, mode: ConnectionMode)
    ensures var t, id := Step(w, PeerCallback(peer, mode)), peer.sessionID;
            if id in w.peers && w.peers[id] == peer && id in w.sessions && !w.sessions[id].state.Stopped? && !w.sessions[id].state.Expired?
               && w.sessions[id].connectionMode != mode
            then t.sessions == w.sessions[id := w.sessions[id].(connectionMode := mode)] && t.peers == w.peers && FileHolds(t)
            else t == w
  {}

  // ---------------------------------------------------------------- input

  predicate Recorded(d: SessionData, press: Press, after: SessionData) {
    after == d.(pointerStart := if press.Down? then Some(press.at) else if press.Up? then None else d.pointerStart)
  }

  /** The lease holder of a live, connected session that may be controlled is obeyed, and nobody else. */
  lemma ControlExactly(w: World, token: Key, supplied: Key, press: Press)
    ensures var (t, reply) := Outcome(w, Control(token, supplied, press));
            if !Opens(w, token) then reply == GoneAway && OnlyExpires(w, token, t)
            else
              var id, d := w.tokens[token], w.sessions[w.tokens[token]];
              if !d.viewerState.ViewerConnected? || !d.control then reply == Forbidden && t == w
              else if supplied == NONE || supplied != d.viewerToken then reply == Conflict && t == w
              else reply == OK && id in t.sessions && t == w.(sessions := w.sessions[id := t.sessions[id]]) && Recorded(d, press, t.sessions[id])
  {
    LookupExactly(w, token);
    hide Lookup;
  }

  /** Input on a data channel is obeyed for every session that is not over, connected and controllable. */
  lemma PeerControlExactly(w: World, peer: Offer, press: Press)
    ensures var t, id := Step(w, PeerControl(peer, press)), peer.sessionID;
            if id in w.sessions && !w.sessions[id].state.Stopped? && !w.sessions[id].state.Expired?
               && w.sessions[id].viewerState.ViewerConnected? && w.sessions[id].control
            then id in t.sessions && t == w.(sessions := w.sessions[id := t.sessions[id]]) && Recorded(w.sessions[id], press, t.sessions[id])
            else t == w
  {}

  /** The lease holder of a live, connected session may choose the video profile, and the file is written. */
  lemma ProfileExactly(w: World, token: Key, supplied: Key)
    ensures var (t, reply) := Outcome(w, SetProfile(token, supplied));
            if !Opens(w, token) then reply == GoneAway && OnlyExpires(w, token, t)
            else
              var d := w.sessions[w.tokens[token]];
              if !d.viewerState.ViewerConnected? then reply == GoneAway && t == w
              else if supplied == NONE || supplied != d.viewerToken then reply == Conflict && t == w
              else reply == OK && t == w.(store := t.store) && FileHolds(t)
  {
    LookupExactly(w, token);
    hide Lookup;
  }

  // ---------------------------------------------------------------- creating, stopping, expiring

  /** Every request that lists sessions ends those past their end, and no others. */
  lemma PollExactly(w: World)
    ensures var t := Step(w, Poll);
            && t.sessions.Keys == w.sessions.Keys
            && (forall id :: id in w.sessions ==>
                  var d := w.sessions[id];
                  t.sessions[id] ==
                    if Live(d, w.now) || d.state.Stopped? || d.state.Expired? then d
                    else d.(state := Expired, viewerState := ViewerDisconnected, connectionMode := NotConnected))
            && t.activeID == (if w.activeID in w.sessions && Live(w.sessions[w.activeID], w.now) then w.activeID else NONE)
            && t.now == w.now && t.peers == w.peers && t.tokens == w.tokens && t.usedIDs == w.usedIDs && t.usedTokens == w.usedTokens
  {
    if w.activeID in w.sessions && Live(w.sessions[w.activeID], w.now) {
      assert !Terminal(Refreshed(w.sessions[w.activeID], w.now));
    }
  }

  lemma PollWritesFile(w: World)
    ensures Step(w, Poll).sessions != w.sessions ==> FileHolds(Step(w, Poll))
  {}

  /** What a session can be made of: a device that is ready, random draws, and a profile the encoder supports. */
  predicate Makes(request: CreateRequest, draw: Draw) {
    && draw.device.Ready? && draw.randomOk
    && (request.profile.Custom? ==>
          && request.profile.maxSize in {360, 480, 540, 720, 960, 1080}
          && request.profile.maxFPS in {10, 15, 18, 24, 30})
  }

  /** What a new session is: waiting, without lease, ending after the minutes asked for, with a code if one is required. */
  predicate Fresh(d: SessionData, request: CreateRequest, draw: Draw, now: nat) {
    && d.id == draw.id && d.token == draw.token && d.deviceID == request.deviceID
    && d.requireCode == request.requireCode && d.accessCode == (if request.requireCode then draw.accessCode else NONE)
    && d.control == request.control && d.isDemo == draw.isDemo
    && d.state.Waiting? && d.viewerState.ViewerWaiting? && d.connectionMode.NotConnected?
    && d.expiresAt == (if request.minutes > 0 then Some(now + request.minutes * 60000) else None)
    && d.viewerToken == NONE && d.pointerStart == None
  }

  lemma CreateExactly(w: World, request: CreateRequest, draw: Draw)
    ensures var (t, reply) := Outcome(w, Create(request, draw));
            var polled := Step(w, Poll);
            if request.minutes < 0 || request.minutes > 1440 then reply == BadRequest && t == w
            else if w.activeID in w.sessions && Live(w.sessions[w.activeID], w.now) && w.activeID != NONE then
              t == polled && reply == if w.sessions[w.activeID].deviceID == request.deviceID then OK else Conflict
            else if draw.device.Missing? then reply == NotFound && t == polled
            else if draw.device.Unready? then reply == Conflict && t == polled
            else if !Makes(request, draw) then reply == ServerError && t == polled
            else
              && reply == Created && draw.id in t.sessions
              && Fresh(t.sessions[draw.id], request, draw, w.now)
              && t.sessions == polled.sessions[draw.id := t.sessions[draw.id]]
              && t.tokens == w.tokens[draw.token := draw.id] && t.activeID == draw.id && t.peers == w.peers
              && FileHolds(t)
  {
    PollExactly(w);
    hide Refresh;
    var t := Refresh(w);
    assert t.activeID != NONE && t.activeID in t.sessions ==> t.sessions[t.activeID] == w.sessions[w.activeID];
  }

  /** Stopping ends the session that has the id, whatever its state, for good, and takes its peer out to be closed. */
  lemma StopExactly(w: World, id: Key)
    ensures var (t, reply) := Outcome(w, Stop(id));
            if id !in w.sessions then reply == NotFound && t == w
            else
              && reply == OK
              && t.sessions == w.sessions[id := w.sessions[id].(
                   state := Stopped, viewerState := ViewerDisconnected, connectionMode := NotConnected)]
              && t.activeID == (if w.activeID == id then NONE else w.activeID)
              && t.peers == w.peers - {id}
              && t.closing == w.closing + (if id in w.peers then {w.peers[id]} else {})
              && FileHolds(t)
  {}

  lemma StopEndsForGood(w: World, id: Key, es: seq<Event>)
    requires Inv(w) && id in w.sessions && IsRun(Step(w, Stop(id)), es)
    ensures var t := Exec(Step(w, Stop(id)), es); id in t.sessions ==> !Live(t.sessions[id], t.now)
  {
    StepKeepsInv(w, Stop(id));
    StopExactly(w, id);
    hide Inv, Step, Outcome;
    TerminalIsEnded(Step(w, Stop(id)), id);
    EndedForGood(Step(w, Stop(id)), es, id);
  }

  // ---------------------------------------------------------------- restarts

  /** A restart brings back exactly the live sessions, without lease and pointer start, and nothing else of memory. */
  lemma RestartExactly(w: World)
    requires Inv(w)
    ensures var t := Step(w, Restart);
            && (forall id :: id in t.sessions <==> id in w.sessions && Live(w.sessions[id], w.now))
            && (forall id :: id in t.sessions ==>
                  t.sessions[id] == w.sessions[id].(viewerToken := NONE, pointerStart := None, connectionMode := t.sessions[id].connectionMode))
            && t.peers == map[] && t.inFlight == {} && t.open == {} && t.closing == {} && t.store == w.store
  {
    var t := Step(w, Restart);
    RestartForgets(w);
    RestartKeepsExactlyTheLive(w);
    hide Inv, LoadedSessions, TokensOf, Step;
    forall id ensures id in t.sessions.Keys <==> id in w.sessions && Live(w.sessions[id], w.now) {
      if id in w.sessions { LiveIsNotTerminal(w.sessions[id], w.now); }
    }
  }

  /** From a file of any content a session is loaded if and only if it has an id and a token and is live. */
  lemma LoadsExactly(d: SessionData, now: nat)
    ensures Loads(d, now) <==> d.id != NONE && d.token != NONE && Live(d, now)
    ensures Live(d, now) ==> Refreshed(d, now) == d
  {}

  lemma RestartForgets(w: World)
    ensures var t := Step(w, Restart);
            t == Restarted(w) && t.peers == map[] && t.inFlight == {} && t.open == {} && t.closing == {} && t.store == w.store
  {
    hide LoadedSessions, TokensOf;
  }

  lemma LiveIsNotTerminal(d: SessionData, now: nat)
    ensures Live(d, now) <==> !Terminal(Refreshed(d, now))
  {}
}
