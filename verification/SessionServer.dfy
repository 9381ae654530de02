/**
 The session handlers in their own shape: shared maps changed under one lock, and the
 session file. Every method is proved to be the step of `Sessions` it implements, and to
 keep that module's invariant.
 */
module SessionServer {
  import opened Options
  import opened Sessions

  // ---------------------------------------------------------------- the session file

  /** One element of the JSON list; the session's own token is not exported, so it is stored beside it. */
  datatype StoredSession = StoredSession(session: SessionData, token: Key)

  datatype SessionFile = SessionFile(activeID: Key, items: seq<StoredSession>)

  function Exported(d: SessionData): StoredSession { StoredSession(Stripped(d).(token := NONE), d.token) }

  function Restored(item: StoredSession): SessionData { item.session.(token := item.token, pointerStart := None) }

  /** The file as a map; a later item replaces an earlier one with the same id. */
  function Saved(items: seq<StoredSession>): map<Key, SessionData> {
    if items == [] then map[]
    else Saved(items[..|items| - 1])[items[|items| - 1].session.id := Restored(items[|items| - 1])]
  }

  ghost predicate Distinct(items: seq<StoredSession>) {
    forall i, j :: 0 <= i < j < |items| ==> items[i].session.id != items[j].session.id && items[i].token != items[j].token
  }

  lemma {:induction false} SavedKeys(items: seq<StoredSession>, id: Key)
    ensures id in Saved(items) <==> exists i :: 0 <= i < |items| && items[i].session.id == id
  {
    if items != [] {
      var n := |items| - 1;
      SavedKeys(items[..n], id);
      if i :| 0 <= i < n && items[i].session.id == id { assert items[..n][i].session.id == id; }
    }
  }

  function PersistedBut(values: map<Key, SessionData>, todo: set<Key>): map<Key, SessionData> {
    map id | id in values && id !in todo && !Terminal(values[id]) :: Stripped(values[id])
  }

  ghost predicate OwnNames(values: map<Key, SessionData>) {
    && (forall id :: id in values ==> values[id].id == id)
    && (forall i, j :: i in values && j in values && values[i].token == values[j].token ==> i == j)
  }

  ghost predicate NamesDone(items: seq<StoredSession>, values: map<Key, SessionData>, todo: set<Key>) {
    forall i :: 0 <= i < |items| ==>
      var id := items[i].session.id; id in values && id !in todo && items[i].token == values[id].token
  }

  ghost predicate ListsDone(items: seq<StoredSession>, values: map<Key, SessionData>, todo: set<Key>) {
    Saved(items) == PersistedBut(values, todo) && NamesDone(items, values, todo) && Distinct(items)
  }

  lemma SavedOneMore(items: seq<StoredSession>, values: map<Key, SessionData>, todo: set<Key>, id: Key)
    requires id in todo && id in values && values[id].id == id && !Terminal(values[id])
    requires Saved(items) == PersistedBut(values, todo)
    ensures Saved(items + [Exported(values[id])]) == PersistedBut(values, todo - {id})
  {
    var longer := items + [Exported(values[id])];
    assert longer[..|longer| - 1] == items;
    assert PersistedBut(values, todo - {id}) == PersistedBut(values, todo)[id := Stripped(values[id])];
  }

  lemma NamesOneMore(items: seq<StoredSession>, values: map<Key, SessionData>, todo: set<Key>, id: Key)
    requires OwnNames(values) && id in todo && id in values && NamesDone(items, values, todo) && Distinct(items)
    ensures NamesDone(items + [Exported(values[id])], values, todo - {id})
    ensures Distinct(items + [Exported(values[id])])
  {
    var longer := items + [Exported(values[id])];
    forall i | 0 <= i < |items|
      ensures longer[i].session.id != id && longer[i].token != values[id].token
    {
      assert items[i].session.id in values;
    }
  }

  lemma ListOneMore(items: seq<StoredSession>, values: map<Key, SessionData>, todo: set<Key>, id: Key)
    requires OwnNames(values) && ListsDone(items, values, todo) && id in todo && id in values
    ensures ListsDone(if Terminal(values[id]) then items else items + [Exported(values[id])], values, todo - {id})
  {
    hide Distinct;
    if Terminal(values[id]) {
      assert PersistedBut(values, todo - {id}) == PersistedBut(values, todo);
    } else {
      SavedOneMore(items, values, todo, id);
      NamesOneMore(items, values, todo, id);
    }
  }

  /** `saveSessionStore`: every live session once, in whatever order the map is traversed. */
  method SaveSessionStore(activeID: Key, sessions: map<Key, SessionData>) returns (file: SessionFile)
    requires OwnNames(sessions)
    ensures file.activeID == activeID
    ensures Saved(file.items) == Persisted(sessions)
    ensures Distinct(file.items)
  {
    var items: seq<StoredSession> := [];
    var todo := sessions.Keys;
    while todo != {}
      invariant todo <= sessions.Keys
      invariant ListsDone(items, sessions, todo)
      decreases todo
    {
      var id :| id in todo;
      var session := sessions[id];
      ListOneMore(items, sessions, todo, id);
      if !Terminal(session) {
        items := items + [Exported(session)];
      }
      todo := todo - {id};
    }
    assert PersistedBut(sessions, {}) == Persisted(sessions);
    file := SessionFile(activeID, items);
  }

  /** What the loading loop builds from any list of items. */
  function LoadItems(items: seq<StoredSession>, now: nat): (map<Key, SessionData>, map<Key, Key>) {
    if items == [] then (map[], map[])
    else
      var n := |items| - 1;
      var (sessions, tokens) := LoadItems(items[..n], now);
      var d := Restored(items[n]);
      if Loads(d, now) then (sessions[d.id := Refreshed(d, now)], tokens[d.token := d.id]) else (sessions, tokens)
  }

  lemma LoadOneMore(items: seq<StoredSession>, k: nat, now: nat)
    requires k < |items|
    ensures items[..k + 1][..k] == items[..k] && items[..k + 1][k] == items[k]
  {}

  /** `loadSessionStore` */
  method LoadSessionStore(file: SessionFile, now: nat)
    returns (sessions: map<Key, SessionData>, tokens: map<Key, Key>, activeID: Key)
    ensures (sessions, tokens) == LoadItems(file.items, now)
    ensures activeID == if file.activeID in sessions then file.activeID else NONE
  {
    sessions, tokens := map[], map[];
    for k := 0 to |file.items|
      invariant (sessions, tokens) == LoadItems(file.items[..k], now)
    {
      LoadOneMore(file.items, k, now);
      var value := Refreshed(Restored(file.items[k]), now);
      if value.id == NONE || value.token == NONE || Terminal(value) { continue; }
      sessions := sessions[value.id := value];
      tokens := tokens[value.token := value.id];
    }
    assert file.items[..|file.items|] == file.items;
    activeID := if file.activeID in sessions then file.activeID else NONE;
  }

  /** For a file that `SaveSessionStore` wrote, loading gives the sessions and tokens of a restart. */
  lemma {:induction false} LoadIsRestart(items: seq<StoredSession>, now: nat)
    requires Distinct(items)
    ensures LoadItems(items, now) == (LoadedSessions(Saved(items), now), TokensOf(LoadedSessions(Saved(items), now)))
  {
    if items != [] {
      var n := |items| - 1;
      var d := Restored(items[n]);
      LoadIsRestart(items[..n], now);
      LoadedOneMore(items, now);
      SavedOneIDPerToken(items[..n]);
      SavedTokens(items[..n], d.token);
      hide TokensOf, Saved;
      if Loads(d, now) { TokensOfOneMore(LoadedSessions(Saved(items[..n]), now), Refreshed(d, now)); }
    }
  }

  lemma LoadedOneMore(items: seq<StoredSession>, now: nat)
    requires Distinct(items) && items != []
    ensures var n := |items| - 1;
            var d := Restored(items[n]);
            var sessions := LoadedSessions(Saved(items[..n]), now);
            d.id !in sessions
            && LoadedSessions(Saved(items), now) == if Loads(d, now) then sessions[d.id := Refreshed(d, now)] else sessions
  {
    var n := |items| - 1;
    SavedKeys(items[..n], items[n].session.id);
  }

  lemma {:induction false} SavedTokens(items: seq<StoredSession>, token: Key)
    requires forall i :: 0 <= i < |items| ==> items[i].token != token
    ensures forall id :: id in Saved(items) ==> Saved(items)[id].token != token
  {
    if items != [] { SavedTokens(items[..|items| - 1], token); }
  }

  ghost predicate OneIDPerToken(sessions: map<Key, SessionData>) {
    forall i, j :: i in sessions && j in sessions && sessions[i].token == sessions[j].token ==> i == j
  }

  lemma {:induction false} SavedOneIDPerToken(items: seq<StoredSession>)
    requires Distinct(items)
    ensures OneIDPerToken(Saved(items))
  {
    if items != [] {
      var n := |items| - 1;
      SavedOneIDPerToken(items[..n]);
      SavedTokens(items[..n], items[n].token);
    }
  }

  lemma TokensOfSound(sessions: map<Key, SessionData>)
    ensures forall token :: token in TokensOf(sessions) ==> HasToken(sessions, TokensOf(sessions)[token], token)
    ensures forall id :: id in sessions ==> sessions[id].token in TokensOf(sessions)
  {
    forall token | token in TokensOf(sessions) ensures HasToken(sessions, TokensOf(sessions)[token], token) {
      var id :| id in sessions && sessions[id].token == token;
      assert HasToken(sessions, id, token);
    }
  }

  lemma TokensOfExactly(sessions: map<Key, SessionData>, tokens: map<Key, Key>)
    requires OneIDPerToken(sessions)
    requires forall token :: token in tokens ==> HasToken(sessions, tokens[token], token)
    requires forall id :: id in sessions ==> sessions[id].token in tokens
    ensures TokensOf(sessions) == tokens
  {
    hide TokensOf;
    TokensOfSound(sessions);
    forall token | token in tokens ensures token in TokensOf(sessions) && TokensOf(sessions)[token] == tokens[token] {
      assert HasToken(sessions, tokens[token], token);
    }
  }

  lemma TokensOfOneMore(sessions: map<Key, SessionData>, d: SessionData)
    requires OneIDPerToken(sessions)
    requires d.id !in sessions && forall id :: id in sessions ==> sessions[id].token != d.token
    ensures TokensOf(sessions[d.id := d]) == TokensOf(sessions)[d.token := d.id]
  {
    hide TokensOf;
    TokensOfSound(sessions);
    TokensOfExactly(sessions[d.id := d], TokensOf(sessions)[d.token := d.id]);
  }

  // ---------------------------------------------------------------- the server

  lemma IndexGivesNames(w: World)
    requires Inv(w)
    ensures OwnNames(w.sessions)
  {
    hide LivenessOk, LeasesOk, PeersOk, StoreOk;
  }

  class Server {
    var clock: nat                        // what time.Now() reads
    var sessions: map<Key, SessionData>
    var sessionToken: map<Key, Key>
    var webrtcPeers: map<Key, Offer>
    var activeID: Key
    var file: SessionFile                 // the session file on disk
    var issued: nat                       // numbers offers; stands for the identity of a peer
    ghost var inFlight: set<Offer>        // offers whose handler is between its critical sections
    ghost var open: set<Offer>            // answered peers not closed yet
    ghost var closing: set<Offer>         // peers about to be closed by the handler that took them out
    ghost var leases: set<Key>
    ghost var usedIDs: set<Key>
    ghost var usedTokens: set<Key>

    ghost function View(): World
      reads this
    {
      World(clock, sessions, sessionToken, webrtcPeers, activeID, Store(file.activeID, Saved(file.items)),
            inFlight, open, closing, issued, leases, usedIDs, usedTokens)
    }

    ghost predicate Valid()
      reads this
    {
      Distinct(file.items) && Inv(View())
    }

    constructor ()
      ensures Valid() && View() == Empty
    {
      clock, sessions, sessionToken, webrtcPeers, activeID, issued := 0, map[], map[], map[], NONE, 0;
      file := SessionFile(NONE, []);
      inFlight, open, closing, leases, usedIDs, usedTokens := {}, {}, {}, {}, {}, {};
      new;
      EmptyInv();
    }

    method PersistSessionsLocked()
      requires OwnNames(sessions)
      modifies this`file
      ensures View() == Persist(old(View())) && Distinct(file.items)
    {
      file := SaveSessionStore(activeID, sessions);
    }

    method SessionByTokenLocked(token: Key) returns (found: Option<Key>)
      modifies this`sessions
      ensures View() == Lookup(old(View()), token).0 && found == Lookup(old(View()), token).1
      ensures found.Some? ==> found.value in sessions
    {
      if token !in sessionToken { return None; }
      var id := sessionToken[token];
      if id == NONE || id !in sessions { return None; }
      sessions := sessions[id := Refreshed(sessions[id], clock)];
      if Terminal(sessions[id]) { return None; }
      found := Some(id);
    }

    /** The loop of `refreshSessionsLocked`. */
    method RefreshEach() returns (changed: bool)
      modifies this`sessions
      ensures sessions == RefreshedAll(old(sessions), clock) && (changed <==> sessions != old(sessions))
    {
      ghost var w := sessions;
      changed := false;
      var todo := sessions.Keys;
      while todo != {}
        invariant todo <= sessions.Keys == w.Keys
        invariant forall id :: id in sessions ==> sessions[id] == if id in todo then w[id] else Refreshed(w[id], clock)
        invariant changed ==> sessions != w
        invariant !changed ==> sessions == w
        decreases todo
      {
        var id :| id in todo;
        var before := sessions[id].state;
        sessions := sessions[id := Refreshed(sessions[id], clock)];
        if before != sessions[id].state {
          changed := true;
          assert sessions[id] != w[id];
        }
        todo := todo - {id};
      }
      assert sessions == RefreshedAll(w, clock);
    }

    method RefreshSessionsLocked()
      requires Valid()
      modifies this
      ensures Valid() && View() == Refresh(old(View()))
    {
      ghost var w := View();
      hide Inv, Saved, Distinct;
      RefreshKeepsInv(w);
      var changed := RefreshEach();
      if activeID != NONE {
        if activeID !in sessions || Terminal(sessions[activeID]) { activeID := NONE; }
      }
      if changed {
        RefreshKeepsNames(w);
        PersistSessionsLocked();
      }
    }

    method HandleCreateSession(request: CreateRequest, draw: Draw) returns (reply: Reply)
      requires Valid() && Enabled(View(), Create(request, draw))
      modifies this
      ensures Valid() && View() == CreateSession(old(View()), request, draw).0
      ensures reply == CreateSession(old(View()), request, draw).1
    {
      ghost var w := View();
      hide Inv, Distinct, Saved, Lookup, Refresh, OwnNames;
      CreateKeepsInv(w, request, draw);
      RefreshKeepsInv(w);
      if request.minutes < 0 || request.minutes > 24 * 60 { return BadRequest; }
      RefreshSessionsLocked();
      if activeID != NONE {
        if activeID in sessions && !Terminal(sessions[activeID]) {
          return if sessions[activeID].deviceID == request.deviceID then OK else Conflict;
        }
      }
      if draw.device.Missing? { return NotFound; }
      if draw.device.Unready? { return Conflict; }
      if !draw.randomOk || !Supported(request.profile) { return ServerError; }
      var session := NewSession(request, draw, clock);
      ghost var t := View();
      sessions := sessions[session.id := session];
      sessionToken := sessionToken[session.token := session.id];
      activeID := session.id;
      usedIDs, usedTokens := usedIDs + {session.id}, usedTokens + {session.token};
      AddedNames(w, t, request, draw);
      PersistSessionsLocked();
      reply := Created;
    }

    /** The part of `handleJoinSession` that hands the session over. */
    method LeaseSession(id: Key, viewerToken: Key)
      requires id in sessions
      modifies this`sessions, this`webrtcPeers, this`closing, this`leases
      ensures View() == Leased(old(View()), id, viewerToken)
      ensures id in sessions && sessions[id].viewerToken == viewerToken
    {
      closing := closing + PeerOf(webrtcPeers, id);
      webrtcPeers := webrtcPeers - {id};
      var session := sessions[id];
      session := session.(viewerToken := viewerToken, viewerState := ViewerConnected, state := Connected,
                          connectionMode := if session.isDemo then Demo else FallbackScreen);
      sessions := sessions[id := session];
      leases := leases + {viewerToken};
    }

    method HandleJoinSession(token: Key, code: Key, requested: Key, lease: Key) returns (reply: Reply, viewerToken: Key)
      requires Valid() && Enabled(View(), Join(token, code, requested, lease))
      modifies this
      ensures Valid() && View() == JoinSession(old(View()), token, code, requested, lease).0
      ensures reply == JoinSession(old(View()), token, code, requested, lease).1
      ensures reply == OK ==> exists id :: id in sessions && Owns(sessions[id], viewerToken)
    {
      ghost var w := View();
      hide Inv, Distinct, Saved, Lookup, Refresh, OwnNames;
      JoinKeepsInv(w, token, code, requested, lease);
      viewerToken := NONE;
      var found := SessionByTokenLocked(token);
      if found.None? { return GoneAway, NONE; }
      var id := found.value;
      var session := sessions[id];
      if session.requireCode && code != session.accessCode { return Unauthorized, NONE; }
      viewerToken := requested;
      if !(requested != NONE && requested == session.viewerToken) {
        if lease == NONE { return ServerError, NONE; }
        viewerToken := lease;
      }
      LeaseSession(id, viewerToken);
      hide Leased;
      LeasedNames(w, token, viewerToken);
      PersistSessionsLocked();
      reply := OK;
    }

    /** The first critical section of `handleWebRTCOffer`. */
    method BeginWebRTCOffer(token: Key, supplied: Key) returns (reply: Reply, offer: Option<Offer>)
      requires Valid()
      modifies this
      ensures Valid() && View() == OfferBegun(old(View()), token, supplied).0
      ensures reply == OfferBegun(old(View()), token, supplied).1
      ensures reply == OK ==> offer.Some? && offer.value in inFlight && offer.value.viewerToken == supplied
    {
      hide Inv, Distinct, Saved, Lookup, Refresh, OwnNames;
      BeginOfferKeepsInv(View(), token, supplied);
      offer := None;
      var found := SessionByTokenLocked(token);
      if found.None? { return GoneAway, None; }
      var id := found.value;
      var session := sessions[id];
      if !session.viewerState.ViewerConnected? { return GoneAway, None; }
      if !Owns(session, supplied) { return Conflict, None; }
      closing := closing + PeerOf(webrtcPeers, id);
      webrtcPeers := webrtcPeers - {id};
      sessions := sessions[id := session.(connectionMode := Negotiating)];
      var begun := Offer(issued, id, session.viewerToken);
      inFlight := inFlight + {begun};
      issued := issued + 1;
      reply, offer := OK, Some(begun);
    }

    /** The rest of `handleWebRTCOffer`, with the offer it kept in local variables. */
    method FinishWebRTCOffer(offer: Offer, answered: bool) returns (reply: Reply)
      requires Valid() && Enabled(View(), FinishOffer(offer, answered))
      modifies this
      ensures Valid() && View() == OfferFinished(old(View()), offer, answered).0
      ensures reply == OfferFinished(old(View()), offer, answered).1
    {
      hide Inv, Distinct, Saved, Lookup, Refresh, OwnNames;
      FinishOfferKeepsInv(View(), offer, answered);
      inFlight := inFlight - {offer};
      if !answered {
        IndexGivesNames(old(View()));
        SetWebRTCState(offer.sessionID, FallbackScreen);
        return BadGateway;
      }
      if offer.sessionID !in sessions { return GoneAway; }
      var current := sessions[offer.sessionID];
      if Terminal(current) || !current.viewerState.ViewerConnected? { return GoneAway; }
      if current.viewerToken != offer.viewerToken { return Conflict; }
      webrtcPeers := webrtcPeers[offer.sessionID := offer];
      open := open + {offer};
      reply := OK;
    }

    method SetWebRTCState(id: Key, mode: ConnectionMode)
      requires OwnNames(sessions) && Distinct(file.items)
      modifies this
      ensures View() == SetMode(old(View()), id, mode) && Distinct(file.items)
    {
      if id !in sessions { return; }
      var session := sessions[id];
      if Terminal(session) || session.connectionMode == mode { return; }
      sessions := sessions[id := session.(connectionMode := mode)];
      PersistSessionsLocked();
    }

    /** `webRTCPeer.setSessionState` */
    method SetSessionState(peer: Offer, mode: ConnectionMode)
      requires Valid() && Enabled(View(), PeerCallback(peer, mode))
      modifies this
      ensures Valid() && View() == PeerReports(old(View()), peer, mode)
    {
      hide Inv, Distinct, Saved, Lookup, Refresh, OwnNames;
      SetModeKeepsInv(View(), peer.sessionID, mode);
      if peer.sessionID !in webrtcPeers || webrtcPeers[peer.sessionID] != peer { return; }
      IndexGivesNames(View());
      SetWebRTCState(peer.sessionID, mode);
    }

    method HandleControlEvent(token: Key, supplied: Key, press: Press) returns (reply: Reply)
      requires Valid()
      modifies this
      ensures Valid() && View() == ControlEvent(old(View()), token, supplied, press).0
      ensures reply == ControlEvent(old(View()), token, supplied, press).1
    {
      hide Inv, Distinct, Saved, Lookup, Refresh, OwnNames;
      ControlKeepsInv(View(), token, supplied, press);
      var found := SessionByTokenLocked(token);
      if found.None? { return GoneAway; }
      var id := found.value;
      var session := sessions[id];
      if !session.viewerState.ViewerConnected? || !session.control { return Forbidden; }
      if !Owns(session, supplied) { return Conflict; }
      match press {
        case Down(at) => session := session.(pointerStart := Some(at));
        case Up => session := session.(pointerStart := None);
        case OtherInput =>
      }
      sessions := sessions[id := session];
      reply := OK;
    }

    method HandleStreamProfile(token: Key, supplied: Key) returns (reply: Reply)
      requires Valid()
      modifies this
      ensures Valid() && View() == ProfileSet(old(View()), token, supplied).0
      ensures reply == ProfileSet(old(View()), token, supplied).1
    {
      hide Inv, Distinct, Saved, Lookup, Refresh, OwnNames;
      ProfileKeepsInv(View(), token, supplied);
      LookupKeepsInv(View(), token);
      var found := SessionByTokenLocked(token);
      if found.None? { return GoneAway; }
      var session := sessions[found.value];
      if !session.viewerState.ViewerConnected? { return GoneAway; }
      if !Owns(session, supplied) { return Conflict; }
      IndexGivesNames(View());
      PersistSessionsLocked();
      reply := OK;
    }

    method HandlePeerControl(id: Key, press: Press)
      requires Valid()
      modifies this
      ensures Valid() && View() == PeerControls(old(View()), id, press)
    {
      hide Inv, Distinct, Saved, Lookup, Refresh, OwnNames;
      PeerControlsKeepsInv(View(), id, press);
      if id !in sessions { return; }
      var session := sessions[id];
      if Terminal(session) || !session.viewerState.ViewerConnected? || !session.control { return; }
      match press {
        case Down(at) => session := session.(pointerStart := Some(at));
        case Up => session := session.(pointerStart := None);
        case OtherInput =>
      }
      sessions := sessions[id := session];
    }

    method HandleStopSession(id: Key) returns (reply: Reply)
      requires Valid()
      modifies this
      ensures Valid() && View() == StopSession(old(View()), id).0
      ensures reply == StopSession(old(View()), id).1
    {
      ghost var w := View();
      hide Inv, Distinct, Saved, Lookup, Refresh, OwnNames;
      StopKeepsInv(w, id);
      if id !in sessions { return NotFound; }
      var session := sessions[id].(state := Stopped, viewerState := ViewerDisconnected, connectionMode := NotConnected);
      sessions := sessions[id := session];
      if activeID == id { activeID := NONE; }
      StoppedNames(w, id, session);
      PersistSessionsLocked();
      closing := closing + PeerOf(webrtcPeers, id);
      webrtcPeers := webrtcPeers - {id};
      reply := OK;
    }

    /** The call of `oldPeer.close()` after the unlock has returned. */
    ghost method PeerHasClosed(peer: Offer)
      requires Valid() && Enabled(View(), PeerClosed(peer))
      modifies this`open, this`closing
      ensures Valid() && View() == Step(old(View()), PeerClosed(peer))
    {
      hide Inv, Distinct, Saved;
      PeerClosedKeepsInv(View(), peer);
      open, closing := open - {peer}, closing - {peer};
    }

    /** `New` in a later process: only the file is left. */
    method Restart()
      requires Valid()
      modifies this
      ensures Valid() && View() == Restarted(old(View()))
    {
      hide Inv, Distinct, Saved;
      RestartKeepsInv(View());
      LoadIsRestart(file.items, clock);
      sessions, sessionToken, activeID := LoadSessionStore(file, clock);
      webrtcPeers := map[];
      inFlight, open, closing := {}, {}, {};
    }
  }

  lemma StoppedNames(w: World, id: Key, d: SessionData)
    requires Inv(w) && id in w.sessions && d.id == w.sessions[id].id && d.token == w.sessions[id].token
    ensures OwnNames(w.sessions[id := d])
  {
    hide LivenessOk, LeasesOk, PeersOk, StoreOk;
    IndexGivesNames(w);
  }

  lemma RefreshKeepsNames(w: World)
    requires Inv(w)
    ensures OwnNames(RefreshedAll(w.sessions, w.now))
  {
    hide LivenessOk, LeasesOk, PeersOk, StoreOk;
    IndexGivesNames(w);
  }

  lemma AddedNames(w: World, t: World, request: CreateRequest, draw: Draw)
    requires Inv(t) && t == Refresh(w) && Enabled(w, Create(request, draw))
    ensures OwnNames(Added(t, NewSession(request, draw, w.now)).sessions)
  {
    hide LivenessOk, LeasesOk, PeersOk, StoreOk;
    IndexGivesNames(t);
  }

  lemma LeasedNames(w: World, token: Key, viewerToken: Key)
    requires Inv(w) && Lookup(w, token).1.Some?
    ensures Lookup(w, token).1.value in Lookup(w, token).0.sessions
    ensures OwnNames(Leased(Lookup(w, token).0, Lookup(w, token).1.value, viewerToken).sessions)
  {
    hide LivenessOk, LeasesOk, PeersOk, StoreOk;
    IndexGivesNames(w);
  }
}
