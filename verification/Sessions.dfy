/**
 The share session protocol: one owner, one leased viewer, WebRTC peers answered in
 two critical sections, lazy expiry and a session file that survives restarts.

 `World` is everything the handlers share under the server lock, together with the
 offers whose handler is between its two critical sections. `Step` is one critical
 section (or one restart); the theorems are about all interleavings of them.
 */
module Sessions {
  import opened Options

  /** Ids, device ids, share tokens, viewer tokens and access codes: only compared, never looked into. */
  type Key = nat

  /** The empty string. */
  const NONE: Key := 0

  datatype State = Waiting | Connected | Stopped | Expired

  datatype ViewerState = ViewerWaiting | ViewerConnected | ViewerDisconnected

  datatype ConnectionMode = NotConnected | Demo | FallbackScreen | Negotiating | WebRTC | Reconnecting

  datatype Point = Point(x: real, y: real)

  datatype SessionData = SessionData(
    id: Key,
    token: Key,
    accessCode: Key,
    deviceID: Key,
    requireCode: bool,
    isDemo: bool,
    control: bool,
    state: State,
    viewerState: ViewerState,
    connectionMode: ConnectionMode,
    expiresAt: Option<nat>,
    viewerToken: Key,
    pointerStart: Option<Point>
  )

  /**
   An offer between its two critical sections, and afterwards the peer answered for it.
   The number stands for the pointer identity of the peer; `viewerToken` is the lease the
   offer was made under, which the handler keeps in a local variable.
   */
  datatype Offer = Offer(serial: nat, sessionID: Key, viewerToken: Key)

  /** The session file: live sessions by id, without leases and pointer starts. */
  datatype Store = Store(activeID: Key, saved: map<Key, SessionData>)

  datatype World = World(
    now: nat,
    sessions: map<Key, SessionData>,
    tokens: map<Key, Key>,
    peers: map<Key, Offer>,
    activeID: Key,
    store: Store,
    inFlight: set<Offer>,
    open: set<Offer>,      // answered peers whose connection is not closed yet
    closing: set<Offer>,   // those of them that a handler has taken out of `peers` and is about to close
    issued: nat,           // offers ever begun
    leases: set<Key>,   // viewer tokens ever minted
    usedIDs: set<Key>,
    usedTokens: set<Key>
  )

  const Empty: World := World(0, map[], map[], map[], NONE, Store(NONE, map[]), {}, {}, {}, 0, {}, {}, {})

  datatype Reply = OK | Created | BadRequest | Unauthorized | Forbidden | NotFound | Conflict | GoneAway | BadGateway | ServerError

  datatype Press = Down(at: Point) | Up | OtherInput

  /** The video profile asked for: a name, or one's own picture size and frame rate. */
  datatype Profile = Named | Custom(maxSize: int, maxFPS: int)

  datatype CreateRequest = CreateRequest(deviceID: Key, minutes: int, requireCode: bool, control: bool, profile: Profile)

  /** The device list's entry for a device: none, one not ready for use, or one ready. */
  datatype Listed = Missing | Unready | Ready

  /** What a freshly created session draws at random, if it can, and what the device list says of the device. */
  datatype Draw = Draw(id: Key, token: Key, accessCode: Key, randomOk: bool, device: Listed, isDemo: bool)

  datatype Event =
    | Tick(ms: nat)
    | Create(request: CreateRequest, draw: Draw)
    | Join(token: Key, code: Key, requested: Key, lease: Key)
    | BeginOffer(token: Key, supplied: Key)
    | FinishOffer(offer: Offer, answered: bool)
    | PeerCallback(offer: Offer, mode: ConnectionMode)
    | Control(token: Key, supplied: Key, press: Press)
    | PeerControl(offer: Offer, press: Press)
    | Stop(id: Key)
    | PeerClosed(offer: Offer)
    | Poll
    | Peek(token: Key)
    | SetProfile(token: Key, supplied: Key)
    | Restart

  // ---------------------------------------------------------------- the code, as functions

  predicate Terminal(d: SessionData) { d.state.Stopped? || d.state.Expired? }

  /** `Session.refresh` */
  function Refreshed(d: SessionData, now: nat): SessionData {
    if Terminal(d) then d
    else if d.expiresAt.Some? && d.expiresAt.value <= now then
      d.(state := Expired, viewerState := ViewerDisconnected, connectionMode := NotConnected)
    else d
  }

  /** What the JSON file keeps of a session: the lease and the pointer start are not exported. */
  function Stripped(d: SessionData): SessionData { d.(viewerToken := NONE, pointerStart := None) }

  function Persisted(sessions: map<Key, SessionData>): map<Key, SessionData> {
    map id | id in sessions && !Terminal(sessions[id]) :: Stripped(sessions[id])
  }

  function Persist(w: World): World { w.(store := Store(w.activeID, Persisted(w.sessions))) }

  function RefreshedAll(sessions: map<Key, SessionData>, now: nat): map<Key, SessionData> {
    map id | id in sessions :: Refreshed(sessions[id], now)
  }

  /** `refreshSessionsLocked` */
  function Refresh(w: World): World {
    var sessions := RefreshedAll(w.sessions, w.now);
    var stale := w.activeID != NONE && (w.activeID !in sessions || Terminal(sessions[w.activeID]));
    var t := w.(sessions := sessions, activeID := if stale then NONE else w.activeID);
    if sessions == w.sessions then t else Persist(t)
  }

  /** `sessionByTokenLocked`: expiry noticed here is not persisted. */
  function Lookup(w: World, token: Key): (World, Option<Key>) {
    if token !in w.tokens || w.tokens[token] == NONE || w.tokens[token] !in w.sessions then (w, None)
    else
      var id := w.tokens[token];
      var d := Refreshed(w.sessions[id], w.now);
      (w.(sessions := w.sessions[id := d]), if Terminal(d) then None else Some(id))
  }

  predicate Owns(d: SessionData, supplied: Key) { d.viewerToken != NONE && supplied == d.viewerToken }

  function NewSession(request: CreateRequest, draw: Draw, now: nat): SessionData {
    SessionData(draw.id, draw.token, if request.requireCode then draw.accessCode else NONE, request.deviceID,
                request.requireCode, draw.isDemo, request.control, Waiting, ViewerWaiting, NotConnected,
                if request.minutes > 0 then Some(now + request.minutes * 60000) else None, NONE, None)
  }

  /** `customVideoProfileSettings` */
  predicate Supported(profile: Profile) {
    profile.Custom? ==>
      && (profile.maxSize in {360, 480, 540, 720, 960, 1080})
      && (profile.maxFPS in {10, 15, 18, 24, 30})
  }

  function CreateSession(w: World, request: CreateRequest, draw: Draw): (World, Reply) {
    if request.minutes < 0 || request.minutes > 24 * 60 then (w, BadRequest)
    else
      var t := Refresh(w);
      if t.activeID != NONE && t.activeID in t.sessions && !Terminal(t.sessions[t.activeID]) then
        (t, if t.sessions[t.activeID].deviceID == request.deviceID then OK else Conflict)
      else if draw.device.Missing? then (t, NotFound)
      else if draw.device.Unready? then (t, Conflict)
      else if !draw.randomOk || !Supported(request.profile) then (t, ServerError)
      else
        (Persist(Added(t, NewSession(request, draw, w.now))), Created)
  }

  function Added(w: World, d: SessionData): World {
    w.(sessions := w.sessions[d.id := d], tokens := w.tokens[d.token := d.id], activeID := d.id,
       usedIDs := w.usedIDs + {d.id}, usedTokens := w.usedTokens + {d.token})
  }

  function Joined(d: SessionData, viewerToken: Key): SessionData {
    d.(viewerToken := viewerToken, viewerState := ViewerConnected, state := Connected,
       connectionMode := if d.isDemo then Demo else FallbackScreen)
  }

  function JoinSession(w: World, token: Key, code: Key, requested: Key, lease: Key): (World, Reply) {
    var (t, found) := Lookup(w, token);
    if found.None? then (t, GoneAway)
    else
      var d := t.sessions[found.value];
      if d.requireCode && code != d.accessCode then (t, Unauthorized)
      else
        var reusing := requested != NONE && requested == d.viewerToken;
        if !reusing && lease == NONE then (t, ServerError)
        else
          (Persist(Leased(t, found.value, if reusing then requested else lease)), OK)
  }

  /** The peer a handler takes out of the registry under the lock, to close it after the unlock. */
  function PeerOf(peers: map<Key, Offer>, id: Key): set<Offer> {
    if id in peers then {peers[id]} else {}
  }

  /** Session `id` is handed to the holder of `viewerToken`; its peer is dropped. */
  function Leased(w: World, id: Key, viewerToken: Key): World
    requires id in w.sessions
  {
    w.(sessions := w.sessions[id := Joined(w.sessions[id], viewerToken)], peers := w.peers - {id},
       closing := w.closing + PeerOf(w.peers, id), leases := w.leases + {viewerToken})
  }

  /** The first critical section of `handleWebRTCOffer`; the new mode is not persisted. */
  function OfferBegun(w: World, token: Key, supplied: Key): (World, Reply) {
    var (t, found) := Lookup(w, token);
    if found.None? || !t.sessions[found.value].viewerState.ViewerConnected? then (t, GoneAway)
    else
      var id, d := found.value, t.sessions[found.value];
      if !Owns(d, supplied) then (t, Conflict)
      else
        (t.(peers := t.peers - {id}, closing := t.closing + PeerOf(t.peers, id), sessions := t.sessions[id := d.(connectionMode := Negotiating)],
            inFlight := t.inFlight + {Offer(t.issued, id, d.viewerToken)}, issued := t.issued + 1), OK)
  }

  /** `offerConflictStatus` */
  function OfferConflict(sessions: map<Key, SessionData>, offer: Offer): Reply {
    if offer.sessionID !in sessions then GoneAway
    else
      var d := sessions[offer.sessionID];
      if Terminal(d) || !d.viewerState.ViewerConnected? then GoneAway
      else if d.viewerToken != offer.viewerToken then Conflict
      else OK
  }

  /** `setWebRTCState`, and `setSessionState` once its guard has passed. */
  function SetMode(w: World, id: Key, mode: ConnectionMode): World {
    if id in w.sessions && !Terminal(w.sessions[id]) && w.sessions[id].connectionMode != mode then
      Persist(w.(sessions := w.sessions[id := w.sessions[id].(connectionMode := mode)]))
    else w
  }

  /** The rest of `handleWebRTCOffer`, after the offer has been answered or has failed. */
  function OfferFinished(w: World, offer: Offer, answered: bool): (World, Reply) {
    var t := w.(inFlight := w.inFlight - {offer});
    if !answered then (SetMode(t, offer.sessionID, FallbackScreen), BadGateway)
    else
      var status := OfferConflict(t.sessions, offer);
      if status != OK then (t, status) else (t.(peers := t.peers[offer.sessionID := offer], open := t.open + {offer}), OK)
  }

  predicate Registered(w: World, peer: Offer) {
    peer.sessionID in w.peers && w.peers[peer.sessionID] == peer
  }

  /** `webRTCPeer.setSessionState` */
  function PeerReports(w: World, peer: Offer, mode: ConnectionMode): World {
    if Registered(w, peer) then SetMode(w, peer.sessionID, mode) else w
  }

  function Pressed(d: SessionData, press: Press): SessionData {
    match press
    case Down(at) => d.(pointerStart := Some(at))
    case Up => d.(pointerStart := None)
    case OtherInput => d
  }

  function ControlEvent(w: World, token: Key, supplied: Key, press: Press): (World, Reply) {
    var (t, found) := Lookup(w, token);
    if found.None? then (t, GoneAway)
    else
      var id, d := found.value, t.sessions[found.value];
      if !d.viewerState.ViewerConnected? || !d.control then (t, Forbidden)
      else if !Owns(d, supplied) then (t, Conflict)
      else (t.(sessions := t.sessions[id := Pressed(d, press)]), OK)
  }

  /** `handleStreamProfile` as far as it concerns the shared state: an owner's choice writes the file. */
  function ProfileSet(w: World, token: Key, supplied: Key): (World, Reply) {
    var (t, found) := Lookup(w, token);
    if found.None? || !t.sessions[found.value].viewerState.ViewerConnected? then (t, GoneAway)
    else if !Owns(t.sessions[found.value], supplied) then (t, Conflict)
    else (Persist(t), OK)
  }

  /** A session takes input: live, connected, and not only to be looked at. */
  predicate TakesInput(w: World, id: Key) {
    id in w.sessions && !Terminal(w.sessions[id]) && w.sessions[id].viewerState.ViewerConnected? && w.sessions[id].control
  }

  /** `handlePeerControl`: input from a peer's data channel. It asks about the session, not about the peer or its lease. */
  function PeerControls(w: World, id: Key, press: Press): World {
    if !TakesInput(w, id) then w
    else w.(sessions := w.sessions[id := Pressed(w.sessions[id], press)])
  }

  function StopSession(w: World, id: Key): (World, Reply) {
    if id !in w.sessions then (w, NotFound)
    else
      var d := w.sessions[id].(state := Stopped, viewerState := ViewerDisconnected, connectionMode := NotConnected);
      var t := w.(sessions := w.sessions[id := d], activeID := if w.activeID == id then NONE else w.activeID);
      (Persist(t).(peers := w.peers - {id}, closing := w.closing + PeerOf(w.peers, id)), OK)
  }

  predicate Loads(d: SessionData, now: nat) {
    d.id != NONE && d.token != NONE && !Terminal(Refreshed(d, now))
  }

  function LoadedSessions(saved: map<Key, SessionData>, now: nat): map<Key, SessionData> {
    map id | id in saved && Loads(saved[id], now) :: Refreshed(saved[id], now)
  }

  predicate HasToken(sessions: map<Key, SessionData>, id: Key, token: Key) {
    id in sessions && sessions[id].token == token
  }

  ghost function IDOf(sessions: map<Key, SessionData>, token: Key): Key {
    if exists id: Key :: HasToken(sessions, id, token) then var id: Key :| HasToken(sessions, id, token); id else NONE
  }

  ghost function TokensOf(sessions: map<Key, SessionData>): map<Key, Key> {
    var tokens := set id | id in sessions :: sessions[id].token;
    map token | token in tokens :: IDOf(sessions, token)
  }

  /** A new process: everything in memory is gone and the session file is read back. */
  ghost function Restarted(w: World): World {
    var sessions := LoadedSessions(w.store.saved, w.now);
    w.(sessions := sessions, tokens := TokensOf(sessions), peers := map[], inFlight := {}, open := {}, closing := {},
       activeID := if w.store.activeID in sessions then w.store.activeID else NONE)
  }

  /**
   What the environment may do: random draws are new and not empty (a join draws the empty
   lease when the draw fails), a handler finishes
   only an offer it began, only peers made for some offer report, input comes from peers that
   are open, and a close call ends for a peer that was taken out to be closed.
   */
  predicate Enabled(w: World, e: Event) {
    match e
    case Create(_, draw) =>
      draw.id != NONE && draw.id !in w.usedIDs && draw.token != NONE && draw.token !in w.usedTokens
    case Join(_, _, _, lease) => lease !in w.leases
    case FinishOffer(offer, _) => offer in w.inFlight
    case PeerCallback(offer, mode) => offer.serial < w.issued && (mode.WebRTC? || mode.Reconnecting? || mode.FallbackScreen?)
    case PeerControl(offer, _) => offer in w.open
    case PeerClosed(offer) => offer in w.closing
    case _ => true
  }

  ghost function Outcome(w: World, e: Event): (World, Reply) {
    match e
    case Tick(ms) => (w.(now := w.now + ms), OK)
    case Create(request, draw) => CreateSession(w, request, draw)
    case Join(token, code, requested, lease) => JoinSession(w, token, code, requested, lease)
    case BeginOffer(token, supplied) => OfferBegun(w, token, supplied)
    case FinishOffer(offer, answered) => OfferFinished(w, offer, answered)
    case PeerCallback(offer, mode) => (PeerReports(w, offer, mode), OK)
    case Control(token, supplied, press) => ControlEvent(w, token, supplied, press)
    case PeerControl(offer, press) => (PeerControls(w, offer.sessionID, press), OK)
    case Stop(id) => StopSession(w, id)
    case PeerClosed(offer) => (w.(open := w.open - {offer}, closing := w.closing - {offer}), OK)
    case Poll => (Refresh(w), OK)
    case Peek(token) => (Lookup(w, token).0, OK)
    case SetProfile(token, supplied) => ProfileSet(w, token, supplied)
    case Restart => (Restarted(w), OK)
  }

  ghost function Step(w: World, e: Event): World { Outcome(w, e).0 }

  // ---------------------------------------------------------------- runs

  ghost predicate IsRun(w: World, es: seq<Event>)
    decreases |es|
  {
    es == [] || (Enabled(w, es[0]) && IsRun(Step(w, es[0]), es[1..]))
  }

  ghost function Exec(w: World, es: seq<Event>): World
    requires IsRun(w, es)
    decreases |es|
  {
    if es == [] then w else Exec(Step(w, es[0]), es[1..])
  }

  // ---------------------------------------------------------------- the invariant

  predicate ShapeOk(d: SessionData) {
    match d.state
    case Waiting => d.viewerState.ViewerWaiting?
    case Connected => d.viewerState.ViewerConnected?
    case Stopped | Expired => d.viewerState.ViewerDisconnected? && d.connectionMode.NotConnected?
  }

  /** Ids and share tokens name each other, and sessions keep the id they are filed under. */
  ghost predicate IndexOk(w: World) {
    && (forall id :: id in w.sessions ==>
          && w.sessions[id].id == id && id != NONE && id in w.usedIDs
          && w.sessions[id].token != NONE && w.sessions[id].token in w.usedTokens
          && w.sessions[id].token in w.tokens && w.tokens[w.sessions[id].token] == id)
    && (forall t :: t in w.tokens ==>
          t in w.usedTokens && w.tokens[t] in w.sessions && w.sessions[w.tokens[t]].token == t)
  }

  /** At most one session is live, it is the active one, and every session has a legal shape. */
  ghost predicate LivenessOk(w: World) {
    && (w.activeID != NONE ==> w.activeID in w.sessions)
    && (forall id :: id in w.sessions ==> ShapeOk(w.sessions[id]))
    && (forall id :: id in w.sessions && !Terminal(w.sessions[id]) ==> id == w.activeID)
  }

  /** Leases are minted once and held by one session. */
  ghost predicate LeasesOk(w: World) {
    && (forall id :: id in w.sessions && w.sessions[id].viewerToken != NONE ==> w.sessions[id].viewerToken in w.leases)
    && (forall i, j :: i in w.sessions && j in w.sessions && w.sessions[i].viewerToken == w.sessions[j].viewerToken != NONE ==> i == j)
  }

  ghost predicate OfferOk(w: World, o: Offer) {
    o.serial < w.issued && o.viewerToken != NONE && o.viewerToken in w.leases && o.sessionID in w.sessions
  }

  /** A registered peer was answered for an offer made under the session's current lease. */
  ghost predicate PeersOk(w: World) {
    && (forall o :: o in w.inFlight ==> OfferOk(w, o))
    && (forall o, p :: o in w.inFlight && p in w.inFlight && o.serial == p.serial ==> o == p)
    && (forall id :: id in w.peers ==>
          && OfferOk(w, w.peers[id])
          && w.peers[id].sessionID == id
          && w.peers[id].viewerToken == w.sessions[id].viewerToken
          && !w.sessions[id].state.Stopped? && !w.sessions[id].state.Waiting?)
    && (forall id, o :: id in w.peers && o in w.inFlight ==> o.serial != w.peers[id].serial)
  }

  /** The file agrees with memory about every session that is still live. */
  ghost predicate StoreOk(w: World) {
    && (forall id :: id in w.store.saved ==>
          var d := w.store.saved[id];
          && d.id == id && id != NONE && id in w.usedIDs && d.token != NONE && d.token in w.usedTokens
          && d == Stripped(d) && ShapeOk(d) && !Terminal(d) && id == w.store.activeID
          && (id in w.sessions ==>
                && w.sessions[id].expiresAt == d.expiresAt
                && w.sessions[id].token == d.token
                && !w.sessions[id].state.Stopped?
                && (w.sessions[id].state.Expired? ==> d.expiresAt.Some? && d.expiresAt.value <= w.now)
                && (!Terminal(w.sessions[id]) ==> SameButMode(d, Stripped(w.sessions[id]))))
          && (id !in w.sessions ==> Terminal(Refreshed(d, w.now))))
    && (forall id :: id in w.sessions && !Terminal(w.sessions[id]) ==> id in w.store.saved)
  }

  /** `handleWebRTCOffer` changes the mode without writing the file, so the mode may lag. */
  predicate SameButMode(d: SessionData, e: SessionData) { d == e.(connectionMode := d.connectionMode) }

  ghost predicate Inv(w: World) {
    MemoryOk(w) && StoreOk(w)
  }

  ghost predicate MemoryOk(w: World) {
    IndexOk(w) && LivenessOk(w) && LeasesOk(w) && PeersOk(w)
  }

  lemma PersistKeepsInv(w: World)
    requires MemoryOk(w)
    ensures Inv(Persist(w))
  {
    PersistKeepsMemory(w);
    PersistedIsTrue(w);
  }

  lemma PersistKeepsMemory(w: World)
    requires MemoryOk(w)
    ensures MemoryOk(Persist(w))
  {
    hide StoreOk;
  }

  lemma PersistedIsTrue(w: World)
    requires IndexOk(w) && LivenessOk(w)
    ensures StoreOk(Persist(w))
  {}

  predicate SameShare(d: SessionData, e: SessionData) {
    d.id == e.id && d.token == e.token && d.expiresAt == e.expiresAt && d.viewerToken == e.viewerToken
  }

  /** What every step but creating, joining and restarting does to the shares: none appears, goes or revives. */
  ghost predicate SharesEvolve(w: World, t: World) {
    && t.sessions.Keys == w.sessions.Keys
    && t.tokens == w.tokens && t.leases == w.leases && t.usedIDs == w.usedIDs && t.usedTokens == w.usedTokens
    && (forall id :: id in w.sessions ==>
          && SameShare(t.sessions[id], w.sessions[id])
          && ShapeOk(t.sessions[id])
          && (Terminal(w.sessions[id]) ==> Terminal(t.sessions[id])))
    && (t.activeID == w.activeID
        || (t.activeID == NONE && (w.activeID in w.sessions ==> Terminal(t.sessions[w.activeID]))))
  }

  ghost predicate PeersEvolve(w: World, t: World) {
    && t.inFlight == w.inFlight && t.issued == w.issued
    && (forall id :: id in t.peers ==>
          && id in w.peers && t.peers[id] == w.peers[id]
          && (id in w.sessions && id in t.sessions ==>
                t.sessions[id].state == w.sessions[id].state || t.sessions[id].state.Expired?))
  }

  /** A step that does not write the file: sessions only expire, and live ones keep what the file holds of them. */
  ghost predicate FileStillTrue(w: World, t: World) {
    && t.store == w.store && t.now == w.now
    && (forall id :: id in w.sessions && id in t.sessions ==>
          && (t.sessions[id].state == w.sessions[id].state
              || (t.sessions[id].state.Expired? && w.sessions[id].expiresAt.Some? && w.sessions[id].expiresAt.value <= w.now))
          && (!Terminal(t.sessions[id]) ==> SameButMode(Stripped(t.sessions[id]), Stripped(w.sessions[id]))))
  }

  lemma EvolveKeepsIndex(w: World, t: World)
    requires IndexOk(w) && SharesEvolve(w, t)
    ensures IndexOk(t)
  {}

  lemma EvolveKeepsLiveness(w: World, t: World)
    requires LivenessOk(w) && SharesEvolve(w, t)
    ensures LivenessOk(t)
  {}

  lemma EvolveKeepsLeases(w: World, t: World)
    requires LeasesOk(w) && SharesEvolve(w, t)
    ensures LeasesOk(t)
  {}

  lemma EvolveKeepsPeers(w: World, t: World)
    requires PeersOk(w) && SharesEvolve(w, t) && PeersEvolve(w, t)
    ensures PeersOk(t)
  {}

  lemma EvolveKeepsMemory(w: World, t: World)
    requires MemoryOk(w) && SharesEvolve(w, t) && PeersEvolve(w, t)
    ensures MemoryOk(t)
  {
    hide IndexOk, LivenessOk, LeasesOk, PeersOk, SharesEvolve, PeersEvolve;
    EvolveKeepsIndex(w, t);
    EvolveKeepsLiveness(w, t);
    EvolveKeepsLeases(w, t);
    EvolveKeepsPeers(w, t);
  }

  lemma EvolveKeepsInv(w: World, t: World)
    requires Inv(w) && SharesEvolve(w, t) && PeersEvolve(w, t) && FileStillTrue(w, t)
    ensures Inv(t)
  {
    hide IndexOk, LivenessOk, LeasesOk, PeersOk, PeersEvolve;
    EvolveKeepsMemory(w, t);
  }

  lemma EvolveAndPersist(w: World, t: World)
    requires MemoryOk(w) && SharesEvolve(w, t) && PeersEvolve(w, t)
    ensures Inv(Persist(t))
  {
    hide Inv, MemoryOk, SharesEvolve, PeersEvolve;
    EvolveKeepsMemory(w, t);
    PersistKeepsInv(t);
  }

  lemma LookupKeepsInv(w: World, token: Key)
    requires Inv(w)
    ensures var (t, found) := Lookup(w, token);
            && Inv(t)
            && t == w.(sessions := t.sessions)
            && (found.Some? ==> found.value in t.sessions && !Terminal(t.sessions[found.value]))
  {
    hide IndexOk, LeasesOk, PeersOk, StoreOk;
    if token in w.tokens && w.tokens[token] != NONE && w.tokens[token] in w.sessions {
      var id := w.tokens[token];
      EvolveKeepsInv(w, w.(sessions := w.sessions[id := Refreshed(w.sessions[id], w.now)]));
    }
  }

  lemma RefreshKeepsInv(w: World)
    requires Inv(w)
    ensures Inv(Refresh(w))
    ensures Refresh(w).activeID == NONE
            || (Refresh(w).activeID in Refresh(w).sessions && !Terminal(Refresh(w).sessions[Refresh(w).activeID]))
    ensures Refresh(w).now == w.now && Refresh(w).usedIDs == w.usedIDs && Refresh(w).usedTokens == w.usedTokens
  {
    hide IndexOk, LeasesOk, PeersOk, StoreOk;
    var sessions := RefreshedAll(w.sessions, w.now);
    var stale := w.activeID != NONE && (w.activeID !in sessions || Terminal(sessions[w.activeID]));
    var t := w.(sessions := sessions, activeID := if stale then NONE else w.activeID);
    if sessions == w.sessions { EvolveKeepsInv(w, t); } else { EvolveAndPersist(w, t); }
  }

  lemma SetModeKeepsInv(w: World, id: Key, mode: ConnectionMode)
    requires Inv(w)
    ensures Inv(SetMode(w, id, mode))
  {
    hide IndexOk, LeasesOk, PeersOk, StoreOk;
    if id in w.sessions && !Terminal(w.sessions[id]) {
      EvolveAndPersist(w, w.(sessions := w.sessions[id := w.sessions[id].(connectionMode := mode)]));
    }
  }

  ghost predicate Addable(t: World, d: SessionData) {
    && t.activeID == NONE
    && d.id != NONE && d.id !in t.usedIDs && d.token != NONE && d.token !in t.usedTokens
    && d.state.Waiting? && d.viewerState.ViewerWaiting? && d.viewerToken == NONE
  }

  lemma AddedKeepsIndex(t: World, d: SessionData)
    requires IndexOk(t) && Addable(t, d)
    ensures IndexOk(Added(t, d))
  {
    assert d.id !in t.sessions && d.token !in t.tokens;
  }

  lemma AddedKeepsLeases(t: World, d: SessionData)
    requires LeasesOk(t) && Addable(t, d)
    ensures LeasesOk(Added(t, d))
  {
    var u := Added(t, d);
    forall i, j | i in u.sessions && j in u.sessions && u.sessions[i].viewerToken == u.sessions[j].viewerToken != NONE
      ensures i == j
    {
      assert i != d.id && j != d.id;
    }
  }

  lemma AddedKeepsPeers(t: World, d: SessionData)
    requires IndexOk(t) && PeersOk(t) && Addable(t, d)
    ensures PeersOk(Added(t, d))
  {
    assert d.id !in t.sessions;
    assert d.id !in t.peers;
  }

  lemma AddedKeepsLiveness(t: World, d: SessionData)
    requires IndexOk(t) && LivenessOk(t) && Addable(t, d)
    ensures LivenessOk(Added(t, d))
  {}

  lemma CreateKeepsInv(w: World, request: CreateRequest, draw: Draw)
    requires Inv(w) && Enabled(w, Create(request, draw))
    ensures Inv(CreateSession(w, request, draw).0)
  {
    hide IndexOk, LivenessOk, LeasesOk, PeersOk, StoreOk, Refresh;
    RefreshKeepsInv(w);
    var t := Refresh(w);
    var d := NewSession(request, draw, w.now);
    if t.activeID == NONE {
      AddedKeepsIndex(t, d);
      AddedKeepsLiveness(t, d);
      AddedKeepsLeases(t, d);
      AddedKeepsPeers(t, d);
      PersistKeepsInv(Added(t, d));
    }
  }

  ghost predicate Leasable(t: World, id: Key, viewerToken: Key) {
    && id in t.sessions && !Terminal(t.sessions[id])
    && viewerToken != NONE && (viewerToken == t.sessions[id].viewerToken || viewerToken !in t.leases)
  }

  lemma LeasedKeepsIndexAndLiveness(t: World, id: Key, viewerToken: Key)
    requires IndexOk(t) && LivenessOk(t) && Leasable(t, id, viewerToken)
    ensures IndexOk(Leased(t, id, viewerToken)) && LivenessOk(Leased(t, id, viewerToken))
  {}

  lemma LeasedKeepsLeases(t: World, id: Key, viewerToken: Key)
    requires LeasesOk(t) && Leasable(t, id, viewerToken)
    ensures LeasesOk(Leased(t, id, viewerToken))
  {}

  lemma LeasedKeepsPeers(t: World, id: Key, viewerToken: Key)
    requires PeersOk(t) && Leasable(t, id, viewerToken)
    ensures PeersOk(Leased(t, id, viewerToken))
  {}

  lemma JoinKeepsInv(w: World, token: Key, code: Key, requested: Key, lease: Key)
    requires Inv(w) && Enabled(w, Join(token, code, requested, lease))
    ensures Inv(JoinSession(w, token, code, requested, lease).0)
  {
    hide IndexOk, LivenessOk, LeasesOk, PeersOk, StoreOk, Lookup;
    LookupKeepsInv(w, token);
    var (t, found) := Lookup(w, token);
    if found.Some? {
      var id, d := found.value, t.sessions[found.value];
      var viewerToken := if requested != NONE && requested == d.viewerToken then requested else lease;
      if viewerToken != NONE {
        LeasedKeepsIndexAndLiveness(t, id, viewerToken);
        LeasedKeepsLeases(t, id, viewerToken);
        LeasedKeepsPeers(t, id, viewerToken);
        PersistKeepsInv(Leased(t, id, viewerToken));
      }
    }
  }

  lemma BeginKeepsPeers(u: World, offer: Offer)
    requires PeersOk(u) && LeasesOk(u) && offer.serial == u.issued && offer.viewerToken != NONE
    requires offer.sessionID in u.sessions && u.sessions[offer.sessionID].viewerToken == offer.viewerToken
    ensures PeersOk(u.(inFlight := u.inFlight + {offer}, issued := u.issued + 1))
  {}

  lemma BeginKeepsInv(u: World, offer: Offer)
    requires Inv(u) && offer.serial == u.issued && offer.viewerToken != NONE
    requires offer.sessionID in u.sessions && u.sessions[offer.sessionID].viewerToken == offer.viewerToken
    ensures Inv(u.(inFlight := u.inFlight + {offer}, issued := u.issued + 1))
  {
    hide PeersOk;
    BeginKeepsPeers(u, offer);
  }

  lemma BeginOfferKeepsInv(w: World, token: Key, supplied: Key)
    requires Inv(w)
    ensures Inv(OfferBegun(w, token, supplied).0)
  {
    hide IndexOk, LeasesOk, PeersOk, StoreOk, Lookup;
    LookupKeepsInv(w, token);
    var (t, found) := Lookup(w, token);
    if found.Some? {
      var id, d := found.value, t.sessions[found.value];
      if d.viewerState.ViewerConnected? && Owns(d, supplied) {
        var u := t.(peers := t.peers - {id}, closing := t.closing + PeerOf(t.peers, id), sessions := t.sessions[id := d.(connectionMode := Negotiating)]);
        EvolveKeepsInv(t, u);
        BeginKeepsInv(u, Offer(t.issued, id, d.viewerToken));
      }
    }
  }

  /** The parts of the invariant that do not look at offers. */
  lemma OffersAside(w: World, t: World)
    requires Inv(w) && t == w.(inFlight := t.inFlight, peers := t.peers, open := t.open)
    ensures IndexOk(t) && LivenessOk(t) && LeasesOk(t) && StoreOk(t)
  {
    hide PeersOk;
  }

  lemma FinishOfferKeepsInv(w: World, offer: Offer, answered: bool)
    requires Inv(w) && offer in w.inFlight
    ensures Inv(OfferFinished(w, offer, answered).0)
  {
    hide IndexOk, LeasesOk, StoreOk;
    var t := w.(inFlight := w.inFlight - {offer});
    OffersAside(w, t);
    if !answered {
      SetModeKeepsInv(t, offer.sessionID, FallbackScreen);
    } else {
      OffersAside(w, t.(peers := t.peers[offer.sessionID := offer], open := t.open + {offer}));
    }
  }

  lemma ProfileKeepsInv(w: World, token: Key, supplied: Key)
    requires Inv(w)
    ensures Inv(ProfileSet(w, token, supplied).0)
  {
    hide IndexOk, LivenessOk, LeasesOk, PeersOk, StoreOk, Lookup;
    LookupKeepsInv(w, token);
    PersistKeepsInv(Lookup(w, token).0);
  }

  lemma PeerControlsKeepsInv(w: World, id: Key, press: Press)
    requires Inv(w)
    ensures Inv(PeerControls(w, id, press))
  {
    hide IndexOk, LeasesOk, PeersOk, StoreOk;
    EvolveKeepsInv(w, PeerControls(w, id, press));
  }

  lemma ControlKeepsInv(w: World, token: Key, supplied: Key, press: Press)
    requires Inv(w)
    ensures Inv(ControlEvent(w, token, supplied, press).0)
  {
    hide IndexOk, LeasesOk, PeersOk, StoreOk, Lookup;
    LookupKeepsInv(w, token);
    var (t, found) := Lookup(w, token);
    if found.Some? {
      EvolveKeepsInv(t, t.(sessions := t.sessions[found.value := Pressed(t.sessions[found.value], press)]));
    }
  }

  lemma StopKeepsInv(w: World, id: Key)
    requires Inv(w)
    ensures Inv(StopSession(w, id).0)
  {
    hide IndexOk, LeasesOk, PeersOk, StoreOk;
    if id in w.sessions {
      var d := w.sessions[id].(state := Stopped, viewerState := ViewerDisconnected, connectionMode := NotConnected);
      var t := w.(sessions := w.sessions[id := d], activeID := if w.activeID == id then NONE else w.activeID,
                  peers := w.peers - {id}, closing := w.closing + PeerOf(w.peers, id));
      EvolveAndPersist(w, t);
    }
  }

  lemma LoadedIDs(w: World, id: Key)
    requires StoreOk(w) && id in LoadedSessions(w.store.saved, w.now)
    ensures id == w.store.activeID && LoadedSessions(w.store.saved, w.now)[id] == w.store.saved[id]
    ensures TokensOf(LoadedSessions(w.store.saved, w.now)) == map[w.store.saved[id].token := id]
  {
    var sessions := LoadedSessions(w.store.saved, w.now);
    assert sessions.Keys == {id};
    assert HasToken(sessions, id, sessions[id].token);
  }

  lemma RestartKeepsInv(w: World)
    requires Inv(w)
    ensures Inv(Restarted(w))
  {
    var sessions := LoadedSessions(w.store.saved, w.now);
    if id :| id in sessions { LoadedIDs(w, id); }
  }

  lemma StepKeepsInv(w: World, e: Event)
    requires Inv(w) && Enabled(w, e)
    ensures Inv(Step(w, e))
  {
    hide Inv;
    match e
    case Tick(ms) => TickKeepsInv(w, ms);
    case Create(request, draw) => CreateKeepsInv(w, request, draw);
    case Join(token, code, requested, lease) => JoinKeepsInv(w, token, code, requested, lease);
    case BeginOffer(token, supplied) => BeginOfferKeepsInv(w, token, supplied);
    case FinishOffer(offer, answered) => FinishOfferKeepsInv(w, offer, answered);
    case PeerCallback(offer, mode) => SetModeKeepsInv(w, offer.sessionID, mode);
    case Control(token, supplied, press) => ControlKeepsInv(w, token, supplied, press);
    case PeerControl(offer, press) => PeerControlsKeepsInv(w, offer.sessionID, press);
    case Stop(id) => StopKeepsInv(w, id);
    case PeerClosed(offer) => PeerClosedKeepsInv(w, offer);
    case Poll => RefreshKeepsInv(w);
    case Peek(token) => LookupKeepsInv(w, token);
    case SetProfile(token, supplied) => ProfileKeepsInv(w, token, supplied);
    case Restart => RestartKeepsInv(w);
  }

  lemma TickKeepsInv(w: World, ms: nat)
    requires Inv(w)
    ensures Inv(w.(now := w.now + ms))
  {
    hide IndexOk, LeasesOk, PeersOk;
    EvolveKeepsMemory(w, w.(now := w.now + ms));
  }

  lemma PeerClosedKeepsInv(w: World, offer: Offer)
    requires Inv(w)
    ensures Inv(w.(open := w.open - {offer}, closing := w.closing - {offer}))
  {
    hide IndexOk, LeasesOk, PeersOk;
    EvolveKeepsMemory(w, w.(open := w.open - {offer}, closing := w.closing - {offer}));
  }

  lemma {:induction false} RunKeepsInv(w: World, es: seq<Event>)
    requires Inv(w) && IsRun(w, es)
    ensures Inv(Exec(w, es)) && w.issued <= Exec(w, es).issued
    decreases |es|
  {
    if es != [] {
      StepKeepsInv(w, es[0]);
      RegistryStep(w, es[0], Offer(0, NONE, NONE));
      RunKeepsInv(Step(w, es[0]), es[1..]);
    }
  }

  // ---------------------------------------------------------------- leases and takeovers

  lemma EmptyInv()
    ensures Inv(Empty)
  {}

  /** In every reachable state, a registered peer was answered for an offer under the session's current lease. */
  lemma RegisteredPeerHoldsCurrentLease(es: seq<Event>, id: Key)
    requires IsRun(Empty, es) && id in Exec(Empty, es).peers
    ensures var w := Exec(Empty, es);
            && id in w.sessions
            && w.peers[id].sessionID == id
            && w.peers[id].viewerToken == w.sessions[id].viewerToken != NONE
            && w.peers[id].viewerToken in w.leases
  {
    hide IndexOk, LivenessOk, LeasesOk, StoreOk;
    EmptyInv();
    RunKeepsInv(Empty, es);
  }

  /** A lease that was minted and that no session honours any more. */
  ghost predicate DeadLease(w: World, lease: Key) {
    lease != NONE && lease in w.leases && forall id :: id in w.sessions ==> w.sessions[id].viewerToken != lease
  }

  lemma LookupKeepsShares(w: World, token: Key)
    ensures var (t, found) := Lookup(w, token);
            && t == w.(sessions := t.sessions)
            && t.sessions.Keys == w.sessions.Keys
            && (forall id :: id in w.sessions ==> SameShare(t.sessions[id], w.sessions[id]))
            && (found.Some? ==> found.value in t.sessions)
  {}

  lemma RefreshKeepsShares(w: World)
    ensures var t := Refresh(w);
            && t.sessions.Keys == w.sessions.Keys && t.leases == w.leases && t.peers == w.peers
            && t.inFlight == w.inFlight && t.issued == w.issued
            && (forall id :: id in w.sessions ==> SameShare(t.sessions[id], w.sessions[id]))
  {}

  lemma LookupKeepsDead(w: World, token: Key, lease: Key)
    requires DeadLease(w, lease)
    ensures var (t, found) := Lookup(w, token);
            && DeadLease(t, lease) && t == w.(sessions := t.sessions)
            && (found.Some? ==> found.value in t.sessions && t.sessions[found.value].viewerToken != lease)
  {}

  lemma DeadLeaseStep(w: World, e: Event, lease: Key)
    requires Inv(w) && Enabled(w, e) && DeadLease(w, lease)
    ensures DeadLease(Step(w, e), lease)
  {
    hide IndexOk, LivenessOk, LeasesOk, PeersOk, StoreOk;
    match e
    case Create(_, _) | Poll | Restart => DeadLeaseUnlinked(w, e, lease);
    case Join(_, _, _, _) | BeginOffer(_, _) | Control(_, _, _) | Peek(_) | SetProfile(_, _) =>
      DeadLeaseLinked(w, e, lease);
    case _ =>
      hide Inv, Lookup, Refresh, JoinSession, OfferBegun, ControlEvent, ProfileSet, CreateSession, Restarted;
  }

  lemma DeadLeaseUnlinked(w: World, e: Event, lease: Key)
    requires Inv(w) && Enabled(w, e) && DeadLease(w, lease) && (e.Create? || e.Poll? || e.Restart?)
    ensures DeadLease(Step(w, e), lease)
  {
    hide IndexOk, LivenessOk, LeasesOk, PeersOk, Lookup, Refresh;
    match e
    case Create(_, _) => RefreshKeepsShares(w);
    case Poll => RefreshKeepsShares(w);
    case Restart =>
      var t := Restarted(w);
      forall id | id in t.sessions ensures t.sessions[id].viewerToken != lease { LoadedIDs(w, id); }
  }

  /** The steps that go through a share link. */
  lemma DeadLeaseLinked(w: World, e: Event, lease: Key)
    requires Enabled(w, e) && DeadLease(w, lease)
    requires e.Join? || e.BeginOffer? || e.Control? || e.Peek? || e.SetProfile?
    ensures DeadLease(Step(w, e), lease)
  {
    hide Lookup;
    match e
    case Join(token, _, requested, _) =>
      LookupKeepsDead(w, token, lease);
      var (t, found) := Lookup(w, token);
      assert found.Some? && requested == lease ==> requested != t.sessions[found.value].viewerToken;
    case BeginOffer(token, _) =>
      LookupKeepsDead(w, token, lease);
      var (t, found) := Lookup(w, token);
      assert found.Some? ==> t.sessions[found.value].(connectionMode := Negotiating).viewerToken != lease;
    case Control(token, supplied, press) =>
      LookupKeepsDead(w, token, lease);
      var (t, found) := Lookup(w, token);
      assert found.Some? ==> SameShare(Pressed(t.sessions[found.value], press), t.sessions[found.value]);
    case Peek(token) => LookupKeepsDead(w, token, lease);
    case SetProfile(token, _) => LookupKeepsDead(w, token, lease);
  }

  predicate Refused(r: Reply) { r.GoneAway? || r.Conflict? || r.Forbidden? }

  lemma DeadLeaseRefused(w: World, token: Key, lease: Key, press: Press)
    requires DeadLease(w, lease)
    ensures Refused(Outcome(w, BeginOffer(token, lease)).1)
    ensures Step(w, BeginOffer(token, lease)).inFlight == w.inFlight
    ensures Step(w, BeginOffer(token, lease)).peers == w.peers
    ensures Refused(Outcome(w, Control(token, lease, press)).1)
  {
    hide Lookup;
    LookupKeepsDead(w, token, lease);
    var (t, found) := Lookup(w, token);
    assert found.Some? ==> !Owns(t.sessions[found.value], lease);
  }

  /**
   Once a lease is dead it is dead for the rest of the run, restarts included: nobody is
   admitted with it, and an offer begun under it is never registered.
   */
  lemma {:induction false} DeadLeaseForGood(w: World, es: seq<Event>, lease: Key)
    requires Inv(w) && IsRun(w, es) && DeadLease(w, lease)
    ensures var t := Exec(w, es);
            && DeadLease(t, lease)
            && (forall id :: id in t.peers ==> t.peers[id].viewerToken != lease)
            && (forall o :: o in t.inFlight && o.viewerToken == lease ==>
                  Refused(Outcome(t, FinishOffer(o, true)).1) && Step(t, FinishOffer(o, true)).peers == t.peers)
    decreases |es|
  {
    hide IndexOk, LivenessOk, LeasesOk, StoreOk;
    if es != [] {
      DeadLeaseStep(w, es[0], lease);
      StepKeepsInv(w, es[0]);
      DeadLeaseForGood(Step(w, es[0]), es[1..], lease);
    }
  }

  /** A join that does not present the current lease takes control: the old lease is dead from then on. */
  lemma TakeoverKillsOldLease(w: World, token: Key, code: Key, requested: Key, lease: Key)
    requires Inv(w) && Enabled(w, Join(token, code, requested, lease))
    requires Outcome(w, Join(token, code, requested, lease)).1 == OK
    ensures token in w.tokens && w.tokens[token] in w.sessions
    ensures var previous := w.sessions[w.tokens[token]].viewerToken;
            previous != NONE && requested != previous ==> DeadLease(Step(w, Join(token, code, requested, lease)), previous)
  {
    hide IndexOk, LivenessOk, PeersOk, StoreOk;
  }

  /** An offer made under a lease its session no longer honours, and which is not registered. */
  ghost predicate Outlawed(w: World, o: Offer) {
    && o.serial < w.issued && o.sessionID in w.usedIDs
    && o.viewerToken != NONE && o.viewerToken in w.leases
    && (o.sessionID in w.sessions ==> w.sessions[o.sessionID].viewerToken != o.viewerToken)
    && !Registered(w, o)
  }

  ghost predicate NamesGrow(w: World, t: World) {
    && w.leases <= t.leases && w.usedIDs <= t.usedIDs
    && forall id :: id in t.sessions && id in w.usedIDs ==> id in w.sessions || t.sessions[id].viewerToken == NONE
  }

  lemma StepGrowsNames(w: World, e: Event)
    requires Inv(w) && Enabled(w, e)
    ensures NamesGrow(w, Step(w, e))
  {
    hide IndexOk, LivenessOk, LeasesOk, PeersOk, StoreOk;
    match e
    case Join(_, _, _, _) | BeginOffer(_, _) | Control(_, _, _) | Peek(_) | SetProfile(_, _) => LinkedStepGrowsNames(w, e);
    case Restart => RestartUnleases(w);
    case _ => hide Lookup, JoinSession, OfferBegun, ControlEvent, ProfileSet, Restarted, Inv;
  }

  lemma LinkedStepGrowsNames(w: World, e: Event)
    requires e.Join? || e.BeginOffer? || e.Control? || e.Peek? || e.SetProfile?
    ensures NamesGrow(w, Step(w, e))
  {
    hide Lookup;
    match e
    case Join(token, _, _, _) =>
      LookupKeepsShares(w, token);
      assert Lookup(w, token).1.Some? ==> Lookup(w, token).1.value in w.sessions.Keys;
    case BeginOffer(token, _) =>
      LookupKeepsShares(w, token);
      assert Lookup(w, token).1.Some? ==> Lookup(w, token).1.value in w.sessions.Keys;
    case Control(token, _, _) =>
      LookupKeepsShares(w, token);
      assert Lookup(w, token).1.Some? ==> Lookup(w, token).1.value in w.sessions.Keys;
    case Peek(token) => LookupKeepsShares(w, token);
    case SetProfile(token, _) => LookupKeepsShares(w, token);
  }

  lemma OutlawedStep(w: World, e: Event, o: Offer)
    requires Inv(w) && Enabled(w, e) && Outlawed(w, o)
    ensures Outlawed(Step(w, e), o)
  {
    hide Inv, IndexOk, LivenessOk, LeasesOk, PeersOk, StoreOk;
    var t, id := Step(w, e), o.sessionID;
    if e == FinishOffer(o, true) {
      OutlawedAnswer(w, o);
    }
    StepGrowsNames(w, e);
    hide Step;
    RegistryStep(w, e, o);
    if id in t.sessions && id in w.sessions && t.sessions[id].viewerToken !in {NONE, w.sessions[id].viewerToken} {
      LeaseMintedOnlyByJoin(w, e, id);
    }
  }

  /** Even when the connection is made, the second critical section refuses it. */
  lemma OutlawedAnswer(w: World, o: Offer)
    requires Outlawed(w, o)
    ensures Refused(Outcome(w, FinishOffer(o, true)).1)
    ensures Step(w, FinishOffer(o, true)) == w.(inFlight := w.inFlight - {o})
  {
    hide Lookup, Refresh;
  }

  lemma {:induction false} OutlawedForGood(w: World, es: seq<Event>, o: Offer)
    requires Inv(w) && IsRun(w, es) && Outlawed(w, o)
    ensures Outlawed(Exec(w, es), o)
    decreases |es|
  {
    hide Inv, Outlawed, Step, Enabled;
    if es != [] {
      OutlawedStep(w, es[0], o);
      StepKeepsInv(w, es[0]);
      OutlawedForGood(Step(w, es[0]), es[1..], o);
    }
  }

  lemma TakeoverOutlaws(w: World, token: Key, code: Key, requested: Key, lease: Key, o: Offer)
    requires Inv(w) && Enabled(w, Join(token, code, requested, lease))
    requires Outcome(w, Join(token, code, requested, lease)).1 == OK
    requires o in w.inFlight && token in w.tokens && w.tokens[token] == o.sessionID
    requires var t := Step(w, Join(token, code, requested, lease));
             o.sessionID in t.sessions && t.sessions[o.sessionID].viewerToken == lease
    ensures Outlawed(Step(w, Join(token, code, requested, lease)), o)
  {
    hide LivenessOk, LeasesOk, StoreOk;
  }

  /**
   When a join takes a session over, every offer in flight for that session, under whatever lease
   it was begun, is unregistered in every later state, and its handler, should it still come to
   its second critical section, is refused there and registers nothing.
   */
  lemma TakeoverRefusesOffersInFlight(
      w: World, token: Key, code: Key, requested: Key, lease: Key, o: Offer, es: seq<Event>)
    requires Inv(w) && Enabled(w, Join(token, code, requested, lease))
    requires Outcome(w, Join(token, code, requested, lease)).1 == OK
    requires o in w.inFlight && token in w.tokens && w.tokens[token] == o.sessionID
    requires var t := Step(w, Join(token, code, requested, lease));
             o.sessionID in t.sessions && t.sessions[o.sessionID].viewerToken == lease && IsRun(t, es)
    ensures var u := Exec(Step(w, Join(token, code, requested, lease)), es);
            && !Registered(u, o)
            && Refused(Outcome(u, FinishOffer(o, true)).1)
            && Step(u, FinishOffer(o, true)).peers == u.peers
  {
    TakeoverOutlaws(w, token, code, requested, lease, o);
    StepKeepsInv(w, Join(token, code, requested, lease));
    var t := Step(w, Join(token, code, requested, lease));
    hide Inv, Step, Outcome, Enabled;
    OutlawedForGood(t, es, o);
    OutlawedAnswer(Exec(t, es), o);
  }

  /**
   A session gets a new lease only from a join through its own link that presents its code
   where one is required, and the lease is the one newly drawn.
   */
  lemma LeaseMintedOnlyByJoin(w: World, e: Event, id: Key)
    requires Inv(w) && Enabled(w, e) && id in w.sessions && id in Step(w, e).sessions
    requires Step(w, e).sessions[id].viewerToken != w.sessions[id].viewerToken
    requires Step(w, e).sessions[id].viewerToken != NONE
    ensures e.Join? && e.token == w.sessions[id].token && Step(w, e).sessions[id].viewerToken == e.lease
    ensures w.sessions[id].requireCode ==> e.code == w.sessions[id].accessCode
    ensures !Terminal(Refreshed(w.sessions[id], w.now))
  {
    hide LivenessOk, LeasesOk, PeersOk, StoreOk, Lookup, Step;
    if e.Join? {
      JoinLeases(w, e.token, e.code, e.requested, e.lease, id);
    } else {
      LeaseOnlyLost(w, e, id);
    }
  }

  lemma JoinLeases(w: World, token: Key, code: Key, requested: Key, lease: Key, id: Key)
    requires IndexOk(w) && id in w.sessions
    ensures var t := Step(w, Join(token, code, requested, lease));
            id in t.sessions && (t.sessions[id].viewerToken != w.sessions[id].viewerToken ==>
              && token == w.sessions[id].token && t.sessions[id].viewerToken == lease
              && (w.sessions[id].requireCode ==> code == w.sessions[id].accessCode)
              && !Terminal(Refreshed(w.sessions[id], w.now)))
  {
    hide Lookup, IndexOk;
    JoinedThrough(w, token, id);
  }

  lemma CreateKeepsTheOthers(w: World, request: CreateRequest, draw: Draw, id: Key)
    requires IndexOk(w) && Enabled(w, Create(request, draw)) && id in w.sessions
    ensures var t := CreateSession(w, request, draw).0;
            id in t.sessions && SameShare(t.sessions[id], w.sessions[id]) && t.sessions[id].pointerStart == w.sessions[id].pointerStart
  {
    hide Refresh;
    RefreshKeepsShares(w);
    RefreshKeepsPointers(w);
  }

  lemma LinkedStepKeepsLease(w: World, e: Event, id: Key)
    requires id in w.sessions && (e.BeginOffer? || e.Control? || e.Peek? || e.SetProfile?)
    ensures id in Step(w, e).sessions && Step(w, e).sessions[id].viewerToken == w.sessions[id].viewerToken
  {
    hide Lookup;
    match e
    case BeginOffer(token, _) => LookupKeepsShares(w, token);
    case Control(token, _, _) => LookupKeepsShares(w, token);
    case Peek(token) => LookupKeepsShares(w, token);
    case SetProfile(token, _) => LookupKeepsShares(w, token);
  }

  lemma LeaseOnlyLost(w: World, e: Event, id: Key)
    requires Inv(w) && Enabled(w, e) && !e.Join? && id in w.sessions && id in Step(w, e).sessions
    ensures Step(w, e).sessions[id].viewerToken == w.sessions[id].viewerToken || Step(w, e).sessions[id].viewerToken == NONE
  {
    hide IndexOk, LivenessOk, LeasesOk, PeersOk, StoreOk, Lookup, Refresh, Restarted, CreateSession, OfferBegun, ControlEvent;
    match e
    case Create(request, draw) => CreateKeepsTheOthers(w, request, draw, id);
    case Poll => RefreshKeepsShares(w);
    case BeginOffer(_, _) | Control(_, _, _) | Peek(_) | SetProfile(_, _) => LinkedStepKeepsLease(w, e, id);
    case Restart => RestartUnleases(w);
    case _ =>
  }

  lemma JoinedThrough(w: World, token: Key, id: Key)
    requires IndexOk(w) && id in w.sessions
    ensures var (t, found) := Lookup(w, token);
            && t == w.(sessions := t.sessions) && t.sessions.Keys == w.sessions.Keys
            && SameShare(t.sessions[id], w.sessions[id]) && t.sessions[id].pointerStart == w.sessions[id].pointerStart
            && (found == Some(id) ==> token == w.sessions[id].token && t.sessions[id] == w.sessions[id] && !Terminal(Refreshed(w.sessions[id], w.now)))
            && (found.Some? ==> found.value in t.sessions)
  {}

  /**
   A pointer's start changes by a request of a connected viewer that holds the lease and may
   control, by input from some peer's data channel to a live, connected session that may be
   controlled, or by a restart, which forgets it.
   */
  lemma PointerMovers(w: World, e: Event, id: Key)
    requires Inv(w) && Enabled(w, e) && id in w.sessions && id in Step(w, e).sessions
    requires Step(w, e).sessions[id].pointerStart != w.sessions[id].pointerStart
    ensures e.Restart? ||
            (w.sessions[id].control && w.sessions[id].viewerState.ViewerConnected?
             && ((e.Control? && e.token == w.sessions[id].token && Owns(w.sessions[id], e.supplied))
                 || (e.PeerControl? && e.offer.sessionID == id && !Terminal(w.sessions[id]))))
  {
    hide LivenessOk, LeasesOk, PeersOk, StoreOk, Lookup, Refresh, Restarted, JoinSession, CreateSession, OfferBegun, ControlEvent;
    hide ProfileSet, OfferFinished, PeerReports, PeerControls, StopSession;
    match e
    case Create(request, draw) => CreateKeepsTheOthers(w, request, draw, id);
    case Poll => RefreshKeepsPointers(w);
    case Join(token, code, requested, lease) => JoinKeepsPointers(w, token, code, requested, lease, id);
    case BeginOffer(_, _) | Control(_, _, _) | Peek(_) | SetProfile(_, _) => LinkedStepMovesPointer(w, e, id);
    case Restart =>
    case _ => OtherStepMovesPointer(w, e, id);
  }

  /** Ticks, offers that end, callbacks, input from peers, stops and closes. */
  lemma OtherStepMovesPointer(w: World, e: Event, id: Key)
    requires e.Tick? || e.FinishOffer? || e.PeerCallback? || e.PeerControl? || e.Stop? || e.PeerClosed?
    requires id in w.sessions
    ensures id in Step(w, e).sessions
    ensures Step(w, e).sessions[id].pointerStart != w.sessions[id].pointerStart ==>
              e.PeerControl? && e.offer.sessionID == id && TakesInput(w, id)
  {}

  lemma LinkedStepMovesPointer(w: World, e: Event, id: Key)
    requires IndexOk(w) && id in w.sessions && (e.BeginOffer? || e.Control? || e.Peek? || e.SetProfile?)
    ensures id in Step(w, e).sessions
    ensures Step(w, e).sessions[id].pointerStart != w.sessions[id].pointerStart ==>
              && e.Control? && e.token == w.sessions[id].token && w.sessions[id].control
              && w.sessions[id].viewerState.ViewerConnected? && Owns(w.sessions[id], e.supplied)
  {
    hide Lookup, IndexOk;
    match e
    case BeginOffer(token, _) => JoinedThrough(w, token, id);
    case Control(token, _, _) => JoinedThrough(w, token, id);
    case Peek(token) => JoinedThrough(w, token, id);
    case SetProfile(token, _) => JoinedThrough(w, token, id);
  }

  lemma JoinKeepsPointers(w: World, token: Key, code: Key, requested: Key, lease: Key, id: Key)
    requires IndexOk(w) && id in w.sessions
    ensures var t := JoinSession(w, token, code, requested, lease).0;
            id in t.sessions && t.sessions[id].pointerStart == w.sessions[id].pointerStart
  {
    hide Lookup, IndexOk;
    JoinedThrough(w, token, id);
  }

  lemma RefreshKeepsPointers(w: World)
    ensures var t := Refresh(w);
            && t.sessions.Keys == w.sessions.Keys
            && (forall id :: id in w.sessions ==> t.sessions[id].pointerStart == w.sessions[id].pointerStart)
  {}

  // ---------------------------------------------------------------- peers that left the registry

  /** A peer that was answered for some offer, is not registered and has no handler left to register it. */
  ghost predicate Departed(w: World, peer: Offer) {
    peer.serial < w.issued && peer !in w.inFlight && !Registered(w, peer)
  }

  ghost predicate RegistryMoves(w: World, e: Event, t: World, peer: Offer) {
    && w.issued <= t.issued
    && (peer in t.inFlight ==> peer in w.inFlight || peer.serial == w.issued)
    && (Registered(t, peer) ==> Registered(w, peer) || (peer in w.inFlight && e == FinishOffer(peer, true)))
  }

  /** What a step does to the registry: it may begin the next offer, or register one that was in flight. */
  lemma RegistryStep(w: World, e: Event, peer: Offer)
    requires Enabled(w, e)
    ensures RegistryMoves(w, e, Step(w, e), peer)
  {
    match e
    case Join(_, _, _, _) | BeginOffer(_, _) | Control(_, _, _) | Peek(_) | SetProfile(_, _) => LinkedRegistryStep(w, e, peer);
    case Create(_, _) | Poll =>
      hide Lookup, Refresh, JoinSession, OfferBegun, ControlEvent, ProfileSet, Restarted, OfferFinished;
      RefreshKeepsShares(w);
    case _ =>
      hide Lookup, Refresh, JoinSession, OfferBegun, ControlEvent, ProfileSet, CreateSession;
  }

  lemma LinkedRegistryStep(w: World, e: Event, peer: Offer)
    requires e.Join? || e.BeginOffer? || e.Control? || e.Peek? || e.SetProfile?
    ensures RegistryMoves(w, e, Step(w, e), peer)
  {
    hide Lookup;
    match e
    case Join(token, _, _, _) => LookupKeepsShares(w, token);
    case BeginOffer(token, _) => LookupKeepsShares(w, token);
    case Control(token, _, _) => LookupKeepsShares(w, token);
    case Peek(token) => LookupKeepsShares(w, token);
    case SetProfile(token, _) => LookupKeepsShares(w, token);
  }

  /** Leaving the registry, by whatever step, is departing. */
  lemma LeavingIsDeparting(w: World, e: Event, peer: Offer)
    requires Inv(w) && Enabled(w, e) && Registered(w, peer) && !Registered(Step(w, e), peer)
    ensures Departed(Step(w, e), peer)
  {
    hide IndexOk, LivenessOk, LeasesOk, StoreOk, Step;
    RegistryStep(w, e, peer);
  }

  /** Expiry alone removes no peer, but nothing the peer reports afterwards changes anything. */
  lemma ExpiryKeepsThePeer(w: World, id: Key)
    requires id in w.peers && w.peers[id].sessionID == id && id in w.sessions && Terminal(Refreshed(w.sessions[id], w.now))
    ensures var t := Step(w, Poll);
            && Registered(t, w.peers[id]) && id in t.sessions && Terminal(t.sessions[id])
            && forall mode :: PeerReports(t, w.peers[id], mode) == t
  {}

  /** A departed peer is never registered again, and none of its callbacks changes anything. */
  lemma {:induction false} DepartedForGood(w: World, es: seq<Event>, peer: Offer)
    requires IsRun(w, es) && Departed(w, peer)
    ensures Departed(Exec(w, es), peer)
    ensures forall mode :: PeerReports(Exec(w, es), peer, mode) == Exec(w, es)
    decreases |es|
  {
    if es != [] {
      RegistryStep(w, es[0], peer);
      DepartedForGood(Step(w, es[0]), es[1..], peer);
    }
  }

  // ---------------------------------------------------------------- live and ended sessions

  /** In every reachable state at most one session is live, it is the active one, and shapes are legal. */
  lemma SingleLiveSession(es: seq<Event>, i: Key, j: Key)
    requires IsRun(Empty, es)
    requires i in Exec(Empty, es).sessions && j in Exec(Empty, es).sessions
    ensures var w := Exec(Empty, es);
            && (!Terminal(w.sessions[i]) && !Terminal(w.sessions[j]) ==> i == j == w.activeID)
            && ShapeOk(w.sessions[i])
            && w.sessions[i].token in w.tokens && w.tokens[w.sessions[i].token] == i
  {
    hide LeasesOk, PeersOk, StoreOk;
    EmptyInv();
    RunKeepsInv(Empty, es);
  }

  /** An id that was given out and that neither memory nor the file can bring back to life. */
  ghost predicate Ended(w: World, id: Key) {
    && id in w.usedIDs
    && (id in w.sessions ==> Terminal(w.sessions[id]))
    && (id in w.store.saved ==> Terminal(Refreshed(w.store.saved[id], w.now)))
  }

  lemma TerminalIsEnded(w: World, id: Key)
    requires Inv(w) && id in w.sessions && Terminal(w.sessions[id])
    ensures Ended(w, id)
  {
    hide LivenessOk, LeasesOk, PeersOk;
  }

  lemma LookupKeepsEnded(w: World, token: Key, id: Key)
    requires Ended(w, id)
    ensures Ended(Lookup(w, token).0, id)
    ensures Lookup(w, token).1 != Some(id)
  {}

  lemma RefreshKeepsEnded(w: World, id: Key)
    requires Ended(w, id)
    ensures Ended(Refresh(w), id) && Refresh(w).usedIDs == w.usedIDs
  {}

  lemma EndedStep(w: World, e: Event, id: Key)
    requires Enabled(w, e) && Ended(w, id)
    ensures Ended(Step(w, e), id)
  {
    hide Lookup, Refresh;
    match e
    case Create(_, _) => RefreshKeepsEnded(w, id);
    case Poll => RefreshKeepsEnded(w, id);
    case Join(token, _, _, _) => LookupKeepsEnded(w, token, id); LookupKeepsShares(w, token);
    case BeginOffer(token, _) => LookupKeepsEnded(w, token, id); LookupKeepsShares(w, token);
    case Control(token, _, _) => LookupKeepsEnded(w, token, id); LookupKeepsShares(w, token);
    case Peek(token) => LookupKeepsEnded(w, token, id);
    case SetProfile(token, _) => LookupKeepsEnded(w, token, id); LookupKeepsShares(w, token);
    case _ =>
  }

  /** A stopped or expired session never becomes live again, not even through a restart. */
  lemma {:induction false} EndedForGood(w: World, es: seq<Event>, id: Key)
    requires IsRun(w, es) && Ended(w, id)
    ensures Ended(Exec(w, es), id)
    decreases |es|
  {
    if es != [] {
      EndedStep(w, es[0], id);
      EndedForGood(Step(w, es[0]), es[1..], id);
    }
  }

  // ---------------------------------------------------------------- restarts

  lemma LoadedExactlyTheLive(w: World)
    requires Inv(w)
    ensures LoadedSessions(w.store.saved, w.now).Keys == (set id | id in w.sessions && !Terminal(Refreshed(w.sessions[id], w.now)))
  {
    hide IndexOk, LeasesOk, PeersOk;
  }

  lemma LoadedAsRemembered(w: World, id: Key)
    requires Inv(w) && id in LoadedSessions(w.store.saved, w.now) && id in w.sessions && !Terminal(Refreshed(w.sessions[id], w.now))
    ensures SameButMode(LoadedSessions(w.store.saved, w.now)[id], Stripped(w.sessions[id]))
  {
    hide IndexOk, LeasesOk, PeersOk;
  }

  /**
   A restart brings back exactly the sessions that are still live, with everything but the
   lease, the pointer start and possibly a stale connection mode, and nobody holds a lease.
   */
  lemma RestartKeepsExactlyTheLive(w: World)
    requires Inv(w)
    ensures var t := Restarted(w);
            && t.sessions.Keys == (set id | id in w.sessions && !Terminal(Refreshed(w.sessions[id], w.now)))
            && (forall id :: id in t.sessions ==> SameButMode(t.sessions[id], Stripped(w.sessions[id])))
            && t.activeID == (if w.activeID in t.sessions then w.activeID else NONE)
            && t.tokens == (map id | id in t.sessions :: w.sessions[id].token := id)
  {
    var t := Restarted(w);
    LoadedExactlyTheLive(w);
    hide IndexOk, LeasesOk, PeersOk, SameButMode, LoadedSessions, TokensOf;
    if id :| id in t.sessions {
      LoadedIDs(w, id);
      LoadedAsRemembered(w, id);
      assert t.sessions.Keys == {id};
    }
    hide StoreOk;
    NothingLoaded(w);
  }

  lemma NothingLoaded(w: World)
    ensures LoadedSessions(w.store.saved, w.now) == map[] ==> TokensOf(LoadedSessions(w.store.saved, w.now)) == map[]
  {}

  /** Nobody holds a lease and no offer is under way. */
  ghost predicate Unleased(w: World) {
    w.peers == map[] && w.inFlight == {} && forall id :: id in w.sessions ==> w.sessions[id].viewerToken == NONE
  }

  lemma LookupKeepsUnleased(w: World, token: Key)
    requires Unleased(w)
    ensures var (t, found) := Lookup(w, token);
            Unleased(t) && (found.Some? ==> found.value in t.sessions && t.sessions[found.value].viewerToken == NONE)
  {}

  lemma UnleasedStep(w: World, e: Event)
    requires Inv(w) && Enabled(w, e) && Unleased(w) && !e.Join?
    ensures Unleased(Step(w, e))
  {
    hide IndexOk, LivenessOk, LeasesOk, PeersOk, Lookup, Refresh;
    match e
    case Create(_, _) => RefreshKeepsShares(w);
    case Poll => RefreshKeepsShares(w);
    case BeginOffer(token, supplied) =>
      LookupKeepsUnleased(w, token);
      var (t, found) := Lookup(w, token);
      assert found.Some? ==> !Owns(t.sessions[found.value], supplied);
    case Control(token, supplied, press) =>
      LookupKeepsUnleased(w, token);
      var (t, found) := Lookup(w, token);
      assert found.Some? ==> SameShare(Pressed(t.sessions[found.value], press), t.sessions[found.value]);
    case Peek(token) => LookupKeepsUnleased(w, token);
    case SetProfile(token, _) => LookupKeepsUnleased(w, token);
    case Restart => RestartUnleases(w);
    case _ =>
  }

  /** After a restart no request owns a session, whatever it presents, until somebody joins. */
  lemma {:induction false} NobodyOwnsUntilJoin(w: World, es: seq<Event>)
    requires Inv(w) && Unleased(w) && IsRun(w, es)
    requires forall i :: 0 <= i < |es| ==> !es[i].Join?
    ensures var t := Exec(w, es);
            && Unleased(t)
            && (forall id, supplied :: id in t.sessions ==> !Owns(t.sessions[id], supplied))
    decreases |es|
  {
    hide IndexOk, LivenessOk, LeasesOk, PeersOk, StoreOk;
    if es != [] {
      UnleasedStep(w, es[0]);
      StepKeepsInv(w, es[0]);
      NobodyOwnsUntilJoin(Step(w, es[0]), es[1..]);
    }
  }

  lemma RestartUnleases(w: World)
    requires Inv(w)
    ensures Unleased(Restarted(w))
  {
    var t := Restarted(w);
    forall id | id in t.sessions ensures t.sessions[id].viewerToken == NONE { LoadedIDs(w, id); }
  }

  // ---------------------------------------------------------------- who writes a connection mode

  lemma LookupKeepsMode(w: World, token: Key)
    ensures var (t, found) := Lookup(w, token);
            && t == w.(sessions := t.sessions) && t.sessions.Keys == w.sessions.Keys
            && (found.Some? ==> found.value in t.sessions)
            && (forall id :: id in w.sessions && !Terminal(t.sessions[id]) ==> t.sessions[id] == w.sessions[id])
  {}

  lemma RefreshKeepsMode(w: World)
    ensures var t := Refresh(w);
            && t.sessions.Keys == w.sessions.Keys && t.peers == w.peers
            && (forall id :: id in w.sessions && !Terminal(t.sessions[id]) ==> t.sessions[id] == w.sessions[id])
  {}

  lemma CreateKeepsModes(w: World, request: CreateRequest, draw: Draw, id: Key)
    requires IndexOk(w) && Enabled(w, Create(request, draw)) && id in w.sessions
    ensures var t := CreateSession(w, request, draw).0;
            id in t.sessions && (!Terminal(t.sessions[id]) ==> t.sessions[id] == w.sessions[id])
  {
    hide Refresh;
    RefreshKeepsMode(w);
  }

  /**
   While the same peer stays registered for a live session, the session's mode is changed by
   that peer's own report and by one other thing: a failing older offer, which has no guard.
   */
  lemma ModeWriters(w: World, e: Event, id: Key)
    requires Inv(w) && Enabled(w, e)
    requires id in w.peers && id in Step(w, e).peers && Step(w, e).peers[id] == w.peers[id]
    requires id in Step(w, e).sessions && !Terminal(Step(w, e).sessions[id])
    ensures Step(w, e).sessions[id].connectionMode != w.sessions[id].connectionMode <==>
            || (e.PeerCallback? && e.offer == w.peers[id] && e.mode != w.sessions[id].connectionMode)
            || (e.FinishOffer? && !e.answered && e.offer.sessionID == id && !w.sessions[id].connectionMode.FallbackScreen?)
  {
    hide IndexOk, LivenessOk, LeasesOk, StoreOk, Lookup, Refresh, CreateSession, JoinSession, OfferBegun, ControlEvent;
    match e
    case Create(request, draw) => CreateKeepsModes(w, request, draw, id);
    case Poll => RefreshKeepsMode(w);
    case Join(_, _, _, _) | BeginOffer(_, _) | Control(_, _, _) | Peek(_) | SetProfile(_, _) => LinkedStepKeepsMode(w, e, id);
    case _ =>
  }

  lemma LinkedStepKeepsMode(w: World, e: Event, id: Key)
    requires e.Join? || e.BeginOffer? || e.Control? || e.Peek? || e.SetProfile?
    requires id in w.sessions && id in Step(w, e).peers
    ensures id in Step(w, e).sessions
    ensures !Terminal(Step(w, e).sessions[id]) ==> Step(w, e).sessions[id].connectionMode == w.sessions[id].connectionMode
  {
    hide Lookup;
    match e
    case Join(token, _, _, _) => LookupKeepsMode(w, token);
    case BeginOffer(token, _) => LookupKeepsMode(w, token);
    case Control(token, _, _) => LookupKeepsMode(w, token);
    case Peek(token) => LookupKeepsMode(w, token);
    case SetProfile(token, _) => LookupKeepsMode(w, token);
  }

  /** Answering an offer whose lease is still the session's registers its peer. */
  lemma AnswerRegisters(w: World, offer: Offer)
    requires offer.sessionID in w.sessions
    requires var d := w.sessions[offer.sessionID];
             !Terminal(d) && d.viewerState.ViewerConnected? && d.viewerToken == offer.viewerToken
    ensures Step(w, FinishOffer(offer, true)) ==
            w.(inFlight := w.inFlight - {offer}, peers := w.peers[offer.sessionID := offer], open := w.open + {offer})
  {}

  lemma BeginOfferOf(w: World, token: Key, id: Key)
    requires token in w.tokens && w.tokens[token] == id && id != NONE && id in w.sessions
    requires var d := w.sessions[id]; d == Refreshed(d, w.now) && d.state.Connected? && d.viewerState.ViewerConnected?
    requires w.sessions[id].viewerToken != NONE
    ensures var lease := w.sessions[id].viewerToken;
            Step(w, BeginOffer(token, lease)) ==
            w.(peers := w.peers - {id}, closing := w.closing + PeerOf(w.peers, id),
               sessions := w.sessions[id := w.sessions[id].(connectionMode := Negotiating)],
               inFlight := w.inFlight + {Offer(w.issued, id, lease)}, issued := w.issued + 1)
  {}

  /**
   Such a run, from any state with a connected viewer: two offers are begun, the newer one is
   registered and reports that video is up, and then the older one fails. The session falls
   back to screenshots in the books although its registered peer is connected.
   */
  lemma FailedOfferOverwritesNewerPeer(w: World, token: Key, id: Key)
    requires token in w.tokens && w.tokens[token] == id && id != NONE && id in w.sessions
    requires var d := w.sessions[id]; d == Refreshed(d, w.now) && d.state.Connected? && d.viewerState.ViewerConnected?
    requires w.sessions[id].viewerToken != NONE
    ensures var lease := w.sessions[id].viewerToken;
            var older, newer := Offer(w.issued, id, lease), Offer(w.issued + 1, id, lease);
            var w2 := Step(Step(w, BeginOffer(token, lease)), BeginOffer(token, lease));
            var w4 := Step(Step(w2, FinishOffer(newer, true)), PeerCallback(newer, WebRTC));
            var w5 := Step(w4, FinishOffer(older, false));
            && older in w4.inFlight
            && Registered(w4, newer) && id in w4.sessions && w4.sessions[id].connectionMode.WebRTC?
            && Registered(w5, newer) && id in w5.sessions && w5.sessions[id].connectionMode.FallbackScreen?
  {
    hide OfferBegun;
    var lease := w.sessions[id].viewerToken;
    var older, newer := Offer(w.issued, id, lease), Offer(w.issued + 1, id, lease);
    BeginOfferOf(w, token, id);
    var w1 := Step(w, BeginOffer(token, lease));
    assert w1.sessions[id] == Refreshed(w1.sessions[id], w1.now);
    BeginOfferOf(w1, token, id);
    hide OfferConflict;
    AnswerRegisters(Step(w1, BeginOffer(token, lease)), newer);
  }

  /** Two offers begun together are both registered in turn: the second answer takes the first one's place. */
  lemma SecondAnswerReplacesFirst(w: World, token: Key, id: Key)
    requires token in w.tokens && w.tokens[token] == id && id != NONE && id in w.sessions
    requires var d := w.sessions[id]; d == Refreshed(d, w.now) && d.state.Connected? && d.viewerState.ViewerConnected?
    requires w.sessions[id].viewerToken != NONE
    ensures var lease := w.sessions[id].viewerToken;
            var older, newer := Offer(w.issued, id, lease), Offer(w.issued + 1, id, lease);
            var w2 := Step(Step(w, BeginOffer(token, lease)), BeginOffer(token, lease));
            var w3 := Step(w2, FinishOffer(older, true));
            var w4 := Step(w3, FinishOffer(newer, true));
            Registered(w3, older) && newer in w3.inFlight && Registered(w4, newer) && !Registered(w4, older)
  {
    hide OfferBegun;
    var lease := w.sessions[id].viewerToken;
    var older, newer := Offer(w.issued, id, lease), Offer(w.issued + 1, id, lease);
    BeginOfferOf(w, token, id);
    var w1 := Step(w, BeginOffer(token, lease));
    assert w1.sessions[id] == Refreshed(w1.sessions[id], w1.now);
    BeginOfferOf(w1, token, id);
    hide OfferConflict;
    AnswerRegisters(Step(w1, BeginOffer(token, lease)), older);
    AnswerRegisters(Step(Step(w1, BeginOffer(token, lease)), FinishOffer(older, true)), newer);
  }
}
