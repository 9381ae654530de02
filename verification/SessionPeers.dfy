/**
 Peer connections from the answer to the close: which peer stays open after it has left the
 registry, and what its input does once another viewer holds the lease.
 */
module SessionPeers {
  import opened Options
  import opened Sessions

  /**
   A peer about to be closed is still open; an open peer's handler has ended; a registered peer
   is open and nobody is about to close it.
   */
  ghost predicate OpenOk(w: World) {
    && w.closing <= w.open
    && (forall o :: o in w.open ==> o.serial < w.issued && o !in w.inFlight)
    && (forall id :: id in w.peers ==> w.peers[id] in w.open && w.peers[id] !in w.closing)
  }

  /** An open peer nobody is about to close and the registry does not know. */
  ghost predicate Orphan(w: World, peer: Offer) {
    peer in w.open && peer !in w.closing && !Registered(w, peer)
  }

  /** The step that takes a registered peer out of the registry; its handler closes the peer after the unlock. */
  ghost predicate TakenBy(w: World, e: Event, peer: Offer) {
    (e.Join? || e.BeginOffer? || e.Stop?) && Registered(w, peer) && !Registered(Step(w, e), peer)
  }

  /** The step that answers another offer of a registered peer's session and registers that one's peer. */
  ghost predicate DisplacedBy(w: World, e: Event, peer: Offer) {
    && Registered(w, peer)
    && e.FinishOffer? && e.answered && e.offer.sessionID == peer.sessionID
    && Outcome(w, e).1.OK?
  }

  // ---------------------------------------------------------------- what a step does to peers

  ghost predicate Unmoved(w: World, t: World) {
    t.peers == w.peers && t.open == w.open && t.closing == w.closing
  }

  ghost predicate Dropped(w: World, t: World, id: Key) {
    t.peers == w.peers - {id} && t.open == w.open && t.closing == w.closing + PeerOf(w.peers, id)
  }

  ghost predicate MovesPeers(w: World, e: Event, t: World) {
    match e
    case Join(_, _, _, _) | BeginOffer(_, _) | Stop(_) => Unmoved(w, t) || exists id :: Dropped(w, t, id)
    case FinishOffer(offer, answered) =>
      && offer !in t.inFlight
      && if answered && Outcome(w, e).1.OK?
         then t.peers == w.peers[offer.sessionID := offer] && t.open == w.open + {offer} && t.closing == w.closing
         else Unmoved(w, t)
    case PeerClosed(offer) => t.peers == w.peers && t.open == w.open - {offer} && t.closing == w.closing - {offer}
    case Restart => t.peers == map[] && t.open == {} && t.closing == {}
    case _ => Unmoved(w, t)
  }

  lemma StepMovesPeers(w: World, e: Event)
    requires Enabled(w, e)
    ensures MovesPeers(w, e, Step(w, e))
  {
    match e
    case Join(_, _, _, _) | BeginOffer(_, _) | Control(_, _, _) | Peek(_) | SetProfile(_, _) => LinkedStepMovesPeers(w, e);
    case Stop(id) =>
      hide Lookup, Refresh, OfferBegun, JoinSession, ControlEvent, ProfileSet, CreateSession, Restarted;
      assert id in w.sessions ==> Dropped(w, Step(w, e), id);
    case Create(_, _) | Poll =>
      hide Lookup, OfferBegun, JoinSession, ControlEvent, ProfileSet, Restarted, OfferFinished, StopSession;
    case _ => OtherStepMovesPeers(w, e);
  }

  lemma OtherStepMovesPeers(w: World, e: Event)
    requires Enabled(w, e) && !e.Join? && !e.BeginOffer? && !e.Control? && !e.Peek? && !e.SetProfile?
    requires !e.Stop? && !e.Create? && !e.Poll?
    ensures MovesPeers(w, e, Step(w, e))
  {
    hide Lookup, OfferBegun, JoinSession, ControlEvent, ProfileSet, CreateSession, Refresh, StopSession;
  }

  lemma LinkedStepMovesPeers(w: World, e: Event)
    requires e.Join? || e.BeginOffer? || e.Control? || e.Peek? || e.SetProfile?
    ensures MovesPeers(w, e, Step(w, e))
  {
    hide Lookup;
    match e
    case Join(token, _, _, _) =>
      LookupKeepsShares(w, token);
      var found := Lookup(w, token).1;
      assert Unmoved(w, Step(w, e)) || Dropped(w, Step(w, e), found.value);
    case BeginOffer(token, _) =>
      LookupKeepsShares(w, token);
      var found := Lookup(w, token).1;
      assert Unmoved(w, Step(w, e)) || Dropped(w, Step(w, e), found.value);
    case Control(token, _, _) => LookupKeepsShares(w, token);
    case Peek(token) => LookupKeepsShares(w, token);
    case SetProfile(token, _) => LookupKeepsShares(w, token);
  }

  lemma EmptyOpenOk()
    ensures OpenOk(Empty)
  {}

  lemma OpenOkStep(w: World, e: Event)
    requires Inv(w) && OpenOk(w) && Enabled(w, e)
    ensures OpenOk(Step(w, e))
  {
    hide IndexOk, LivenessOk, LeasesOk, StoreOk, Outcome;
    var t := Step(w, e);
    hide Step;
    StepMovesPeers(w, e);
    RegistryStep(w, e, Offer(0, NONE, NONE));
    forall o | o in t.open ensures o.serial < t.issued && o !in t.inFlight { RegistryStep(w, e, o); }
  }

  /** A step leaves a peer behind if it displaces it, or if it was left behind before and the process goes on. */
  lemma OrphanStep(w: World, e: Event, peer: Offer)
    requires Inv(w) && OpenOk(w) && Enabled(w, e)
    ensures Orphan(Step(w, e), peer) <==> (Orphan(w, peer) && !e.Restart?) || DisplacedBy(w, e, peer)
  {
    hide IndexOk, LivenessOk, LeasesOk, StoreOk, Outcome;
    var t := Step(w, e);
    hide Step;
    StepMovesPeers(w, e);
  }

  /** A peer is about to be closed once it was taken out, until the close call has returned or the process ends. */
  lemma ClosingStep(w: World, e: Event, peer: Offer)
    requires Inv(w) && OpenOk(w) && Enabled(w, e)
    ensures peer in Step(w, e).closing <==>
              TakenBy(w, e, peer) || (peer in w.closing && e != PeerClosed(peer) && !e.Restart?)
  {
    hide IndexOk, LivenessOk, LeasesOk, StoreOk, Outcome;
    var t := Step(w, e);
    StepMovesPeers(w, e);
    hide Step;
    if id :| Dropped(w, t, id) {
      assert peer in PeerOf(w.peers, id) <==> Registered(w, peer) && peer.sessionID == id;
    }
  }

  /** A registered peer leaves the registry to be closed, with the process, or displaced and left open. */
  lemma HowPeersLeave(w: World, e: Event, peer: Offer)
    requires Inv(w) && OpenOk(w) && Enabled(w, e) && Registered(w, peer) && !Registered(Step(w, e), peer)
    ensures peer in Step(w, e).closing || e.Restart? || DisplacedBy(w, e, peer)
    ensures peer in Step(w, e).closing ==> Enabled(Step(w, e), PeerClosed(peer))
    ensures DisplacedBy(w, e, peer) <==> Orphan(Step(w, e), peer)
  {
    hide IndexOk, LivenessOk, LeasesOk, StoreOk, Outcome;
    OrphanStep(w, e, peer);
    var t := Step(w, e);
    hide Step;
    StepMovesPeers(w, e);
  }

  // ---------------------------------------------------------------- whole runs

  predicate NoRestart(es: seq<Event>) { forall i :: 0 <= i < |es| ==> !es[i].Restart? }

  /** Some step of the run displaces the peer, and the process is not restarted after it. */
  ghost predicate Displaced(w: World, es: seq<Event>, peer: Offer)
    requires IsRun(w, es)
    decreases |es|
  {
    es != [] && ((DisplacedBy(w, es[0], peer) && NoRestart(es[1..])) || Displaced(Step(w, es[0]), es[1..], peer))
  }

  lemma {:induction false} OrphansFrom(w: World, es: seq<Event>, peer: Offer)
    requires Inv(w) && OpenOk(w) && IsRun(w, es)
    ensures OpenOk(Exec(w, es))
    ensures Orphan(Exec(w, es), peer) <==> (Orphan(w, peer) && NoRestart(es)) || Displaced(w, es, peer)
    decreases |es|
  {
    hide Inv, OpenOk, Orphan, DisplacedBy, Step, Enabled;
    if es != [] {
      StepKeepsInv(w, es[0]);
      OpenOkStep(w, es[0]);
      OrphanStep(w, es[0], peer);
      OrphansFrom(Step(w, es[0]), es[1..], peer);
      assert NoRestart(es) <==> !es[0].Restart? && NoRestart(es[1..]) by {
        assert es == [es[0]] + es[1..];
      }
    }
  }

  /** In every reachable state the peers left open outside the registry are exactly the displaced ones. */
  lemma OrphansExactly(es: seq<Event>, peer: Offer)
    requires IsRun(Empty, es)
    ensures Orphan(Exec(Empty, es), peer) <==> Displaced(Empty, es, peer)
  {
    EmptyInv();
    EmptyOpenOk();
    OrphansFrom(Empty, es, peer);
  }

  predicate NotClosed(es: seq<Event>, peer: Offer) {
    forall i :: 0 <= i < |es| ==> es[i] != PeerClosed(peer) && !es[i].Restart?
  }

  /** Some step of the run takes the peer out to be closed, and afterwards the close has not returned. */
  ghost predicate CloseUnderWay(w: World, es: seq<Event>, peer: Offer)
    requires IsRun(w, es)
    decreases |es|
  {
    es != [] && ((TakenBy(w, es[0], peer) && NotClosed(es[1..], peer)) || CloseUnderWay(Step(w, es[0]), es[1..], peer))
  }

  lemma {:induction false} ClosingFrom(w: World, es: seq<Event>, peer: Offer)
    requires Inv(w) && OpenOk(w) && IsRun(w, es)
    ensures peer in Exec(w, es).closing <==> (peer in w.closing && NotClosed(es, peer)) || CloseUnderWay(w, es, peer)
    decreases |es|
  {
    hide Inv, OpenOk, TakenBy, Step, Enabled;
    if es != [] {
      StepKeepsInv(w, es[0]);
      OpenOkStep(w, es[0]);
      ClosingStep(w, es[0], peer);
      ClosingFrom(Step(w, es[0]), es[1..], peer);
      assert NotClosed(es, peer) <==> es[0] != PeerClosed(peer) && !es[0].Restart? && NotClosed(es[1..], peer) by {
        assert es == [es[0]] + es[1..];
      }
    }
  }

  /** In every reachable state the peers about to be closed are exactly those taken out and not closed since. */
  lemma ClosingExactly(es: seq<Event>, peer: Offer)
    requires IsRun(Empty, es)
    ensures peer in Exec(Empty, es).closing <==> CloseUnderWay(Empty, es, peer)
  {
    EmptyInv();
    EmptyOpenOk();
    ClosingFrom(Empty, es, peer);
  }

  /** Input can arrive from this peer and is acted upon. */
  ghost predicate Heard(w: World, peer: Offer) {
    Enabled(w, PeerControl(peer, OtherInput)) && TakesInput(w, peer.sessionID)
  }

  /**
   In every reachable state: a peer whose lease is not its session's any more is still heard if
   and only if the session takes input and the peer either was taken out of the registry and its
   close has not returned, or was displaced by another answer, which closes nothing; and what is
   heard moves the pointer of the viewer who holds the lease now.
   */
  lemma ForeignInputExactly(es: seq<Event>, peer: Offer, at: Point)
    requires IsRun(Empty, es) && peer.sessionID in Exec(Empty, es).sessions
    requires Exec(Empty, es).sessions[peer.sessionID].viewerToken != peer.viewerToken
    ensures var w := Exec(Empty, es);
            Heard(w, peer) <==> TakesInput(w, peer.sessionID) && (CloseUnderWay(Empty, es, peer) || Displaced(Empty, es, peer))
    ensures var w, e := Exec(Empty, es), PeerControl(peer, Down(at));
            Heard(w, peer) ==>
              && Enabled(w, e)
              && Step(w, e).sessions == w.sessions[peer.sessionID := w.sessions[peer.sessionID].(pointerStart := Some(at))]
    ensures var w, e := Exec(Empty, es), PeerControl(peer, Down(at));
            !TakesInput(w, peer.sessionID) ==> Step(w, e) == w
  {
    OrphansExactly(es, peer);
    ClosingExactly(es, peer);
    EmptyInv();
    EmptyOpenOk();
    OrphansFrom(Empty, es, peer);
    if Registered(Exec(Empty, es), peer) { RegisteredPeerHoldsCurrentLease(es, peer.sessionID); }
  }

  // ---------------------------------------------------------------- one offer at a time

  /** No offer is begun while another one is being answered. */
  ghost predicate OneAtATime(w: World, es: seq<Event>)
    requires IsRun(w, es)
    decreases |es|
  {
    es != [] ==> (es[0].BeginOffer? ==> w.inFlight == {}) && OneAtATime(Step(w, es[0]), es[1..])
  }

  ghost predicate Calm(w: World) {
    && (forall o, p :: o in w.inFlight && p in w.inFlight ==> o == p)
    && (forall o :: o in w.inFlight ==> o.sessionID !in w.peers)
  }

  ghost predicate MovesOffers(w: World, e: Event, t: World) {
    match e
    case BeginOffer(_, _) =>
      t.inFlight == w.inFlight || exists o :: t.inFlight == w.inFlight + {o} && o.sessionID !in t.peers
    case FinishOffer(offer, _) => t.inFlight == w.inFlight - {offer}
    case Restart => t.inFlight == {}
    case _ => t.inFlight == w.inFlight
  }

  lemma StepMovesOffers(w: World, e: Event)
    requires Enabled(w, e)
    ensures MovesOffers(w, e, Step(w, e))
  {
    match e
    case Join(_, _, _, _) | BeginOffer(_, _) | Control(_, _, _) | Peek(_) | SetProfile(_, _) => LinkedStepMovesOffers(w, e);
    case _ =>
      hide Lookup, OfferBegun, JoinSession, ControlEvent, ProfileSet;
  }

  lemma LinkedStepMovesOffers(w: World, e: Event)
    requires e.Join? || e.BeginOffer? || e.Control? || e.Peek? || e.SetProfile?
    ensures MovesOffers(w, e, Step(w, e))
  {
    hide Lookup;
    match e
    case Join(token, _, _, _) => LookupKeepsShares(w, token);
    case BeginOffer(token, _) =>
      LookupKeepsShares(w, token);
      var (t, found) := Lookup(w, token);
      if found.Some? {
        var o := Offer(t.issued, found.value, t.sessions[found.value].viewerToken);
        assert o in Step(w, e).inFlight ==> o.sessionID !in Step(w, e).peers || o in w.inFlight;
      }
    case Control(token, _, _) => LookupKeepsShares(w, token);
    case Peek(token) => LookupKeepsShares(w, token);
    case SetProfile(token, _) => LookupKeepsShares(w, token);
  }

  lemma CalmStep(w: World, e: Event, peer: Offer)
    requires Calm(w) && Enabled(w, e) && (e.BeginOffer? ==> w.inFlight == {})
    ensures Calm(Step(w, e)) && !DisplacedBy(w, e, peer)
  {
    hide Outcome;
    var t := Step(w, e);
    hide Step;
    StepMovesPeers(w, e);
    StepMovesOffers(w, e);
  }

  /** While offers are answered one at a time no peer is left open for good, whoever joins, stops or fails. */
  lemma {:induction false} NoOrphansOneAtATime(w: World, es: seq<Event>, peer: Offer)
    requires Inv(w) && OpenOk(w) && IsRun(w, es)
    requires Calm(w) && OneAtATime(w, es) && !Orphan(w, peer)
    ensures !Orphan(Exec(w, es), peer)
    decreases |es|
  {
    hide Inv, OpenOk, Orphan, DisplacedBy, Step, Enabled, Calm;
    if es != [] {
      StepKeepsInv(w, es[0]);
      OpenOkStep(w, es[0]);
      OrphanStep(w, es[0], peer);
      CalmStep(w, es[0], peer);
      NoOrphansOneAtATime(Step(w, es[0]), es[1..], peer);
    }
  }

  lemma EmptyCalm()
    ensures Calm(Empty)
  {}

  /**
   In runs that answer offers one at a time, a peer whose lease is gone is heard if and only if
   the session takes input and the peer's close has not returned.
   */
  lemma ForeignInputOneAtATime(es: seq<Event>, peer: Offer)
    requires IsRun(Empty, es) && OneAtATime(Empty, es) && peer.sessionID in Exec(Empty, es).sessions
    requires Exec(Empty, es).sessions[peer.sessionID].viewerToken != peer.viewerToken
    ensures var w := Exec(Empty, es);
            Heard(w, peer) <==> TakesInput(w, peer.sessionID) && CloseUnderWay(Empty, es, peer)
  {
    hide TakesInput;
    EmptyInv();
    EmptyOpenOk();
    EmptyCalm();
    NoOrphansOneAtATime(Empty, es, peer);
    OrphansExactly(es, peer);
    ForeignInputExactly(es, peer, Point(0.0, 0.0));
  }

  // ---------------------------------------------------------------- such runs

  lemma {:induction false} OneMore(w: World, es: seq<Event>, e: Event)
    requires IsRun(w, es) && Enabled(Exec(w, es), e)
    ensures IsRun(w, es + [e]) && Exec(w, es + [e]) == Step(Exec(w, es), e)
    decreases |es|
  {
    hide Step, Enabled;
    if es == [] {
      assert es + [e] == [e];
    } else {
      assert (es + [e])[1..] == es[1..] + [e];
      OneMore(Step(w, es[0]), es[1..], e);
    }
  }

  /** Session 1, shared without an end under token 2, controlled by the holder of `lease`. */
  ghost predicate HeldBy(w: World, lease: Key) {
    && 2 in w.tokens && w.tokens[2] == 1 && 1 in w.sessions
    && var d := w.sessions[1];
       && d.state.Connected? && d.viewerState.ViewerConnected? && d.expiresAt.None?
       && !d.requireCode && d.control && d.viewerToken == lease && d.pointerStart.None?
  }

  const FIRST: Offer := Offer(0, 1, 3)
  const SECOND: Offer := Offer(1, 1, 3)

  const OPENING: seq<Event> := [
    Create(CreateRequest(9, 0, false, true, Named), Draw(1, 2, 0, true, Ready, false)),
    Join(2, NONE, NONE, 3)
  ]

  lemma Opened()
    ensures IsRun(Empty, OPENING)
    ensures var w := Exec(Empty, OPENING);
            HeldBy(w, 3) && w.leases == {3} && w.issued == 0 && w.inFlight == {} && w.peers == map[] && w.open == w.closing == {}
  {
    var es: seq<Event> := [];
    assert IsRun(Empty, es) && Exec(Empty, es) == Empty;
    var w1 := Step(Empty, OPENING[0]);
    assert Refresh(Empty) == Empty by { assert RefreshedAll(map[], 0) == map[]; }
    OneMore(Empty, [], OPENING[0]);
    assert es + [OPENING[0]] == [OPENING[0]];
    assert 1 in w1.sessions && w1.tokens == map[2 := 1] && w1.leases == {} && w1.peers == map[] && w1.inFlight == {} && w1.open == w1.closing == {};
    assert [OPENING[0]] + [OPENING[1]] == OPENING;
    OneMore(Empty, [OPENING[0]], OPENING[1]);
  }

  lemma Begun(w: World)
    requires HeldBy(w, 3)
    ensures var t := Step(w, BeginOffer(2, 3));
            && HeldBy(t, 3) && t.leases == w.leases && t.issued == w.issued + 1
            && t.inFlight == w.inFlight + {Offer(w.issued, 1, 3)}
            && (1 !in w.peers ==> t.peers == w.peers && t.closing == w.closing) && t.open == w.open
  {
    BeginOfferOf(w, 2, 1);
  }

  lemma Answered(w: World, offer: Offer)
    requires HeldBy(w, 3) && offer.sessionID == 1 && offer.viewerToken == 3
    ensures var t := Step(w, FinishOffer(offer, true));
            && HeldBy(t, 3) && t.leases == w.leases && t.inFlight == w.inFlight - {offer}
            && t.peers == w.peers[1 := offer] && t.open == w.open + {offer} && t.closing == w.closing
  {
    AnswerRegisters(w, offer);
  }

  lemma TakenOver(w: World)
    requires HeldBy(w, 3) && w.leases == {3}
    ensures var t := Step(w, Join(2, NONE, NONE, 4));
            && HeldBy(t, 4) && t.peers == w.peers - {1} && t.open == w.open && t.closing == w.closing + PeerOf(w.peers, 1)
  {}

  const PENDING: seq<Event> := OPENING + [BeginOffer(2, 3), BeginOffer(2, 3)]

  lemma Pending()
    ensures IsRun(Empty, PENDING)
    ensures var w := Exec(Empty, PENDING);
            HeldBy(w, 3) && w.leases == {3} && w.inFlight == {FIRST, SECOND} && w.peers == map[] && w.open == w.closing == {}
  {
    Opened();
    hide Step, HeldBy;
    var w, e := Exec(Empty, OPENING), BeginOffer(2, 3);
    Begun(w);
    OneMore(Empty, OPENING, e);
    Begun(Step(w, e));
    OneMore(Empty, OPENING + [e], e);
    assert OPENING + [e] + [e] == PENDING;
  }

  const ORPHANING: seq<Event> := PENDING + [FinishOffer(FIRST, true), FinishOffer(SECOND, true)]

  lemma Orphaned()
    ensures IsRun(Empty, ORPHANING)
    ensures var w := Exec(Empty, ORPHANING);
            HeldBy(w, 3) && w.leases == {3} && w.peers == map[1 := SECOND] && w.open == {FIRST, SECOND} && w.closing == {}
  {
    Pending();
    hide Step, HeldBy;
    var w, first, second := Exec(Empty, PENDING), FinishOffer(FIRST, true), FinishOffer(SECOND, true);
    Answered(w, FIRST);
    OneMore(Empty, PENDING, first);
    Answered(Step(w, first), SECOND);
    OneMore(Empty, PENDING + [first], second);
    assert PENDING + [first] + [second] == ORPHANING;
  }

  lemma LeftToTheFirst(w: World, at: Point)
    requires HeldBy(w, 4) && w.peers == map[] && w.open == {FIRST, SECOND} && w.closing == {SECOND}
    ensures Enabled(w, PeerClosed(SECOND))
    ensures var t := Step(w, PeerClosed(SECOND));
            && HeldBy(t, 4) && t.peers == map[] && t.closing == {}
            && Enabled(t, PeerControl(FIRST, Down(at)))
            && 1 in Step(t, PeerControl(FIRST, Down(at))).sessions
            && Step(t, PeerControl(FIRST, Down(at))).sessions[1].pointerStart == Some(at)
  {}

  /**
   A viewer begins two offers and both are answered; a second viewer joins, and the connection the
   server then closes is the newer one. From the older one the first viewer still moves the
   second one's pointer.
   */
  lemma OrphanControlsUnderNewLease(at: Point)
    ensures var es := ORPHANING + [Join(2, NONE, NONE, 4), PeerClosed(SECOND)];
            && IsRun(Empty, es)
            && var w := Exec(Empty, es);
               && 1 in w.sessions && w.sessions[1].viewerToken == 4 && w.sessions[1].pointerStart == None
               && w.peers == map[] && w.closing == {}
               && Enabled(w, PeerControl(FIRST, Down(at)))
               && 1 in Step(w, PeerControl(FIRST, Down(at))).sessions
               && Step(w, PeerControl(FIRST, Down(at))).sessions[1].pointerStart == Some(at)
  {
    Orphaned();
    var w, join := Exec(Empty, ORPHANING), Join(2, NONE, NONE, 4);
    TakenOver(w);
    LeftToTheFirst(Step(w, join), at);
    hide Step;
    OneMore(Empty, ORPHANING, join);
    OneMore(Empty, ORPHANING + [join], PeerClosed(SECOND));
    assert ORPHANING + [join] + [PeerClosed(SECOND)] == ORPHANING + [join, PeerClosed(SECOND)];
  }

  const CLOSING: seq<Event> := OPENING + [BeginOffer(2, 3), FinishOffer(FIRST, true), Join(2, NONE, NONE, 4)]

  lemma TakenOut()
    ensures IsRun(Empty, CLOSING) && OneAtATime(Empty, CLOSING)
    ensures var w := Exec(Empty, CLOSING); HeldBy(w, 4) && w.peers == map[] && w.open == w.closing == {FIRST}
  {
    Opened();
    hide Step, HeldBy;
    var w, begin, finish, join := Exec(Empty, OPENING), BeginOffer(2, 3), FinishOffer(FIRST, true), Join(2, NONE, NONE, 4);
    Begun(w);
    OneMore(Empty, OPENING, begin);
    Answered(Step(w, begin), FIRST);
    OneMore(Empty, OPENING + [begin], finish);
    TakenOver(Step(Step(w, begin), finish));
    OneMore(Empty, OPENING + [begin] + [finish], join);
    assert OPENING + [begin] + [finish] + [join] == CLOSING;
    OneBegin(Empty, OPENING, CLOSING[2..]);
    assert OPENING + CLOSING[2..] == CLOSING;
  }

  /** A run with one beginning of an offer, when none is in flight, has them one at a time. */
  lemma {:induction false} OneBegin(w: World, es: seq<Event>, fs: seq<Event>)
    requires IsRun(w, es + fs) && IsRun(w, es) && Exec(w, es).inFlight == {}
    requires forall i :: 0 <= i < |es| ==> !es[i].BeginOffer?
    requires forall i :: 0 < i < |fs| ==> !fs[i].BeginOffer?
    ensures OneAtATime(w, es + fs)
    decreases |es|
  {
    hide Step, Enabled;
    if es == [] {
      assert es + fs == fs;
      if fs != [] { NoBegin(Step(w, fs[0]), fs[1..]); }
    } else {
      assert (es + fs)[1..] == es[1..] + fs;
      OneBegin(Step(w, es[0]), es[1..], fs);
    }
  }

  lemma {:induction false} NoBegin(w: World, es: seq<Event>)
    requires IsRun(w, es) && forall i :: 0 <= i < |es| ==> !es[i].BeginOffer?
    ensures OneAtATime(w, es)
    decreases |es|
  {
    hide Step, Enabled;
    if es != [] { NoBegin(Step(w, es[0]), es[1..]); }
  }

  lemma StillHeard(w: World, at: Point)
    requires HeldBy(w, 4) && w.open == {FIRST}
    ensures Enabled(w, PeerControl(FIRST, Down(at)))
    ensures var t := Step(w, PeerControl(FIRST, Down(at))); 1 in t.sessions && t.sessions[1].pointerStart == Some(at)
  {}

  /**
   One offer, answered, and a second viewer joins: between the unlock and the return of the close
   call the first viewer still moves the second one's pointer.
   */
  lemma ClosingPeerControlsUnderNewLease(at: Point)
    ensures IsRun(Empty, CLOSING) && OneAtATime(Empty, CLOSING)
    ensures var w := Exec(Empty, CLOSING);
            && 1 in w.sessions && w.sessions[1].viewerToken == 4 && w.sessions[1].pointerStart == None
            && w.peers == map[] && w.closing == {FIRST}
            && Enabled(w, PeerControl(FIRST, Down(at)))
            && 1 in Step(w, PeerControl(FIRST, Down(at))).sessions
            && Step(w, PeerControl(FIRST, Down(at))).sessions[1].pointerStart == Some(at)
  {
    TakenOut();
    StillHeard(Exec(Empty, CLOSING), at);
    hide Step;
  }
}
