/**
 The one-shot login challenge: a rate-limited request mints an attempt, a login consumes it
 and forwards the browser's proof. Requests interleave between their critical sections; the
 background sign-in mints attempts into the same slot.
 */
module Challenge {
  import opened Options

  /** Milliseconds. */
  const CHALLENGE_TTL: nat := 60_000
  const MIN_INTERVAL: nat := 3_000

  /** `serial` numbers the attempts in the order they were minted; the code has no such field. */
  datatype Attempt = Attempt(serial: nat, challengeID: string, username: string, serviceURL: string, mintedAt: nat)

  function ExpiresAt(a: Attempt): nat { a.mintedAt + CHALLENGE_TTL }

  datatype Request = Request(username: string, serviceURL: string)

  /** A login past its consuming step: the attempt it took and what it presented. */
  datatype Login = Login(attempt: Attempt, username: string)

  datatype Forwarded = Forwarded(serial: nat, challengeID: string, username: string, serviceURL: string, checkedAt: nat)

  /**
   `pending` are challenge requests between the slot and the mint, `logins` those between
   consuming and checking. `accepted`, `minted` and `forwarded` are histories, as are the
   number of `auto` mints.
   */
  datatype State = State(
    now: nat, lastActionAt: Option<nat>, attempt: Option<Attempt>,
    pending: map<nat, Request>, logins: map<nat, Login>,
    accepted: seq<nat>, minted: seq<Attempt>, auto: nat, forwarded: seq<Forwarded>)

  datatype Event =
    | Tick(ms: nat)
    | ChallengeRequest(id: nat, request: Request)   // acquireActionSlot
    | ChallengeFails(id: nat)                       // validation or the proxied call failed
    | Mint(id: nat, challengeID: string)            // proxyChallenge stores the attempt
    | AutoMint(request: Request, challengeID: string)
    | Consume(id: nat, username: string, challengeID: string)
    | Check(id: nat)

  const INITIAL: State := State(0, None, None, map[], map[], [], [], 0, [])

  predicate SlotFree(s: State) { s.lastActionAt.None? || s.now >= s.lastActionAt.value + MIN_INTERVAL }

  function Store(s: State, request: Request, challengeID: string): State {
    var a := Attempt(|s.minted|, challengeID, request.username, request.serviceURL, s.now);
    s.(attempt := Some(a), minted := s.minted + [a])
  }

  predicate MayForward(l: Login, now: nat) { now <= ExpiresAt(l.attempt) && l.username == l.attempt.username }

  function Forward(l: Login, now: nat): Forwarded {
    Forwarded(l.attempt.serial, l.attempt.challengeID, l.username, l.attempt.serviceURL, now)
  }

  function Step(s: State, e: Event): State {
    match e
    case Tick(ms) => s.(now := s.now + ms)
    case ChallengeRequest(id, request) =>
      if id in s.pending || !SlotFree(s) then s
      else s.(lastActionAt := Some(s.now), accepted := s.accepted + [s.now], pending := s.pending[id := request])
    case ChallengeFails(id) => s.(pending := s.pending - {id})
    case Mint(id, challengeID) =>
      if id !in s.pending then s else Store(s, s.pending[id], challengeID).(pending := s.pending - {id})
    case AutoMint(request, challengeID) => Store(s, request, challengeID).(auto := s.auto + 1)
    case Consume(id, username, challengeID) =>
      if id in s.logins then s
      else if s.attempt.None? || s.attempt.value.challengeID != challengeID then s.(attempt := None)
      else s.(attempt := None, logins := s.logins[id := Login(s.attempt.value, username)])
    case Check(id) =>
      if id !in s.logins then s
      else
        var l := s.logins[id];
        var r := s.(logins := s.logins - {id});
        if MayForward(l, s.now) then r.(forwarded := s.forwarded + [Forward(l, s.now)]) else r
  }

  function Run(s: State, es: seq<Event>): State {
    if es == [] then s else Step(Run(s, es[..|es| - 1]), es[|es| - 1])
  }

  // ---------------------------------------------------------------- what every step keeps

  predicate Spaced(times: seq<nat>) {
    forall i :: 0 <= i < |times| - 1 ==> times[i] + MIN_INTERVAL <= times[i + 1]
  }

  predicate SlotInv(s: State) {
    && Spaced(s.accepted)
    && s.lastActionAt == (if s.accepted == [] then None else Some(s.accepted[|s.accepted| - 1]))
    && (s.lastActionAt.Some? ==> s.lastActionAt.value <= s.now)
    && |s.minted| + |s.pending| <= |s.accepted| + s.auto
  }

  predicate Minted(s: State, a: Attempt) { a.serial < |s.minted| && s.minted[a.serial] == a }

  predicate Unforwarded(s: State, serial: nat) {
    forall i :: 0 <= i < |s.forwarded| ==> s.forwarded[i].serial != serial
  }

  /** An attempt is in one place only: in the slot, with one login, or forwarded once. */
  predicate AttemptInv(s: State) {
    && (forall i :: 0 <= i < |s.minted| ==> s.minted[i].serial == i && s.minted[i].mintedAt <= s.now)
    && (s.attempt.Some? ==> Minted(s, s.attempt.value) && Unforwarded(s, s.attempt.value.serial))
    && (forall id :: id in s.logins ==> Minted(s, s.logins[id].attempt) && Unforwarded(s, s.logins[id].attempt.serial))
    && (s.attempt.Some? ==> forall id :: id in s.logins ==> s.logins[id].attempt.serial != s.attempt.value.serial)
    && (forall id, other :: id in s.logins && other in s.logins && id != other ==>
          s.logins[id].attempt.serial != s.logins[other].attempt.serial)
  }

  /** A forwarded login carries the data of the attempt it consumed and was checked in its lifetime. */
  predicate Faithful(s: State, f: Forwarded) {
    && f.serial < |s.minted|
    && var a := s.minted[f.serial];
       && f.challengeID == a.challengeID && f.username == a.username && f.serviceURL == a.serviceURL
       && f.checkedAt <= a.mintedAt + 60000
  }

  predicate ForwardInv(s: State) {
    && (forall i :: 0 <= i < |s.forwarded| ==> Faithful(s, s.forwarded[i]))
    && (forall i, j :: 0 <= i < j < |s.forwarded| ==> s.forwarded[i].serial != s.forwarded[j].serial)
  }

  predicate Inv(s: State) { SlotInv(s) && AttemptInv(s) && ForwardInv(s) }

  lemma RemoveOne<V>(m: map<nat, V>, id: nat)
    ensures |m - {id}| == if id in m then |m| - 1 else |m|
  {
    if id in m {
      assert m == (m - {id})[id := m[id]];
    } else {
      assert m - {id} == m;
    }
  }

  lemma StepKeepsSlotInv(s: State, e: Event)
    requires SlotInv(s)
    ensures SlotInv(Step(s, e))
  {
    hide SlotInv, Step;
    match e
    case ChallengeRequest(id, request) => RequestKeepsSlotInv(s, id, request);
    case ChallengeFails(id) => MintKeepsSlotInv(s, id, []);
    case Mint(id, challengeID) => MintKeepsSlotInv(s, id, challengeID);
    case _ => OthersKeepSlotInv(s, e);
  }

  lemma OthersKeepSlotInv(s: State, e: Event)
    requires SlotInv(s) && (e.Tick? || e.AutoMint? || e.Consume? || e.Check?)
    ensures SlotInv(Step(s, e))
  {
    var r := Step(s, e);
    assert r.accepted == s.accepted && r.lastActionAt == s.lastActionAt && s.now <= r.now && r.pending == s.pending;
    assert |r.minted| - r.auto == |s.minted| - s.auto;
    hide Step, Spaced;
  }

  lemma MintKeepsSlotInv(s: State, id: nat, challengeID: string)
    requires SlotInv(s)
    ensures SlotInv(Step(s, Mint(id, challengeID))) && SlotInv(Step(s, ChallengeFails(id)))
  {
    hide Spaced;
    RemoveOne(s.pending, id);
  }

  lemma RequestKeepsSlotInv(s: State, id: nat, request: Request)
    requires SlotInv(s)
    ensures SlotInv(Step(s, ChallengeRequest(id, request)))
  {
    if id !in s.pending && SlotFree(s) {
      var after := s.accepted + [s.now];
      assert forall i :: 0 <= i < |s.accepted| ==> after[i] == s.accepted[i];
      assert after[|s.accepted|] == s.now;
    }
  }

  lemma StepKeepsAttemptInv(s: State, e: Event)
    requires AttemptInv(s) && ForwardInv(s)
    ensures AttemptInv(Step(s, e))
  {
    hide ForwardInv, MayForward;
    match e
    case Mint(id, challengeID) => if id in s.pending { StoreKeepsAttemptInv(s, s.pending[id], challengeID); }
    case AutoMint(request, challengeID) => StoreKeepsAttemptInv(s, request, challengeID);
    case Check(id) => CheckKeepsAttemptInv(s, id);
    case Consume(id, username, challengeID) => ConsumeKeepsAttemptInv(s, id, username, challengeID);
    case _ =>
  }

  lemma StoreKeepsAttemptInv(s: State, request: Request, challengeID: string)
    requires AttemptInv(s) && ForwardInv(s)
    ensures AttemptInv(Store(s, request, challengeID))
  {
    var r := Store(s, request, challengeID);
    assert forall i :: 0 <= i < |s.minted| ==> r.minted[i] == s.minted[i];
    assert forall i :: 0 <= i < |s.forwarded| ==> Faithful(s, s.forwarded[i]);
    forall id | id in s.logins ensures s.logins[id].attempt.serial < |s.minted| && Minted(r, s.logins[id].attempt) {
      assert Minted(s, s.logins[id].attempt);
    }
  }

  lemma ConsumeKeepsAttemptInv(s: State, id: nat, username: string, challengeID: string)
    requires AttemptInv(s)
    ensures AttemptInv(Step(s, Consume(id, username, challengeID)))
  {}

  lemma CheckKeepsAttemptInv(s: State, id: nat)
    requires AttemptInv(s)
    ensures AttemptInv(Step(s, Check(id)))
  {
    hide MayForward;
    if id in s.logins {
      var r := Step(s, Check(id));
      forall serial: nat | Unforwarded(s, serial) && serial != s.logins[id].attempt.serial ensures Unforwarded(r, serial) {}
      forall a: Attempt | Minted(s, a) ensures Minted(r, a) {}
      forall other | other in r.logins ensures other in s.logins && other != id {}
    }
  }

  lemma StepKeepsForwardInv(s: State, e: Event)
    requires AttemptInv(s) && ForwardInv(s)
    ensures ForwardInv(Step(s, e))
  {}

  lemma {:induction false} RunKeepsInv(es: seq<Event>)
    ensures Inv(Run(INITIAL, es))
  {
    if es != [] {
      var s, e := Run(INITIAL, es[..|es| - 1]), es[|es| - 1];
      RunKeepsInv(es[..|es| - 1]);
      hide Step, SlotInv, AttemptInv, ForwardInv;
      StepKeepsSlotInv(s, e);
      StepKeepsAttemptInv(s, e);
      StepKeepsForwardInv(s, e);
    }
  }

  // ---------------------------------------------------------------- what it is for

  /**
   In every run each minted attempt is forwarded by at most one browser login, with the user,
   the service and the challenge it was minted for, checked at most 60 s after its minting.
   */
  lemma OneShot(es: seq<Event>)
    ensures var s := Run(INITIAL, es);
            && (forall i :: 0 <= i < |s.forwarded| ==> Faithful(s, s.forwarded[i]))
            && (forall i, j :: 0 <= i < j < |s.forwarded| ==> s.forwarded[i].serial != s.forwarded[j].serial)
  {
    RunKeepsInv(es);
  }

  function Below(n: nat): set<nat> { if n == 0 then {} else Below(n - 1) + {n - 1} }

  lemma {:induction false} BelowSize(n: nat)
    ensures |Below(n)| == n && forall i: nat :: i in Below(n) <==> i < n
  {
    if n > 0 { BelowSize(n - 1); }
  }

  function Serials(fs: seq<Forwarded>): set<nat> {
    if fs == [] then {} else Serials(fs[..|fs| - 1]) + {fs[|fs| - 1].serial}
  }

  lemma {:induction false} SerialsMembers(fs: seq<Forwarded>)
    ensures forall serial :: serial in Serials(fs) <==> exists i :: 0 <= i < |fs| && fs[i].serial == serial
  {
    if fs != [] {
      var n := |fs| - 1;
      SerialsMembers(fs[..n]);
      forall serial ensures serial in Serials(fs) <==> exists i :: 0 <= i < |fs| && fs[i].serial == serial {
        if i :| 0 <= i < n && fs[..n][i].serial == serial { assert fs[i].serial == serial; }
        if i :| 0 <= i < n && fs[i].serial == serial { assert fs[..n][i].serial == serial; }
      }
    }
  }

  lemma {:induction false} SerialsSize(fs: seq<Forwarded>)
    requires forall i, j :: 0 <= i < j < |fs| ==> fs[i].serial != fs[j].serial
    ensures |Serials(fs)| == |fs|
  {
    if fs != [] {
      var n := |fs| - 1;
      SerialsSize(fs[..n]);
      SerialsMembers(fs[..n]);
    }
  }

  lemma SubsetSize(a: set<nat>, b: set<nat>)
    requires a <= b
    ensures |a| <= |b|
  {
    assert b == a + (b - a);
  }

  /** Forwarded browser logins never exceed minted attempts, nor accepted requests plus background mints. */
  lemma ForwardsAreBounded(es: seq<Event>)
    ensures var s := Run(INITIAL, es);
            |s.forwarded| <= |s.minted| <= |s.accepted| + s.auto
  {
    RunKeepsInv(es);
    var s := Run(INITIAL, es);
    SerialsSize(s.forwarded);
    BelowSize(|s.minted|);
    SerialsMembers(s.forwarded);
    assert Serials(s.forwarded) <= Below(|s.minted|) by {
      forall serial | serial in Serials(s.forwarded) ensures serial < |s.minted| {
        var i :| 0 <= i < |s.forwarded| && s.forwarded[i].serial == serial;
        assert Faithful(s, s.forwarded[i]);
      }
    }
    SubsetSize(Serials(s.forwarded), Below(|s.minted|));
  }

  lemma {:induction false} SpacedSpread(times: seq<nat>, i: nat, j: nat)
    requires Spaced(times) && i <= j < |times|
    ensures times[i] + MIN_INTERVAL * (j - i) <= times[j]
    decreases j - i
  {
    if i < j {
      SpacedSpread(times, i, j - 1);
      assert times[j - 1] + MIN_INTERVAL <= times[j - 1 + 1];
    }
  }

  /** The accepted times within `[start, start + length]`. */
  function InWindow(times: seq<nat>, start: nat, length: nat): seq<nat> {
    if times == [] then []
    else
      var rest := InWindow(times[..|times| - 1], start, length);
      var last := times[|times| - 1];
      if start <= last <= start + length then rest + [last] else rest
  }

  /** Spaced times inside a window are themselves spaced, start in it and end where the sequence does or earlier. */
  lemma {:induction false} WindowIsSpaced(times: seq<nat>, start: nat, length: nat)
    requires Spaced(times)
    ensures var w := InWindow(times, start, length);
            && Spaced(w)
            && (forall i :: 0 <= i < |w| ==> start <= w[i] <= start + length)
            && (w != [] ==> times != [] && w[|w| - 1] <= times[|times| - 1])
  {
    if times != [] {
      var n := |times| - 1;
      assert Spaced(times[..n]);
      WindowIsSpaced(times[..n], start, length);
      var rest := InWindow(times[..n], start, length);
      if n > 0 { assert times[n - 1] + MIN_INTERVAL <= times[n]; }
      if rest != [] && start <= times[n] <= start + length {
        var w := rest + [times[n]];
        assert forall i :: 0 <= i < |rest| ==> w[i] == rest[i];
      }
    }
  }

  /** In every run, any window of T seconds holds at most T / 3 + 1 accepted challenge requests. */
  lemma RequestRate(es: seq<Event>, start: nat, length: nat)
    ensures |InWindow(Run(INITIAL, es).accepted, start, length)| <= length / 3000 + 1
  {
    RunKeepsInv(es);
    var times := Run(INITIAL, es).accepted;
    WindowIsSpaced(times, start, length);
    var w := InWindow(times, start, length);
    if w != [] { SpacedSpread(w, 0, |w| - 1); }
  }

  /**
   A login that runs through is forwarded if and only if it names the challenge and the user
   of the stored attempt and is checked within 60 s; whatever its outcome, the slot is empty
   after it, so the same challenge does not work again.
   */
  lemma ForwardedExactly(s: State, id: nat, username: string, challengeID: string, ms: nat)
    requires id !in s.logins
    ensures var r := Step(Step(Step(s, Consume(id, username, challengeID)), Tick(ms)), Check(id));
            && r.attempt == None && id !in r.logins
            && (r.forwarded != s.forwarded <==>
                  && s.attempt.Some? && s.attempt.value.challengeID == challengeID && s.attempt.value.username == username
                  && s.now + ms <= s.attempt.value.mintedAt + 60000)
            && (r.forwarded != s.forwarded ==>
                  r.forwarded == s.forwarded + [Forwarded(s.attempt.value.serial, challengeID, username, s.attempt.value.serviceURL, s.now + ms)])
  {}

  /** A request gets the slot if and only if it is the first or comes 3 s or more after the last one that got it. */
  lemma RequestExactly(s: State, id: nat, request: Request)
    requires id !in s.pending
    ensures var r := Step(s, ChallengeRequest(id, request));
            if s.lastActionAt.None? || s.now - s.lastActionAt.value >= 3000 then
              r == s.(lastActionAt := Some(s.now), accepted := s.accepted + [s.now], pending := s.pending[id := request])
            else r == s
  {}

  /** Whatever was in the slot before, a mint leaves the new attempt there, for the user and service of its request. */
  lemma MintExactly(s: State, id: nat, request: Request, challengeID: string)
    ensures var r := Step(s, AutoMint(request, challengeID));
            r.attempt == Some(Attempt(|s.minted|, challengeID, request.username, request.serviceURL, s.now))
    ensures id in s.pending ==>
              var r := Step(s, Mint(id, challengeID));
              && r.attempt == Some(Attempt(|s.minted|, challengeID, s.pending[id].username, s.pending[id].serviceURL, s.now))
              && id !in r.pending
  {}

  /** A request that failed, and a browser's mint without a request, leave nothing behind; a login under way keeps its attempt. */
  lemma FailedRequestMintsNothing(s: State, id: nat, challengeID: string)
    ensures var r := Step(s, ChallengeFails(id));
            Step(r, Mint(id, challengeID)) == r && r.attempt == s.attempt && r.accepted == s.accepted
    ensures id !in s.pending ==> Step(s, Mint(id, challengeID)) == s
    ensures id in s.logins ==> forall username :: Step(s, Consume(id, username, challengeID)) == s
  {}

  // ---------------------------------------------------------------- the service

  /** The fields `mu` guards, a request's local variables kept under its number, and the histories. */
  class RemoteAdminService {
    var lastActionAt: Option<nat>
    var attempt: Option<Attempt>
    ghost var now: nat
    var pending: map<nat, Request>
    var logins: map<nat, Login>
    ghost var accepted: seq<nat>
    var minted: seq<Attempt>
    ghost var auto: nat
    var forwarded: seq<Forwarded>

    ghost function View(): State
      reads this
    {
      State(now, lastActionAt, attempt, pending, logins, accepted, minted, auto, forwarded)
    }

    constructor ()
      ensures View() == INITIAL
    {
      lastActionAt, attempt, now, pending, logins := None, None, 0, map[], map[];
      accepted, minted, auto, forwarded := [], [], 0, [];
    }

    /** `clock` is what time.Now() returns. */
    method AcquireActionSlot(id: nat, request: Request, clock: nat) returns (ok: bool)
      requires clock == now && id !in pending
      modifies this
      ensures View() == Step(old(View()), ChallengeRequest(id, request))
      ensures ok <==> old(lastActionAt).None? || clock - old(lastActionAt).value >= 3000
    {
      if lastActionAt.Some? && clock < lastActionAt.value + MIN_INTERVAL { return false; }
      lastActionAt := Some(clock);
      accepted, pending := accepted + [clock], pending[id := request];
      ok := true;
    }

    /** The last critical section of `proxyChallenge`, for a browser's request. */
    method StoreAttempt(id: nat, challengeID: string, clock: nat)
      requires clock == now && id in pending
      modifies this
      ensures View() == Step(old(View()), Mint(id, challengeID))
    {
      var request := pending[id];
      var a := Attempt(|minted|, challengeID, request.username, request.serviceURL, clock);
      attempt, minted, pending := Some(a), minted + [a], pending - {id};
    }

    /** The same section reached from the background sign-in. */
    method StoreAutoAttempt(request: Request, challengeID: string, clock: nat)
      requires clock == now
      modifies this
      ensures View() == Step(old(View()), AutoMint(request, challengeID))
    {
      var a := Attempt(|minted|, challengeID, request.username, request.serviceURL, clock);
      attempt, minted := Some(a), minted + [a];
      auto := auto + 1;
    }

    /** `HandleLogin` takes the attempt; false is the answer for a missing or different challenge. */
    method ConsumeAttempt(id: nat, username: string, challengeID: string) returns (taken: bool)
      requires id !in logins
      modifies this
      ensures View() == Step(old(View()), Consume(id, username, challengeID))
      ensures taken == (id in logins)
    {
      var a := attempt;
      attempt := None;
      if a.None? || a.value.challengeID != challengeID { return false; }
      logins := logins[id := Login(a.value, username)];
      taken := true;
    }

    /** `HandleLogin` after it: expiry, then the user, then the forwarded login. */
    method CheckAttempt(id: nat, clock: nat) returns (sent: bool)
      requires clock == now && id in logins
      modifies this
      ensures View() == Step(old(View()), Check(id))
      ensures sent <==> clock - old(logins[id]).attempt.mintedAt <= 60000 && old(logins[id]).username == old(logins[id]).attempt.username
    {
      var l := logins[id];
      logins := logins - {id};
      if clock > ExpiresAt(l.attempt) { return false; }
      if l.attempt.username != l.username { return false; }
      forwarded := forwarded + [Forwarded(l.attempt.serial, l.attempt.challengeID, l.username, l.attempt.serviceURL, clock)];
      sent := true;
    }
  }
}
