/**
 The recovery state of the public UDP mapping: where mappings come from, which copy of the
 settings is written where, and what the server advertises. A call holds its own copy of
 the settings between the critical sections of the manager's lock.
 */
module UdpForward {
  import opened GoStrings
  import opened Options

  /** Equality is `sameUDPForward`: the time of discovery does not take part. */
  datatype Mapping = Mapping(host: string, publicPort: int, localPort: int, tunnel: string)

  datatype Source = Manual | Frp

  /** The parts of the settings that matter here. */
  datatype Settings = Settings(source: Source, mapping: Option<Mapping>)

  /** `udp` says that the type field, trimmed, is `udp` whatever its case. */
  datatype Tunnel = Tunnel(name: string, udp: bool, localPort: int, remotePort: int, enabled: bool)

  /** What the management API answers; `host` is the server address read from the configuration. */
  datatype Fetch = Failed | Fetched(tunnels: seq<Tunnel>, host: Option<string>)

  datatype Answer = Answer(mapping: Mapping, isFresh: bool)

  /**
   `copies` are the settings held by calls, `answers` what advertising calls found and have not
   published yet, `bound` is the port of the server's UDP socket.
   */
  datatype State = State(
    memory: Settings, file: Settings, copies: map<nat, Settings>, answers: map<nat, Answer>,
    advertised: Option<Answer>, bound: int, loaded: Option<Mapping>, discovered: set<Mapping>)

  datatype Event =
    | SaveBegin(id: nat, source: Source)          // Save reads the current settings
    | Store(id: nat)                              // the call's copy becomes the snapshot's
    | Persist(id: nat)                            // the call's copy is written to the file
    | SyncBegin(id: nat)                          // Sync reads the settings
    | Reread(id: nat)                             // Sync reads them again after its refresh
    | Discover(id: nat, fetch: Fetch, localPort: int)   // a Sync's refresh, whose answer nobody reads
    | Ask(id: nat, fetch: Fetch)                        // the server's discovery, for its own port
    | Advertise(id: nat)                                // the server publishes what it was answered
    | End(id: nat)

  function Initial(loaded: Settings, bound: int): State {
    State(loaded, loaded, map[], map[], None, bound, loaded.mapping, {})
  }

  // ---------------------------------------------------------------- discovery

  predicate Blank(host: string) { forall i :: 0 <= i < |host| ==> SpaceCode(host[i] as int) }

  predicate ValidFor(m: Mapping, localPort: int) {
    !Blank(m.host) && 1 <= m.publicPort <= 65535 && m.localPort == localPort
  }

  /** What `frpServerHost` refuses. */
  predicate RefusedHost(host: string) { host == "" || '/' in host || '@' in host }

  predicate Targets(t: Tunnel, localPort: int) { t.enabled && t.udp && t.localPort == localPort }

  function FirstTarget(tunnels: seq<Tunnel>, localPort: int): Option<Tunnel> {
    if tunnels == [] then None
    else if Targets(tunnels[0], localPort) then Some(tunnels[0])
    else FirstTarget(tunnels[1..], localPort)
  }

  /** The first enabled UDP tunnel for the port decides, for better or worse. */
  function Discovery(fetch: Fetch, localPort: int): Option<Mapping> {
    if fetch.Failed? then None
    else match FirstTarget(fetch.tunnels, localPort)
      case None => None
      case Some(t) =>
        if fetch.host.None? || RefusedHost(fetch.host.value) || t.remotePort < 1 || t.remotePort > 65535 then None
        else Some(Mapping(fetch.host.value, t.remotePort, localPort, t.name))
  }

  /** `saveUDPForward`: a changed mapping is stored, and the call is left with settings to write. */
  function Remember(s: State, id: nat, m: Mapping): State {
    var r := s.(discovered := s.discovered + {m});
    if s.memory.mapping == Some(m) then r
    else
      var settings := s.memory.(mapping := Some(m));
      r.(memory := settings, copies := s.copies[id := settings])
  }

  /** `restoreUDPForward` */
  function Restore(s: State, localPort: int): Option<Answer> {
    if s.memory.mapping.Some? && ValidFor(s.memory.mapping.value, localPort)
    then Some(Answer(s.memory.mapping.value, false)) else None
  }

  function Answered(s: State, id: nat, fetch: Fetch): State {
    match Discovery(fetch, s.bound)
    case Some(m) => Remember(s, id, m).(answers := s.answers[id := Answer(m, true)])
    case None =>
      match Restore(s, s.bound)
      case Some(stale) => s.(answers := s.answers[id := stale])
      case None => s.(answers := s.answers - {id})
  }

  function Step(s: State, e: Event): State {
    match e
    case SaveBegin(id, source) =>
      s.(copies := s.copies[id := Settings(source, if source.Frp? then s.memory.mapping else None)])
    case Store(id) => if id in s.copies then s.(memory := s.copies[id]) else s
    case Persist(id) => if id in s.copies then s.(file := s.copies[id]) else s
    case SyncBegin(id) => if s.memory.source.Frp? then s.(copies := s.copies[id := s.memory]) else s
    case Reread(id) => if id in s.copies then s.(copies := s.copies[id := s.memory]) else s
    case Discover(id, fetch, localPort) =>
      (match Discovery(fetch, localPort) case Some(m) => Remember(s, id, m) case None => s)
    case Ask(id, fetch) => Answered(s, id, fetch)
    case Advertise(id) => if id in s.answers then s.(advertised := Some(s.answers[id])) else s
    case End(id) => s.(copies := s.copies - {id}, answers := s.answers - {id})
  }

  function Run(s: State, es: seq<Event>): State
    decreases |es|
  {
    if es == [] then s else Run(Step(s, es[0]), es[1..])
  }

  lemma {:induction false} RunConcat(s: State, a: seq<Event>, b: seq<Event>)
    ensures Run(s, a + b) == Run(Run(s, a), b)
    decreases |a|
  {
    hide Step;
    if a == [] {
      assert a + b == b;
    } else {
      assert (a + b)[1..] == a[1..] + b;
      RunConcat(Step(s, a[0]), a[1..], b);
    }
  }

  lemma RunOne(s: State, e: Event)
    ensures Run(s, [e]) == Step(s, e)
  {
    hide Step;
    assert [e][1..] == [];
  }

  // ---------------------------------------------------------------- provenance

  predicate Known(s: State, m: Option<Mapping>) { m.None? || m == s.loaded || m.value in s.discovered }

  /** A fresh answer was discovered, an old one is valid; both are for the bound port and name a public one. */
  predicate Sound(s: State, a: Answer) {
    && Known(s, Some(a.mapping))
    && (a.isFresh ==> a.mapping in s.discovered)
    && (!a.isFresh ==> !Blank(a.mapping.host))
    && a.mapping.localPort == s.bound && 1 <= a.mapping.publicPort <= 65535
  }

  predicate Inv(s: State) {
    && Known(s, s.memory.mapping)
    && Known(s, s.file.mapping)
    && (forall id :: id in s.copies ==> Known(s, s.copies[id].mapping))
    && (forall id :: id in s.answers ==> Sound(s, s.answers[id]))
    && (s.advertised.Some? ==> Sound(s, s.advertised.value))
  }

  lemma RememberKeepsInv(s: State, id: nat, m: Mapping)
    requires Inv(s)
    ensures Inv(Remember(s, id, m))
  {
    hide Blank;
    var r := Remember(s, id, m);
    forall x: Option<Mapping> | Known(s, x) ensures Known(r, x) {}
    forall a: Answer | Sound(s, a) ensures Sound(r, a) {}
  }

  lemma AskKeepsInv(s: State, id: nat, fetch: Fetch)
    requires Inv(s)
    ensures Inv(Answered(s, id, fetch))
  {
    hide Blank;
    var r := Answered(s, id, fetch);
    match Discovery(fetch, s.bound) {
      case Some(m) =>
        RememberKeepsInv(s, id, m);
        assert Sound(Remember(s, id, m), Answer(m, true));
      case None =>
    }
    forall x: Option<Mapping> | Known(s, x) ensures Known(r, x) {}
    forall a: Answer | Sound(s, a) ensures Sound(r, a) {}
  }

  lemma StepKeepsInv(s: State, e: Event)
    requires Inv(s)
    ensures Inv(Step(s, e)) && Step(s, e).loaded == s.loaded && Step(s, e).bound == s.bound
  {
    match e
    case Discover(id, fetch, localPort) =>
      if Discovery(fetch, localPort).Some? { RememberKeepsInv(s, id, Discovery(fetch, localPort).value); }
    case Ask(id, fetch) => AskKeepsInv(s, id, fetch);
    case _ => OthersKeepInv(s, e);
  }

  lemma OthersKeepInv(s: State, e: Event)
    requires Inv(s) && !e.Discover? && !e.Ask?
    ensures Inv(Step(s, e))
  {
    hide Blank;
    var r := Step(s, e);
    assert r.loaded == s.loaded && r.discovered == s.discovered && r.bound == s.bound;
    forall x: Option<Mapping> ensures Known(s, x) == Known(r, x) {}
    forall a: Answer ensures Sound(s, a) == Sound(r, a) {}
    hide Known, Sound;
  }

  lemma {:induction false} RunKeepsInv(s: State, es: seq<Event>)
    requires Inv(s)
    ensures Inv(Run(s, es)) && Run(s, es).loaded == s.loaded && Run(s, es).bound == s.bound
    decreases |es|
  {
    hide Inv, Step;
    if es != [] {
      StepKeepsInv(s, es[0]);
      RunKeepsInv(Step(s, es[0]), es[1..]);
    }
  }

  /** The mapping an event discovers, if it is a discovery and succeeds. */
  function FoundBy(e: Event, bound: int): Option<Mapping> {
    match e
    case Discover(_, fetch, localPort) => Discovery(fetch, localPort)
    case Ask(_, fetch) => Discovery(fetch, bound)
    case _ => None
  }

  predicate FoundIn(es: seq<Event>, bound: int, m: Mapping) {
    exists i :: 0 <= i < |es| && FoundBy(es[i], bound) == Some(m)
  }

  lemma StepDiscovers(s: State, e: Event)
    ensures Step(s, e).bound == s.bound
    ensures Step(s, e).discovered == match FoundBy(e, s.bound) case Some(m) => s.discovered + {m} case None => s.discovered
  {
    hide Discovery, ValidFor;
  }

  /** What counts as discovered is exactly what the discoveries of the run returned. */
  lemma {:induction false} DiscoveredExactly(s: State, es: seq<Event>, m: Mapping)
    ensures m in Run(s, es).discovered <==> m in s.discovered || FoundIn(es, s.bound, m)
    decreases |es|
  {
    hide Step, FoundBy;
    if es != [] {
      StepDiscovers(s, es[0]);
      DiscoveredExactly(Step(s, es[0]), es[1..], m);
      if FoundIn(es, s.bound, m) {
        var i :| 0 <= i < |es| && FoundBy(es[i], s.bound) == Some(m);
        if i > 0 { assert FoundBy(es[1..][i - 1], s.bound) == Some(m); }
      }
      if FoundIn(es[1..], s.bound, m) {
        var i :| 0 <= i < |es[1..]| && FoundBy(es[1..][i], s.bound) == Some(m);
        assert FoundBy(es[i + 1], s.bound) == Some(m);
      }
      if FoundBy(es[0], s.bound) == Some(m) { assert FoundIn(es, s.bound, m); }
    }
  }

  /** The first tunnel that is enabled, of type UDP and for the port. */
  predicate IsFirstTarget(tunnels: seq<Tunnel>, localPort: int, k: nat)
    requires k < |tunnels|
  {
    && tunnels[k].enabled && tunnels[k].udp && tunnels[k].localPort == localPort
    && forall i :: 0 <= i < k ==> !tunnels[i].enabled || !tunnels[i].udp || tunnels[i].localPort != localPort
  }

  /**
   A discovery returns a mapping if and only if the management API answered, a server address was
   read that is not empty and holds neither '/' nor '@', and the first enabled UDP tunnel for the
   port has a public port from 1 to 65535; the mapping is then that tunnel's.
   */
  lemma DiscoveryExactly(fetch: Fetch, localPort: int, m: Mapping)
    ensures Discovery(fetch, localPort) == Some(m) <==>
      && fetch.Fetched? && fetch.host.Some? && fetch.host.value != ""
      && (forall i :: 0 <= i < |fetch.host.value| ==> fetch.host.value[i] != '/' && fetch.host.value[i] != '@')
      && exists k :: 0 <= k < |fetch.tunnels| && IsFirstTarget(fetch.tunnels, localPort, k)
           && 1 <= fetch.tunnels[k].remotePort <= 65535
           && m == Mapping(fetch.host.value, fetch.tunnels[k].remotePort, localPort, fetch.tunnels[k].name)
  {
    hide IsFirstTarget;
    if fetch.Fetched? {
      if fetch.host.Some? { HostsRefused(fetch.host.value); }
      hide RefusedHost;
      var tunnels := fetch.tunnels;
      FirstTargetIsFirst(tunnels, localPort);
      if FirstTarget(tunnels, localPort).Some? {
        var t := FirstTarget(tunnels, localPort).value;
        var j :| 0 <= j < |tunnels| && tunnels[j] == t && IsFirstTarget(tunnels, localPort, j);
        forall k | 0 <= k < |tunnels| && IsFirstTarget(tunnels, localPort, k) ensures tunnels[k] == t {
          FirstTargetsAreOne(tunnels, localPort, j, k);
        }
      } else {
        forall k | 0 <= k < |tunnels| ensures !IsFirstTarget(tunnels, localPort, k) {
          NoTargetIsFirst(tunnels, localPort, k);
        }
      }
    }
  }

  /** The same without the mapping. */
  lemma DiscoverySucceedsExactly(fetch: Fetch, localPort: int)
    ensures Discovery(fetch, localPort).Some? <==>
      && fetch.Fetched? && fetch.host.Some? && fetch.host.value != ""
      && (forall i :: 0 <= i < |fetch.host.value| ==> fetch.host.value[i] != '/' && fetch.host.value[i] != '@')
      && exists k :: 0 <= k < |fetch.tunnels| && IsFirstTarget(fetch.tunnels, localPort, k)
           && 1 <= fetch.tunnels[k].remotePort <= 65535
  {
    hide IsFirstTarget, Discovery;
    if Discovery(fetch, localPort).Some? {
      DiscoveryExactly(fetch, localPort, Discovery(fetch, localPort).value);
    } else if fetch.Fetched? && fetch.host.Some? {
      forall k | 0 <= k < |fetch.tunnels| && IsFirstTarget(fetch.tunnels, localPort, k)
        ensures !(1 <= fetch.tunnels[k].remotePort <= 65535) || Discovery(fetch, localPort).Some? || fetch.host.value == ""
                || exists i :: 0 <= i < |fetch.host.value| && (fetch.host.value[i] == '/' || fetch.host.value[i] == '@')
      {
        DiscoveryExactly(fetch, localPort, Mapping(fetch.host.value, fetch.tunnels[k].remotePort, localPort, fetch.tunnels[k].name));
      }
    }
  }

  /** A stored mapping may be used if and only if its host has a character that is no white space, its public port is a port, and it is for this one. */
  lemma ValidExactly(m: Mapping, localPort: int)
    ensures ValidFor(m, localPort) <==>
      && (exists i :: 0 <= i < |m.host| && !SpaceCode(m.host[i] as int))
      && 1 <= m.publicPort <= 65535 && m.localPort == localPort
  {}

  /** A failed discovery falls back on the mapping in memory, unchanged, if and only if that is a valid one for the port. */
  lemma RestoredExactly(s: State, localPort: int, answer: Answer)
    ensures Restore(s, localPort) == Some(answer) <==>
      && s.memory.mapping == Some(answer.mapping) && !answer.isFresh
      && (exists i :: 0 <= i < |answer.mapping.host| && !SpaceCode(answer.mapping.host[i] as int))
      && 1 <= answer.mapping.publicPort <= 65535 && answer.mapping.localPort == localPort
  {
    ValidExactly(answer.mapping, localPort);
    hide ValidFor;
  }

  lemma HostsRefused(host: string)
    ensures RefusedHost(host) <==> host == "" || exists i :: 0 <= i < |host| && (host[i] == '/' || host[i] == '@')
  {}

  lemma NoTargetIsFirst(tunnels: seq<Tunnel>, localPort: int, k: nat)
    requires k < |tunnels| && !Targets(tunnels[k], localPort)
    ensures !IsFirstTarget(tunnels, localPort, k)
  {}

  lemma FirstTargetsAreOne(tunnels: seq<Tunnel>, localPort: int, j: nat, k: nat)
    requires j < |tunnels| && k < |tunnels| && IsFirstTarget(tunnels, localPort, j) && IsFirstTarget(tunnels, localPort, k)
    ensures j == k
  {
  }

  /** The search stops at the first enabled UDP tunnel for the port. */
  lemma {:induction false} FirstTargetIsFirst(tunnels: seq<Tunnel>, localPort: int)
    ensures match FirstTarget(tunnels, localPort)
      case None => forall i :: 0 <= i < |tunnels| ==> !Targets(tunnels[i], localPort)
      case Some(t) => exists k :: 0 <= k < |tunnels| && tunnels[k] == t && IsFirstTarget(tunnels, localPort, k)
  {
    if tunnels != [] {
      var rest := tunnels[1..];
      if Targets(tunnels[0], localPort) {
        assert IsFirstTarget(tunnels, localPort, 0);
      } else {
        FirstTargetIsFirst(rest, localPort);
        assert forall i :: 0 < i < |tunnels| ==> tunnels[i] == rest[i - 1];
        if FirstTarget(rest, localPort).Some? {
          var t := FirstTarget(rest, localPort).value;
          var k :| 0 <= k < |rest| && rest[k] == t && IsFirstTarget(rest, localPort, k);
          assert tunnels[k + 1] == t && IsFirstTarget(tunnels, localPort, k + 1);
        }
      }
    }
  }

  /**
   In every run, however saves, syncs, discoveries and advertisements interleave, no mapping
   is invented: what memory, the file or the advertisement holds was loaded at the start or
   returned by a discovery of the run; what is advertised is for the bound port, and a fresh
   advertisement was returned by a discovery for that port.
   */
  lemma Provenance(loaded: Settings, bound: int, es: seq<Event>)
    ensures var s := Run(Initial(loaded, bound), es);
            && (s.memory.mapping.Some? ==> s.memory.mapping == loaded.mapping || FoundIn(es, bound, s.memory.mapping.value))
            && (s.file.mapping.Some? ==> s.file.mapping == loaded.mapping || FoundIn(es, bound, s.file.mapping.value))
            && (s.advertised.Some? ==>
                  var a := s.advertised.value;
                  && a.mapping.localPort == bound
                  && (Some(a.mapping) == loaded.mapping || FoundIn(es, bound, a.mapping))
                  && (a.isFresh ==> FoundIn(es, bound, a.mapping)))
  {
    hide FoundIn, Run;
    var initial := Initial(loaded, bound);
    RunKeepsInv(initial, es);
    forall m: Mapping ensures m in Run(initial, es).discovered <==> FoundIn(es, bound, m) {
      DiscoveredExactly(initial, es, m);
    }
  }

  /** A recovered advertisement is always valid for the bound port, a fresh one exactly when its host is not blank. */
  lemma AdvertisedValidExactly(loaded: Settings, bound: int, es: seq<Event>)
    requires Run(Initial(loaded, bound), es).advertised.Some?
    ensures var a := Run(Initial(loaded, bound), es).advertised.value;
            && (ValidFor(a.mapping, bound) <==> !Blank(a.mapping.host))
            && (!a.isFresh ==> ValidFor(a.mapping, bound))
  {
    hide Blank;
    RunKeepsInv(Initial(loaded, bound), es);
  }

  /** A blank host passes discovery: `serverAddr = "[ ]:7000"` leaves one blank. */
  lemma BlankHostIsAdvertised()
    ensures var fetch := Fetched([Tunnel("u", true, 3478, 40000, true)], Some(" "));
            var s := Run(Initial(Settings(Frp, None), 3478), [Ask(0, fetch), Advertise(0)]);
            s.advertised == Some(Answer(Mapping(" ", 40000, 3478, "u"), true)) && !ValidFor(s.advertised.value.mapping, 3478)
  {
    var fetch := Fetched([Tunnel("u", true, 3478, 40000, true)], Some(" "));
    var m := Mapping(" ", 40000, 3478, "u");
    assert Discovery(fetch, 3478) == Some(m);
    assert Blank(" ");
    var s := Initial(Settings(Frp, None), 3478);
    TwoSteps(s, Ask(0, fetch), Advertise(0));
  }

  lemma TwoSteps(s: State, d: Event, e: Event)
    ensures Run(s, [d, e]) == Step(Step(s, d), e)
  {
    hide Step, Run;
    assert [d, e] == [d] + [e];
    RunConcat(s, [d], [e]);
    RunOne(s, d);
    RunOne(Step(s, d), e);
  }

  // ---------------------------------------------------------------- calls that do not overlap

  /** Nothing is in flight and the file agrees with memory. */
  predicate Settled(s: State) { s.copies == map[] && s.file == s.memory }

  datatype Operation =
    | SaveSettings(source: Source)
    | FailingSync
    | SucceedingSync(fetch: Fetch, localPort: int)
    | Discovering(fetch: Fetch, localPort: int)
    | Advertising(fetch: Fetch)

  /** The critical sections of one call, in order, with no other call between them. */
  function Sections(op: Operation): seq<Event> {
    match op
    case SaveSettings(source) => [SaveBegin(0, source), Store(0), Persist(0), End(0)]
    case FailingSync => [SyncBegin(0), Store(0), End(0)]
    case SucceedingSync(fetch, localPort) =>
      [SyncBegin(0), Persist(0), Discover(1, fetch, localPort), Persist(1), End(1), Reread(0), Store(0), End(0)]
    case Discovering(fetch, localPort) => [Discover(1, fetch, localPort), Persist(1), End(1)]
    case Advertising(fetch) => [Ask(1, fetch), Persist(1), Advertise(1), End(1)]
  }

  function NewMapping(s: State, op: Operation): Option<Mapping> {
    match op
    case SaveSettings(source) => if source.Frp? then s.memory.mapping else None
    case FailingSync => s.memory.mapping
    case SucceedingSync(fetch, localPort) =>
      if Discovery(fetch, localPort).Some? then Discovery(fetch, localPort) else s.memory.mapping
    case Discovering(fetch, localPort) =>
      if Discovery(fetch, localPort).Some? then Discovery(fetch, localPort) else s.memory.mapping
    case Advertising(fetch) =>
      if Discovery(fetch, s.bound).Some? then Discovery(fetch, s.bound) else s.memory.mapping
  }

  /** One discovery and its write: memory and file get the mapping found, if any. */
  lemma DiscoverSections(s: State, id: nat, fetch: Fetch, localPort: int)
    requires id !in s.copies
    ensures var r := Run(s, [Discover(id, fetch, localPort), Persist(id), End(id)]);
            var found := Discovery(fetch, localPort);
            && r.copies == s.copies
            && r.memory == (if found.Some? then s.memory.(mapping := found) else s.memory)
            && r.file == (if found.Some? && found != s.memory.mapping then r.memory else s.file)
  {
    hide Discovery, ValidFor;
    var a := Step(s, Discover(id, fetch, localPort));
    var b := Step(a, Persist(id));
    ThreeSteps(s, Discover(id, fetch, localPort), Persist(id), End(id));
    assert a.copies - {id} == s.copies;
    hide Run;
  }

  lemma ThreeSteps(s: State, c: Event, d: Event, e: Event)
    ensures Run(s, [c, d, e]) == Step(Step(Step(s, c), d), e)
  {
    hide Step, Run;
    assert [c, d, e] == [c] + [d, e];
    RunConcat(s, [c], [d, e]);
    RunOne(s, c);
    TwoSteps(Step(s, c), d, e);
  }

  predicate Applies(s: State, op: Operation) { op.SucceedingSync? || op.Discovering? || op.Advertising? ==> s.memory.source.Frp? }

  /**
   A call that nothing overlaps leaves memory and file in agreement, with the mapping that
   `NewMapping` names. A mapping held is lost if and only if the settings are saved as manual.
   */
  lemma CallKeepsSettled(s: State, op: Operation)
    requires Settled(s) && Applies(s, op)
    ensures var r := Run(s, Sections(op));
            && Settled(r) && r.memory.mapping == NewMapping(s, op)
            && (s.memory.mapping.Some? ==> (r.memory.mapping.None? <==> op == SaveSettings(Manual)))
  {
    hide Discovery, ValidFor, Run;
    match op
    case SaveSettings(source) =>
      assert Sections(op) == [SaveBegin(0, source)] + [Store(0), Persist(0), End(0)];
      RunConcat(s, [SaveBegin(0, source)], [Store(0), Persist(0), End(0)]);
      RunOne(s, SaveBegin(0, source));
      ThreeSteps(Step(s, SaveBegin(0, source)), Store(0), Persist(0), End(0));
    case FailingSync => ThreeSteps(s, SyncBegin(0), Store(0), End(0));
    case Discovering(fetch, localPort) => DiscoverSections(s, 1, fetch, localPort);
    case SucceedingSync(fetch, localPort) => SyncKeepsSettled(s, fetch, localPort);
    case Advertising(fetch) => AskSections(s, 1, fetch);
  }

  /** One advertising call: what it stores and writes, and what is advertised afterwards. */
  lemma AskSections(s: State, id: nat, fetch: Fetch)
    requires id !in s.copies
    ensures var r := Run(s, [Ask(id, fetch), Persist(id), Advertise(id), End(id)]);
            var found := Discovery(fetch, s.bound);
            && r.copies == s.copies
            && r.memory == (if found.Some? then s.memory.(mapping := found) else s.memory)
            && r.file == (if found.Some? && found != s.memory.mapping then r.memory else s.file)
            && r.advertised ==
                 if found.Some? then Some(Answer(found.value, true))
                 else if Restore(s, s.bound).Some? then Restore(s, s.bound)
                 else s.advertised
  {
    hide Discovery, Restore, Run;
    var a := Step(s, Ask(id, fetch));
    assert [Ask(id, fetch), Persist(id), Advertise(id), End(id)] == [Ask(id, fetch)] + [Persist(id), Advertise(id), End(id)];
    RunConcat(s, [Ask(id, fetch)], [Persist(id), Advertise(id), End(id)]);
    RunOne(s, Ask(id, fetch));
    ThreeSteps(a, Persist(id), Advertise(id), End(id));
    assert a.copies - {id} == s.copies;
  }

  lemma SyncKeepsSettled(s: State, fetch: Fetch, localPort: int)
    requires Settled(s) && s.memory.source.Frp?
    ensures var op := SucceedingSync(fetch, localPort);
            var r := Run(s, Sections(op));
            Settled(r) && r.memory.mapping == NewMapping(s, op)
  {
    hide Discovery, ValidFor, Run;
    var first, middle := [SyncBegin(0), Persist(0)], [Discover(1, fetch, localPort), Persist(1), End(1)];
    var last := [Reread(0), Store(0), End(0)];
    assert Sections(SucceedingSync(fetch, localPort)) == first + (middle + last);
    RunConcat(s, first, middle + last);
    TwoSteps(s, SyncBegin(0), Persist(0));
    var a := Run(s, first);
    assert a.memory == a.file == s.memory && a.copies == map[0 := s.memory];
    RunConcat(a, middle, last);
    DiscoverSections(a, 1, fetch, localPort);
    ThreeSteps(Run(a, middle), Reread(0), Store(0), End(0));
  }

  // ---------------------------------------------------------------- calls that overlap

  /** What an event writes to memory's mapping, if it writes it. */
  function Written(s: State, e: Event): Option<Option<Mapping>> {
    match e
    case Store(id) => if id in s.copies then Some(s.copies[id].mapping) else None
    case _ => if FoundBy(e, s.bound).Some? then Some(FoundBy(e, s.bound)) else None
  }

  function LastWritten(s: State, es: seq<Event>): Option<Option<Mapping>>
    decreases |es|
  {
    if es == [] then None
    else
      var later := LastWritten(Step(s, es[0]), es[1..]);
      if later.Some? then later else Written(s, es[0])
  }

  predicate SpareOf(id: nat, es: seq<Event>) { forall i :: 0 <= i < |es| ==> es[i].id != id }

  lemma StepWrites(s: State, e: Event)
    ensures Step(s, e).memory.mapping == match Written(s, e) case Some(m) => m case None => s.memory.mapping
  {
    hide Discovery, ValidFor;
  }

  lemma StepSparesCopy(s: State, e: Event, id: nat)
    requires e.id != id && id in s.copies
    ensures id in Step(s, e).copies && Step(s, e).copies[id] == s.copies[id]
  {
    hide Discovery, ValidFor;
  }

  /** Memory holds what was written last; a call's copy stays what it was. */
  lemma {:induction false} RunWrites(s: State, es: seq<Event>, id: nat)
    requires id in s.copies && SpareOf(id, es)
    ensures var t := Run(s, es);
            && t.memory.mapping == (match LastWritten(s, es) case Some(m) => m case None => s.memory.mapping)
            && id in t.copies && t.copies[id] == s.copies[id]
    decreases |es|
  {
    hide Step, Written;
    if es != [] {
      StepWrites(s, es[0]);
      StepSparesCopy(s, es[0], id);
      assert SpareOf(id, es[1..]) by { assert forall i :: 0 <= i < |es[1..]| ==> es[1..][i] == es[i + 1]; }
      RunWrites(Step(s, es[0]), es[1..], id);
    }
  }

  /**
   Every store and every write of a call's copy, whatever the call and whatever other calls did
   since it took the copy: it puts the copy's mapping in place of what memory holds, and that is
   another one if and only if the last of those events to write memory's mapping, a discovery or
   another call's store, wrote another one than the copy's, or none did and the copy differed at
   the start.
   */
  lemma WriteExactly(s: State, id: nat, es: seq<Event>)
    requires id in s.copies && SpareOf(id, es)
    ensures var t, last, mine := Run(s, es), LastWritten(s, es), s.copies[id].mapping;
            var stored, written := Step(t, Store(id)), Step(t, Persist(id));
            var stale := (if last.Some? then last.value else s.memory.mapping) != mine;
            && stored.memory.mapping == mine && written.file.mapping == mine
            && (stored.memory.mapping != t.memory.mapping <==> stale)
            && (written.file.mapping != written.memory.mapping <==> stale)
  {
    hide Run, LastWritten;
    RunWrites(s, es, id);
  }

  /**
   The event leaves the call with a copy of the settings in force: a Sync reads them once or
   again, a save of 88FRP settings takes the mapping over, and a discovery of a new mapping
   stores it and is left with the settings to write.
   */
  predicate TakesCopy(s: State, e: Event, id: nat) {
    || (e == SyncBegin(id) && s.memory.source.Frp?)
    || (e == Reread(id) && id in s.copies)
    || e == SaveBegin(id, Frp)
    || (e.id == id && FoundBy(e, s.bound).Some? && FoundBy(e, s.bound) != s.memory.mapping)
  }

  /** The mapping the call's copy then has. */
  function CopiedMapping(s: State, e: Event): Option<Mapping> {
    if FoundBy(e, s.bound).Some? then FoundBy(e, s.bound) else s.memory.mapping
  }

  lemma CopyIsCurrent(s: State, e: Event, id: nat)
    requires TakesCopy(s, e, id)
    ensures var u := Step(s, e);
            id in u.copies && u.copies[id].mapping == u.memory.mapping == CopiedMapping(s, e)
  {
    hide Discovery, ValidFor;
  }

  /**
   A call takes its copy, anything happens in other calls, and then it stores or writes the copy.
   The write goes back behind what memory holds if and only if the last of those events to write
   memory's mapping, a discovery or another call's store, wrote another one than the call's;
   stored, it takes that one out of memory, persisted, it leaves the file without it.
   */
  lemma StaleWriteExactly(s: State, read: Event, id: nat, es: seq<Event>)
    requires TakesCopy(s, read, id) && SpareOf(id, es)
    ensures var t, last, mine := Run(s, [read] + es), LastWritten(Step(s, read), es), CopiedMapping(s, read);
            var stored, written := Step(t, Store(id)), Step(t, Persist(id));
            && stored.memory.mapping == mine && written.file.mapping == mine
            && (stored.memory.mapping != t.memory.mapping <==> last.Some? && last.value != mine)
            && (written.file.mapping != written.memory.mapping <==> last.Some? && last.value != mine)
  {
    RunConcat(s, [read], es);
    RunOne(s, read);
    hide Run, LastWritten, TakesCopy, CopiedMapping, Step;
    CopyIsCurrent(s, read, id);
    WriteExactly(Step(s, read), id, es);
  }

  /** The last mapping the events discovered. */
  function LastFound(es: seq<Event>, bound: int): Option<Mapping> {
    if es == [] then None
    else
      var later := LastFound(es[1..], bound);
      if later.Some? then later else FoundBy(es[0], bound)
  }

  lemma {:induction false} WrittenIsFound(s: State, es: seq<Event>)
    requires forall i :: 0 <= i < |es| ==> !es[i].Store?
    ensures LastWritten(s, es) == match LastFound(es, s.bound) case Some(m) => Some(Some(m)) case None => None
    decreases |es|
  {
    hide Step, FoundBy;
    if es != [] {
      StepDiscovers(s, es[0]);
      WrittenIsFound(Step(s, es[0]), es[1..]);
    }
  }

  /** Where no other call stores, the condition is about the events alone: the last discovery found another mapping. */
  lemma StaleWriteAfterDiscoveries(s: State, read: Event, id: nat, es: seq<Event>)
    requires TakesCopy(s, read, id) && SpareOf(id, es) && forall i :: 0 <= i < |es| ==> !es[i].Store?
    ensures var t := Run(s, [read] + es);
            var lost := LastFound(es, s.bound).Some? && LastFound(es, s.bound) != CopiedMapping(s, read);
            && (Step(t, Store(id)).memory.mapping != t.memory.mapping <==> lost)
            && (Step(t, Persist(id)).file.mapping != t.memory.mapping <==> lost)
  {
    StaleWriteExactly(s, read, id, es);
    StepDiscovers(s, read);
    WrittenIsFound(Step(s, read), es);
    PersistKeepsMemory(Run(s, [read] + es), id);
    hide Run, LastWritten, LastFound, TakesCopy, CopiedMapping, Step;
  }

  lemma PersistKeepsMemory(t: State, id: nat)
    ensures Step(t, Persist(id)).memory == t.memory
  {}

  /**
   Such a run: a Sync that read the settings before a discovery of another mapping writes its old
   copy after it. Memory holds the mapping, the file no longer does; stored, the old copy takes
   it out of memory too.
   */
  lemma StaleSyncErases(s: State, fetch: Fetch, localPort: int)
    requires Settled(s) && s.memory.source.Frp?
    requires Discovery(fetch, localPort).Some? && Discovery(fetch, localPort) != s.memory.mapping
    ensures var found := Discovery(fetch, localPort);
            var r := Run(s, [SyncBegin(0)] + [Discover(1, fetch, localPort), Persist(1), End(1)]);
            && r.memory.mapping == r.file.mapping == found
            && Run(r, [Persist(0)]).file.mapping == s.memory.mapping && Run(r, [Persist(0)]).memory.mapping == found
            && Run(r, [Store(0)]).memory.mapping == s.memory.mapping
  {
    hide Discovery, ValidFor, Run;
    RunConcat(s, [SyncBegin(0)], [Discover(1, fetch, localPort), Persist(1), End(1)]);
    RunOne(s, SyncBegin(0));
    var a := Step(s, SyncBegin(0));
    DiscoverSections(a, 1, fetch, localPort);
    var es := [Discover(1, fetch, localPort), Persist(1), End(1)];
    assert SpareOf(0, es);
    RunWrites(a, es, 0);
    var r := Run(a, es);
    RunOne(r, Persist(0));
    RunOne(r, Store(0));
  }

  /**
   An ordinary save of 88FRP settings that read them before a discovery and stores them after it
   takes the mapping out of memory and file.
   */
  lemma StaleSaveErases(s: State, fetch: Fetch, localPort: int)
    requires Settled(s) && Discovery(fetch, localPort).Some? && Discovery(fetch, localPort) != s.memory.mapping
    ensures var found := Run(s, [SaveBegin(0, Frp)] + [Discover(1, fetch, localPort), Persist(1)]);
            var saved := Run(found, [Store(0), Persist(0)]);
            && found.memory.mapping == found.file.mapping == Discovery(fetch, localPort)
            && saved.memory == saved.file == Settings(Frp, s.memory.mapping)
  {
    hide Discovery, ValidFor, Run;
    RunConcat(s, [SaveBegin(0, Frp)], [Discover(1, fetch, localPort), Persist(1)]);
    RunOne(s, SaveBegin(0, Frp));
    var a := Step(s, SaveBegin(0, Frp));
    TwoSteps(a, Discover(1, fetch, localPort), Persist(1));
    var found := Step(Step(a, Discover(1, fetch, localPort)), Persist(1));
    TwoSteps(found, Store(0), Persist(0));
  }

  /** Two discoveries whose writes cross: the file is left with the older mapping, memory with the newer. */
  lemma CrossedWrites(s: State, older: Fetch, newer: Fetch, localPort: int)
    requires Discovery(older, localPort).Some? && Discovery(newer, localPort).Some?
    requires Discovery(older, localPort) != s.memory.mapping && Discovery(newer, localPort) != Discovery(older, localPort)
    ensures var r := Run(s, [Discover(1, older, localPort), Discover(2, newer, localPort)] + [Persist(2), Persist(1)]);
            r.file.mapping == Discovery(older, localPort) && r.memory.mapping == Discovery(newer, localPort)
  {
    hide Discovery, ValidFor, Run;
    var first, second := Discover(1, older, localPort), Discover(2, newer, localPort);
    RunConcat(s, [first, second], [Persist(2), Persist(1)]);
    TwoSteps(s, first, second);
    TwoSteps(Step(Step(s, first), second), Persist(2), Persist(1));
  }

  /** Under manual settings a Sync does not begin, and storing or writing needs a copy. */
  lemma NothingWithoutACopy(s: State, id: nat)
    ensures s.memory.source.Manual? ==> Step(s, SyncBegin(id)) == s
    ensures id !in s.copies ==> Step(s, Store(id)) == Step(s, Persist(id)) == Step(s, Reread(id)) == s
    ensures id !in s.answers ==> Step(s, Advertise(id)) == s
    ensures id !in Step(s, End(id)).copies && id !in Step(s, End(id)).answers
  {}

  /** Finding the same mapping again never repairs the file; the next Sync's write does. */
  lemma OnlyASyncRepairs(s: State, id: nat, fetch: Fetch, localPort: int)
    requires id !in s.copies && s.memory.source.Frp? && s.memory.mapping == Discovery(fetch, localPort)
    ensures var r := Run(s, [Discover(id, fetch, localPort), Persist(id), End(id)]);
            r.file == s.file && r.memory == s.memory && r.copies == s.copies
    ensures Run(s, [SyncBegin(id), Persist(id)]).file == s.memory
  {
    hide Discovery, ValidFor, Run;
    DiscoverSections(s, id, fetch, localPort);
    TwoSteps(s, SyncBegin(id), Persist(id));
  }

  // ---------------------------------------------------------------- the manager and the server

  /** `settings` is the snapshot's; `file` what the settings file holds. */
  class PublicAccessManager {
    var settings: Settings
    var file: Settings

    constructor (loaded: Settings)
      ensures settings == file == loaded
    {
      settings, file := loaded, loaded;
    }

    /** `saveUDPForward`: an unchanged mapping is neither stored nor written again. */
    method SaveUDPForward(m: Mapping) returns (changed: bool)
      modifies this
      ensures changed == (old(settings.mapping) != Some(m))
      ensures settings == old(settings).(mapping := Some(m))
      ensures file == if changed then settings else old(file)
    {
      changed := settings.mapping != Some(m);
      if !changed { return; }
      settings := settings.(mapping := Some(m));
      file := settings;
    }

    method RestoreUDPForward(localPort: int) returns (answer: Option<Answer>)
      ensures answer.Some? <==>
                && settings.mapping.Some?
                && var m := settings.mapping.value;
                   && (exists i :: 0 <= i < |m.host| && !SpaceCode(m.host[i] as int))
                   && 1 <= m.publicPort <= 65535 && m.localPort == localPort
      ensures answer.Some? <==> settings.mapping.Some? && ValidFor(settings.mapping.value, localPort)
      ensures answer.Some? ==> answer.value == Answer(settings.mapping.value, false)
    {
      if settings.mapping.Some? { ValidExactly(settings.mapping.value, localPort); }
      if settings.mapping.None? || !ValidFor(settings.mapping.value, localPort) { return None; }
      answer := Some(Answer(settings.mapping.value, false));
    }

    /**
     `DiscoverUDPForward`: the loop stops at the first enabled UDP tunnel for the port. The
     answer is fresh exactly when this call discovered it, and only then does anything change.
     */
    method DiscoverUDPForward(fetch: Fetch, localPort: int) returns (answer: Option<Answer>)
      modifies this
      ensures settings.source == old(settings.source)
      ensures old(settings.source).Manual? ==> answer == None
      ensures (answer.Some? && answer.value.isFresh) <==>
                && old(settings.source).Frp?
                && fetch.Fetched? && fetch.host.Some? && fetch.host.value != ""
                && (forall i :: 0 <= i < |fetch.host.value| ==> fetch.host.value[i] != '/' && fetch.host.value[i] != '@')
                && exists k :: 0 <= k < |fetch.tunnels| && IsFirstTarget(fetch.tunnels, localPort, k)
                     && 1 <= fetch.tunnels[k].remotePort <= 65535
      ensures (answer.Some? && answer.value.isFresh) <==> old(settings.source).Frp? && Discovery(fetch, localPort).Some?
      ensures answer.Some? && answer.value.isFresh ==>
                settings.mapping == Some(answer.value.mapping) == Discovery(fetch, localPort)
      ensures answer.Some? && answer.value.isFresh ==>
                file == if old(settings.mapping) == settings.mapping then old(file) else settings
      ensures old(settings.source).Frp? && Discovery(fetch, localPort).None? ==>
                if old(settings.mapping).Some? && ValidFor(old(settings.mapping).value, localPort)
                then answer == Some(Answer(old(settings.mapping).value, false)) else answer == None
      ensures !(answer.Some? && answer.value.isFresh) ==> settings == old(settings) && file == old(file)
    {
      DiscoverySucceedsExactly(fetch, localPort);
      hide ValidFor, RefusedHost, Targets, IsFirstTarget;
      if settings.source.Manual? { return None; }
      if fetch.Fetched? {
        var i := 0;
        assert fetch.tunnels[0..] == fetch.tunnels;
        while i < |fetch.tunnels|
          invariant 0 <= i <= |fetch.tunnels|
          invariant FirstTarget(fetch.tunnels, localPort) == FirstTarget(fetch.tunnels[i..], localPort)
        {
          var tunnel := fetch.tunnels[i];
          assert fetch.tunnels[i..][1..] == fetch.tunnels[i + 1..];
          if Targets(tunnel, localPort) {
            if fetch.host.None? || RefusedHost(fetch.host.value) || tunnel.remotePort < 1 || tunnel.remotePort > 65535 {
              answer := RestoreUDPForward(localPort);
              return;
            }
            var m := Mapping(fetch.host.value, tunnel.remotePort, localPort, tunnel.name);
            var _ := SaveUDPForward(m);
            return Some(Answer(m, true));
          }
          i := i + 1;
        }
        assert fetch.tunnels[i..] == [];
      }
      answer := RestoreUDPForward(localPort);
    }

    /** The first section of `Save`, for a form that does not carry the mapping: the copy the call then holds. */
    method ReadForSave(source: Source) returns (input: Settings)
      ensures input.source == source
      ensures input.mapping == if source.Frp? then settings.mapping else None
    {
      input := Settings(source, None);
      var current := settings;
      if input.source.Frp? && input.mapping.None? { input := input.(mapping := current.mapping); }
    }

    /** The second section: the copy becomes the snapshot's settings. */
    method StoreSettings(input: Settings)
      modifies this`settings
      ensures settings == input
    {
      settings := input;
    }

    /** `persist`, outside the lock. */
    method PersistSettings(input: Settings)
      modifies this`file
      ensures file == input
    {
      file := input;
    }

    /** `Save` up to its Sync, with nothing between its sections. */
    method Save(source: Source)
      modifies this
      ensures settings == Settings(source, if source.Frp? then old(settings.mapping) else None)
      ensures file == settings
    {
      var input := ReadForSave(source);
      StoreSettings(input);
      PersistSettings(input);
    }
  }

  class IceServer {
    const manager: PublicAccessManager
    const boundPort: int
    var icePublicHost: string
    var icePublicPort: int
    var iceUDPFresh: bool
    ghost var advertised: Option<Answer>   // the answer the three fields were last taken from

    ghost predicate Valid()
      reads this
    {
      match advertised
      case None => icePublicHost == "" && icePublicPort == 0 && !iceUDPFresh
      case Some(a) =>
        icePublicHost == a.mapping.host && icePublicPort == a.mapping.publicPort && iceUDPFresh == a.isFresh
    }

    /** Manager and server between calls, as a state of the protocol. */
    ghost function View(): State
      reads this, manager
    {
      State(manager.settings, manager.file, map[], map[], advertised, boundPort, None, {})
    }

    constructor (manager: PublicAccessManager, boundPort: int)
      ensures this.manager == manager && this.boundPort == boundPort
      ensures Valid() && advertised == None
    {
      this.manager, this.boundPort := manager, boundPort;
      icePublicHost, icePublicPort, iceUDPFresh, advertised := "", 0, false, None;
    }

    /**
     `advertiseUDPForwardLocked`: the sections of the protocol's advertising call, with the port
     of the server's own socket. Under manual settings nothing is asked and nothing changes.
     */
    method AdvertiseUDPForwardLocked(fetch: Fetch)
      requires Valid()
      modifies this, manager
      ensures Valid()
      ensures old(View()).memory.source.Manual? ==> View() == old(View())
      ensures old(View()).memory.source.Frp? ==>
                var r := Run(old(View()), Sections(Advertising(fetch)));
                manager.settings == r.memory && manager.file == r.file && advertised == r.advertised
    {
      hide Discovery, ValidFor, Run;
      ghost var s := View();
      AskSections(s, 1, fetch);
      var answer := manager.DiscoverUDPForward(fetch, boundPort);
      if answer.None? { return; }
      icePublicHost := answer.value.mapping.host;
      icePublicPort := answer.value.mapping.publicPort;
      iceUDPFresh := answer.value.isFresh;
      advertised := answer;
    }
  }
}
