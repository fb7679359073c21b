/** Whole runs of the V3 relay: any sequence of datagrams and heartbeat ticks,
    each handled as one step, under a clock that never goes back. */
module TunnelV3Runs {
  import opened Net
  import opened Clients
  import opened TunnelV3Spec

  datatype Event = Arrival(at: nat, datagram: Datagram) | Beat(at: nat)

  function Step(cfg: Config, s: State, e: Event): State {
    match e
    case Arrival(at, d) => Receive(cfg, s, d, at).state
    case Beat(at) => Heartbeat(s, at)
  }

  /** The state before event `i`, or at the end when `i == |evs|`. */
  function StateAt(cfg: Config, evs: seq<Event>, i: nat): State
    requires i <= |evs|
  {
    if i == 0 then Init() else Step(cfg, StateAt(cfg, evs, i - 1), evs[i - 1])
  }

  function OutcomeAt(cfg: Config, evs: seq<Event>, i: nat): Outcome
    requires i < |evs| && evs[i].Arrival?
  {
    Receive(cfg, StateAt(cfg, evs, i), evs[i].datagram, evs[i].at)
  }

  predicate Timed(evs: seq<Event>) {
    forall i, j :: 0 <= i < j < |evs| ==> evs[i].at <= evs[j].at
  }

  /** Event `i` is a data packet of `id` that passed the sender check. */
  predicate Accepted(cfg: Config, evs: seq<Event>, i: nat, id: Id)
    requires i < |evs|
  {
    AcceptsFrom(cfg, StateAt(cfg, evs, i), evs[i], id)
  }

  predicate AcceptsFrom(cfg: Config, s: State, e: Event, id: Id) {
    && e.Arrival?
    && var v := Receive(cfg, s, e.datagram, e.at).verdict;
       v.Data? && v.sender == id && Accepts(v.admission)
  }

  predicate AcceptedAt(cfg: Config, evs: seq<Event>, i: nat, id: Id, ep: Endpoint)
    requires i < |evs|
  {
    Accepted(cfg, evs, i, id) && evs[i].datagram.from == ep
  }

  // ---- Capacity, the two tables and the gauge ----

  predicate Consistent(cfg: Config, s: State) {
    && |s.mappings| <= cfg.maxClients
    && s.analyzers == s.mappings.Keys
    && s.activeClients == |s.mappings|
    && (forall id :: id in s.mappings ==> s.mappings[id].endpoint.Some?)
  }

  lemma CleanupKeepsConsistent(cfg: Config, s: State, now: nat)
    requires Consistent(cfg, s)
    ensures Consistent(cfg, Cleanup(s, now))
  {
    SubsetSize(Retained(s.mappings, now).Keys, s.mappings.Keys);
  }

  lemma AdmitKeepsConsistent(cfg: Config, s: State, id: Id, d: Datagram, now: nat)
    requires Consistent(cfg, s)
    ensures Consistent(cfg, Admit(s, id, d.from, now, Decide(cfg, s, id, d, now)))
  {
    var a := Decide(cfg, s, id, d, now);
    var s' := Admit(s, id, d.from, now, a);
    if Accepts(a) {
      assert s'.mappings.Keys == s.mappings.Keys + {id};
      if a.Registered? {
        assert |s'.mappings.Keys| == |s.mappings.Keys| + 1;
      } else {
        assert s'.mappings.Keys == s.mappings.Keys;
      }
    }
  }

  lemma ArrivalKeepsConsistent(cfg: Config, s: State, d: Datagram, now: nat)
    requires Consistent(cfg, s)
    ensures Consistent(cfg, Receive(cfg, s, d, now).state)
  {
    var o := Receive(cfg, s, d, now);
    if o.verdict.Command? {
      CleanupKeepsConsistent(cfg, s.(lastCommand := now), now);
    } else if o.verdict.Data? {
      AdmitKeepsConsistent(cfg, s, o.verdict.sender, d, now);
    }
  }

  /** With atomic steps the table never exceeds max_clients, the analyzer table
      has exactly the keys of the client table, and the active-client gauge is
      the table size, after every event of every run. */
  lemma {:induction false} RunsStayConsistent(cfg: Config, evs: seq<Event>, i: nat)
    requires i <= |evs|
    ensures Consistent(cfg, StateAt(cfg, evs, i))
  {
    if i > 0 {
      RunsStayConsistent(cfg, evs, i - 1);
      var s := StateAt(cfg, evs, i - 1);
      match evs[i - 1]
      case Arrival(at, d) => ArrivalKeepsConsistent(cfg, s, d, at);
      case Beat(at) => CleanupKeepsConsistent(cfg, s.(cleanupCounter := NextCounter(s.cleanupCounter)), at);
    }
  }

  // ---- Endpoint stickiness ----

  /** `id` is held by `ep`, last heard from at `since` or later. */
  predicate HeldSince(s: State, id: Id, ep: Endpoint, since: nat) {
    id in s.mappings && s.mappings[id].endpoint == Some(ep) && s.mappings[id].lastReceive >= since
  }

  lemma StepKeepsHeld(cfg: Config, s: State, e: Event, id: Id, ep: Endpoint, since: nat)
    requires HeldSince(s, id, ep, since)
    requires since <= e.at < since + 30
    ensures HeldSince(Step(cfg, s, e), id, ep, since)
  {
  }

  lemma AcceptanceHolds(cfg: Config, evs: seq<Event>, i: nat, id: Id, ep: Endpoint)
    requires i < |evs| && AcceptedAt(cfg, evs, i, id, ep)
    ensures HeldSince(StateAt(cfg, evs, i + 1), id, ep, evs[i].at)
  {
  }

  lemma {:induction false} HeldThroughout(cfg: Config, evs: seq<Event>, i: nat, j: nat, id: Id, ep: Endpoint)
    requires i < j <= |evs| && Timed(evs) && AcceptedAt(cfg, evs, i, id, ep)
    requires evs[j - 1].at < evs[i].at + 30
    ensures HeldSince(StateAt(cfg, evs, j), id, ep, evs[i].at)
  {
    AcceptanceHolds(cfg, evs, i, id, ep);
    if j > i + 1 {
      HeldThroughout(cfg, evs, i, j - 1, id, ep);
      StepKeepsHeld(cfg, StateAt(cfg, evs, j - 1), evs[j - 1], id, ep, evs[i].at);
    }
  }

  /** Two accepted data packets with one sender id but different endpoints are
      at least the timeout apart, whatever happens in between. */
  lemma EndpointSticks(cfg: Config, evs: seq<Event>, i: nat, j: nat, id: Id, ep: Endpoint, other: Endpoint)
    requires i < j < |evs| && Timed(evs) && ep != other
    requires AcceptedAt(cfg, evs, i, id, ep) && AcceptedAt(cfg, evs, j, id, other)
    ensures evs[j].at - evs[i].at >= 30
  {
    if evs[j].at < evs[i].at + 30 {
      HeldThroughout(cfg, evs, i, j, id, ep);
    }
  }

  // ---- Keep-alive and delivery ----

  predicate SendsData(cfg: Config, e: Event, id: Id, ep: Endpoint) {
    && e.Arrival? && e.datagram.from == ep
    && var header := ParseHeader(e.datagram.packet);
       header.Some? && DataPacket(cfg, e.datagram, id, header.value.1)
  }

  /** The last data packet of `id` from `ep` among events `i` to `x`, event `i` counted in. */
  function LastSent(cfg: Config, evs: seq<Event>, i: nat, x: nat, id: Id, ep: Endpoint): (y: nat)
    requires i <= x < |evs|
    ensures i <= y <= x
  {
    if x == i || SendsData(cfg, evs[x], id, ep) then x else LastSent(cfg, evs, i, x - 1, id, ep)
  }

  /** Event `x` comes less than the timeout after the client's last data packet before it. */
  predicate InTime(cfg: Config, evs: seq<Event>, i: nat, x: nat, id: Id, ep: Endpoint)
    requires i < x < |evs|
  {
    var y := LastSent(cfg, evs, i, x - 1, id, ep);
    evs[x].at < evs[y].at + 30
  }

  predicate KeepsSending(cfg: Config, evs: seq<Event>, i: nat, j: nat, id: Id, ep: Endpoint)
    requires i <= j <= |evs|
  {
    forall x :: i < x < j ==> InTime(cfg, evs, i, x, id, ep)
  }

  /** The maintenance flag before event `x`. */
  predicate FlagOn(cfg: Config, evs: seq<Event>, x: nat)
    requires x <= |evs|
  {
    StateAt(cfg, evs, x).maintenance
  }

  predicate MaintenanceOff(cfg: Config, evs: seq<Event>, i: nat, j: nat)
    requires i <= j <= |evs|
  {
    forall x :: i <= x < j ==> !FlagOn(cfg, evs, x)
  }

  lemma SendRefreshes(cfg: Config, s: State, d: Datagram, now: nat, id: Id, receiver: Id, since: nat)
    requires !s.maintenance && DataPacket(cfg, d, id, receiver) && HeldSince(s, id, d.from, since)
    ensures Receive(cfg, s, d, now) == DataForward(cfg, s, id, receiver, d, now)
    ensures Receive(cfg, s, d, now).verdict == Data(id, Refreshed)
    ensures HeldSince(Receive(cfg, s, d, now).state, id, d.from, now)
  {
  }

  lemma SendExtends(cfg: Config, s: State, e: Event, id: Id, ep: Endpoint, since: nat)
    requires !s.maintenance && SendsData(cfg, e, id, ep) && HeldSince(s, id, ep, since)
    ensures HeldSince(Step(cfg, s, e), id, ep, e.at)
  {
    var d := e.datagram;
    SendRefreshes(cfg, s, d, e.at, id, ParseHeader(d.packet).value.1, since);
  }

  lemma {:induction false} AliveSince(cfg: Config, evs: seq<Event>, i: nat, x: nat, id: Id, ep: Endpoint)
    requires i <= x < |evs| && Timed(evs) && AcceptedAt(cfg, evs, i, id, ep)
    requires KeepsSending(cfg, evs, i, x + 1, id, ep) && MaintenanceOff(cfg, evs, i, x + 1)
    ensures HeldSince(StateAt(cfg, evs, x + 1), id, ep, evs[LastSent(cfg, evs, i, x, id, ep)].at)
  {
    if x == i {
      AcceptanceHolds(cfg, evs, i, id, ep);
    } else {
      AliveSince(cfg, evs, i, x - 1, id, ep);
      assert InTime(cfg, evs, i, x, id, ep) && !FlagOn(cfg, evs, x);
      var since := evs[LastSent(cfg, evs, i, x - 1, id, ep)].at;
      if SendsData(cfg, evs[x], id, ep) {
        SendExtends(cfg, StateAt(cfg, evs, x), evs[x], id, ep, since);
      } else {
        StepKeepsHeld(cfg, StateAt(cfg, evs, x), evs[x], id, ep, since);
      }
    }
  }

  /** While maintenance is off, a client that was accepted once and keeps
      sending at gaps shorter than the timeout is never evicted or rebound:
      after every event its id still belongs to its endpoint. */
  lemma KeepAlive(cfg: Config, evs: seq<Event>, i: nat, j: nat, id: Id, ep: Endpoint)
    requires i < j <= |evs| && Timed(evs) && AcceptedAt(cfg, evs, i, id, ep)
    requires KeepsSending(cfg, evs, i, j, id, ep) && MaintenanceOff(cfg, evs, i, j)
    ensures forall x :: i < x <= j ==> HeldSince(StateAt(cfg, evs, x), id, ep, evs[i].at)
  {
    forall x | i < x <= j ensures HeldSince(StateAt(cfg, evs, x), id, ep, evs[i].at) {
      AliveSince(cfg, evs, i, x - 1, id, ep);
    }
  }

  lemma RoutesToHolder(cfg: Config, s: State, d: Datagram, now: nat, id: Id, peer: Id, peerEp: Endpoint,
                       since: nat, peerSince: nat)
    requires HeldSince(s, id, d.from, since) && HeldSince(s, peer, peerEp, peerSince)
    requires id != peer && d.from != peerEp
    ensures DataForward(cfg, s, id, peer, d, now).sent == Some(Send(peerEp, d.packet))
  {
  }

  /** Between two clients that both keep sending, every data packet goes out
      byte for byte to the peer's endpoint, whatever other traffic, heartbeats
      and commands the run contains. */
  lemma DeliveredToPeer(cfg: Config, evs: seq<Event>, i: nat, k: nat, j: nat,
                        id: Id, ep: Endpoint, peer: Id, peerEp: Endpoint)
    requires i < j < |evs| && k < j && Timed(evs) && id != peer && ep != peerEp
    requires AcceptedAt(cfg, evs, i, id, ep) && AcceptedAt(cfg, evs, k, peer, peerEp)
    requires KeepsSending(cfg, evs, i, j, id, ep) && KeepsSending(cfg, evs, k, j, peer, peerEp)
    requires MaintenanceOff(cfg, evs, i, j + 1) && MaintenanceOff(cfg, evs, k, j + 1)
    requires evs[j].Arrival? && evs[j].datagram.from == ep && DataPacket(cfg, evs[j].datagram, id, peer)
    ensures OutcomeAt(cfg, evs, j).sent == Some(Send(peerEp, evs[j].datagram.packet))
  {
    KeepAlive(cfg, evs, i, j, id, ep);
    KeepAlive(cfg, evs, k, j, peer, peerEp);
    assert !FlagOn(cfg, evs, j);
    var d := evs[j].datagram;
    SendRefreshes(cfg, StateAt(cfg, evs, j), d, evs[j].at, id, peer, evs[i].at);
    RoutesToHolder(cfg, StateAt(cfg, evs, j), d, evs[j].at, id, peer, peerEp, evs[i].at, evs[k].at);
  }

  /** The shortest packet from one client to another, let through by the limiter. */
  function Hello(id: Id, ep: Endpoint, peer: Id): Datagram {
    Datagram(ToLeBytes(id) + ToLeBytes(peer), ep, false, true, true)
  }

  lemma HelloIsData(cfg: Config, id: Id, ep: Endpoint, peer: Id)
    requires id != peer && cfg.validAddress(ep)
    ensures DataPacket(cfg, Hello(id, ep, peer), id, peer)
  {
    HeaderRoundTrip(id, peer, []);
    assert ToLeBytes(id) + ToLeBytes(peer) + [] == ToLeBytes(id) + ToLeBytes(peer);
  }

  lemma HelloRegisters(cfg: Config, s: State, at: nat, id: Id, ep: Endpoint, peer: Id)
    requires id != peer && cfg.validAddress(ep) && !s.maintenance && id !in s.mappings && |s.mappings| < cfg.maxClients
    ensures AcceptsFrom(cfg, s, Arrival(at, Hello(id, ep, peer)), id)
    ensures var s' := Step(cfg, s, Arrival(at, Hello(id, ep, peer)));
      && s'.mappings == s.mappings[id := Client(Some(ep), at)]
      && !s'.maintenance && s'.lastCommand == s.lastCommand && s'.cleanupCounter == s.cleanupCounter
  {
    HelloIsData(cfg, id, ep, peer);
  }

  lemma BothRegister(cfg: Config, evs: seq<Event>, id: Id, ep: Endpoint, peer: Id, peerEp: Endpoint)
    requires cfg.maxClients >= 2 && id != peer && ep != peerEp && cfg.validAddress(ep) && cfg.validAddress(peerEp)
    requires |evs| >= 2 && evs[0] == Arrival(0, Hello(id, ep, peer)) && evs[1] == Arrival(0, Hello(peer, peerEp, id))
    ensures AcceptedAt(cfg, evs, 0, id, ep) && AcceptedAt(cfg, evs, 1, peer, peerEp)
    ensures var s := StateAt(cfg, evs, 2);
      s.mappings == map[id := Client(Some(ep), 0), peer := Client(Some(peerEp), 0)] && !s.maintenance
  {
    HelloRegisters(cfg, StateAt(cfg, evs, 0), 0, id, ep, peer);
    assert StateAt(cfg, evs, 1).mappings == map[id := Client(Some(ep), 0)];
    HelloRegisters(cfg, StateAt(cfg, evs, 1), 0, peer, peerEp, id);
  }

  /** The premises of the delivery theorem can be met: from an empty server any
      two clients get through to each other with the first packet after both
      have spoken. */
  lemma ClientsMeet(cfg: Config, id: Id, ep: Endpoint, peer: Id, peerEp: Endpoint) returns (evs: seq<Event>)
    requires cfg.maxClients >= 2 && id != peer && ep != peerEp && cfg.validAddress(ep) && cfg.validAddress(peerEp)
    ensures |evs| == 3 && Timed(evs)
    ensures AcceptedAt(cfg, evs, 0, id, ep) && AcceptedAt(cfg, evs, 1, peer, peerEp)
    ensures evs[2] == Arrival(0, Hello(id, ep, peer))
    ensures OutcomeAt(cfg, evs, 2).sent == Some(Send(peerEp, Hello(id, ep, peer).packet))
  {
    var first, answer := Arrival(0, Hello(id, ep, peer)), Arrival(0, Hello(peer, peerEp, id));
    evs := [first, answer, first];
    BothRegister(cfg, evs, id, ep, peer, peerEp);
    HelloIsData(cfg, id, ep, peer);
    DataPacketExact(cfg, StateAt(cfg, evs, 2), Hello(id, ep, peer), 0, id, peer);
  }

  // ---- Maintenance drain ----

  predicate MaintenanceOn(cfg: Config, evs: seq<Event>, i: nat, j: nat)
    requires i <= j <= |evs|
  {
    forall x :: i <= x <= j ==> FlagOn(cfg, evs, x)
  }

  /** The event runs the cleanup: a third heartbeat tick or an authentic
      forced-cleanup command that passes the rate gate. */
  predicate Cleans(cfg: Config, s: State, e: Event) {
    match e
    case Beat(_) => (s.cleanupCounter + 1) % 256 % 3 == 0
    case Arrival(at, d) =>
      && ShapedAsCommand(d) && at >= s.lastCommand + 60
      && cfg.passwordSha1 == Some(d.packet[9..29]) && d.packet[8] == 1
  }

  predicate ShapedAsCommand(d: Datagram) {
    29 <= |d.packet| <= 1472 && ParseHeader(d.packet) == Some((0, 0xFFFF_FFFF))
  }

  /** `m` has only entries of `larger`, none of them altered. */
  ghost predicate Shrunk(m: map<Id, Client>, larger: map<Id, Client>) {
    m.Keys <= larger.Keys && forall id :: id in m ==> m[id] == larger[id]
  }

  predicate HeardBy(s: State, time: int) {
    forall id :: id in s.mappings ==> s.mappings[id].lastReceive <= time
  }

  lemma HeardStep(cfg: Config, s: State, e: Event, time: nat)
    requires HeardBy(s, time) && e.at <= time
    ensures HeardBy(Step(cfg, s, e), time)
  {
  }

  lemma {:induction false} NeverHeardInFuture(cfg: Config, evs: seq<Event>, i: nat, time: nat)
    requires i <= |evs| && Timed(evs) && (i > 0 ==> evs[i - 1].at <= time)
    ensures HeardBy(StateAt(cfg, evs, i), time)
  {
    if i > 0 {
      NeverHeardInFuture(cfg, evs, i - 1, time);
      HeardStep(cfg, StateAt(cfg, evs, i - 1), evs[i - 1], time);
    }
  }

  lemma MaintenanceStep(cfg: Config, s: State, e: Event)
    requires s.maintenance
    ensures Shrunk(Step(cfg, s, e).mappings, s.mappings)
    ensures e.Arrival? ==>
      var o := Receive(cfg, s, e.datagram, e.at); !o.verdict.Data? && (o.sent.Some? ==> o.verdict == Ping(true))
  {
  }

  /** Event `x` forwards no data and sends nothing but a reply to a ping. */
  predicate OnlyPingsAt(cfg: Config, evs: seq<Event>, x: nat)
    requires x < |evs|
  {
    evs[x].Arrival? ==>
      var o := OutcomeAt(cfg, evs, x);
      !o.verdict.Data? && (o.sent.Some? ==> o.verdict == Ping(true))
  }

  lemma ShrunkAgain(a: map<Id, Client>, b: map<Id, Client>, c: map<Id, Client>)
    requires Shrunk(a, b) && Shrunk(b, c)
    ensures Shrunk(a, c)
  {
  }

  lemma {:induction false} TableShrinks(cfg: Config, evs: seq<Event>, i: nat, j: nat)
    requires i <= j <= |evs| && MaintenanceOn(cfg, evs, i, j)
    ensures Shrunk(StateAt(cfg, evs, j).mappings, StateAt(cfg, evs, i).mappings)
  {
    if i < j {
      TableShrinks(cfg, evs, i, j - 1);
      assert FlagOn(cfg, evs, j - 1);
      MaintenanceStep(cfg, StateAt(cfg, evs, j - 1), evs[j - 1]);
      ShrunkAgain(StateAt(cfg, evs, j).mappings, StateAt(cfg, evs, j - 1).mappings, StateAt(cfg, evs, i).mappings);
    }
  }

  /** While the maintenance flag stays on, no key is added, no last-receive
      time moves and no data is forwarded: the table only shrinks. */
  lemma MaintenanceDrains(cfg: Config, evs: seq<Event>, i: nat, j: nat)
    requires i <= j <= |evs| && MaintenanceOn(cfg, evs, i, j)
    ensures Shrunk(StateAt(cfg, evs, j).mappings, StateAt(cfg, evs, i).mappings)
    ensures forall x :: i <= x < j ==> OnlyPingsAt(cfg, evs, x)
  {
    TableShrinks(cfg, evs, i, j);
    forall x | i <= x < j ensures OnlyPingsAt(cfg, evs, x) {
      assert FlagOn(cfg, evs, x);
      MaintenanceStep(cfg, StateAt(cfg, evs, x), evs[x]);
    }
  }

  lemma ExpiredByThen(cfg: Config, evs: seq<Event>, i: nat, x: nat)
    requires 0 < i <= x < |evs| && Timed(evs) && MaintenanceOn(cfg, evs, i, x)
    requires evs[x].at >= evs[i - 1].at + 30
    ensures HeardBy(StateAt(cfg, evs, x), evs[x].at - 30)
  {
    NeverHeardInFuture(cfg, evs, i, evs[i - 1].at);
    MaintenanceDrains(cfg, evs, i, x);
  }

  lemma CleaningDropsExpired(cfg: Config, s: State, e: Event)
    requires Cleans(cfg, s, e) && HeardBy(s, e.at - 30)
    ensures Step(cfg, s, e).mappings == map[]
  {
    assert Retained(s.mappings, e.at) == map[];
  }

  predicate EmptyAt(cfg: Config, evs: seq<Event>, i: nat)
    requires i <= |evs|
  {
    StateAt(cfg, evs, i).mappings == map[]
  }

  lemma EmptiedBy(cfg: Config, evs: seq<Event>, i: nat, x: nat)
    requires 0 < i <= x < |evs| && Timed(evs) && MaintenanceOn(cfg, evs, i, x)
    requires Cleans(cfg, StateAt(cfg, evs, x), evs[x])
    requires evs[x].at >= evs[i - 1].at + 30
    ensures EmptyAt(cfg, evs, x + 1)
  {
    ExpiredByThen(cfg, evs, i, x);
    CleaningDropsExpired(cfg, StateAt(cfg, evs, x), evs[x]);
  }

  lemma StaysEmpty(cfg: Config, evs: seq<Event>, i: nat, j: nat)
    requires i <= j <= |evs| && MaintenanceOn(cfg, evs, i, j) && EmptyAt(cfg, evs, i)
    ensures EmptyAt(cfg, evs, j)
  {
    MaintenanceDrains(cfg, evs, i, j);
  }

  /** Once the flag has been on for the timeout, the first cleanup empties the
      table, and it stays empty while the flag stays on. */
  lemma MaintenanceEmpties(cfg: Config, evs: seq<Event>, i: nat, x: nat, j: nat)
    requires 0 < i <= x < j <= |evs| && Timed(evs)
    requires MaintenanceOn(cfg, evs, i, x) && MaintenanceOn(cfg, evs, x + 1, j)
    requires Cleans(cfg, StateAt(cfg, evs, x), evs[x])
    requires evs[x].at >= evs[i - 1].at + 30
    ensures EmptyAt(cfg, evs, j)
  {
    EmptiedBy(cfg, evs, i, x);
    StaysEmpty(cfg, evs, x + 1, j);
  }

  /** Event `x` runs the cleanup at a time when client record `c` is timed out. */
  predicate Expires(cfg: Config, evs: seq<Event>, x: nat, c: Client)
    requires x < |evs|
  {
    Cleans(cfg, StateAt(cfg, evs, x), evs[x]) && evs[x].at >= c.lastReceive + 30
  }

  lemma MaintenanceStepExact(cfg: Config, s: State, e: Event, id: Id)
    requires s.maintenance && id in s.mappings
    ensures id in Step(cfg, s, e).mappings <==> !(Cleans(cfg, s, e) && TimedOut(s.mappings[id], e.at))
    ensures id in Step(cfg, s, e).mappings ==> Step(cfg, s, e).mappings[id] == s.mappings[id]
  {
  }

  /** Exactly which existing connections maintenance keeps: an entry survives,
      unaltered, if and only if no cleanup meets it timed out. As nothing its
      client sends refreshes it, that is only a matter of time. */
  lemma {:induction false} MaintenanceKeepsExactly(cfg: Config, evs: seq<Event>, i: nat, j: nat, id: Id)
    requires i <= j <= |evs| && MaintenanceOn(cfg, evs, i, j) && id in StateAt(cfg, evs, i).mappings
    ensures var c := StateAt(cfg, evs, i).mappings[id];
      && (id in StateAt(cfg, evs, j).mappings <==> forall x :: i <= x < j ==> !Expires(cfg, evs, x, c))
      && (id in StateAt(cfg, evs, j).mappings ==> StateAt(cfg, evs, j).mappings[id] == c)
  {
    if i < j {
      MaintenanceKeepsExactly(cfg, evs, i, j - 1, id);
      assert FlagOn(cfg, evs, j - 1);
      var c := StateAt(cfg, evs, i).mappings[id];
      if id in StateAt(cfg, evs, j - 1).mappings {
        MaintenanceStepExact(cfg, StateAt(cfg, evs, j - 1), evs[j - 1], id);
        assert id in StateAt(cfg, evs, j).mappings <==> !Expires(cfg, evs, j - 1, c);
      } else {
        MaintenanceStep(cfg, StateAt(cfg, evs, j - 1), evs[j - 1]);
      }
    }
  }

  // ---- Cleanup schedule ----

  function BeatCount(evs: seq<Event>, i: nat): nat
    requires i <= |evs|
  {
    if i == 0 then 0 else BeatCount(evs, i - 1) + if evs[i - 1].Beat? then 1 else 0
  }

  lemma CounterStep(cfg: Config, s: State, e: Event)
    ensures Step(cfg, s, e).cleanupCounter == if e.Beat? then (s.cleanupCounter + 1) % 256 else s.cleanupCounter
  {
  }

  /** The u8 counter has wrapped, so after tick `n` it holds n mod 256. */
  lemma {:induction false} CounterWraps(cfg: Config, evs: seq<Event>, i: nat)
    requires i <= |evs|
    ensures StateAt(cfg, evs, i).cleanupCounter == BeatCount(evs, i) % 256
  {
    if i > 0 {
      CounterWraps(cfg, evs, i - 1);
      CounterStep(cfg, StateAt(cfg, evs, i - 1), evs[i - 1]);
    }
  }

  /** Tick `n`, counted from 1 for all time, runs the cleanup. */
  predicate CleaningTick(n: nat) {
    n % 256 % 3 == 0
  }

  lemma TickNumber(n: nat, q: nat, r: nat)
    requires n == 256 * q + r && r < 256
    ensures CleaningTick(n) <==> r % 3 == 0
  {
    assert n % 256 == r;
  }

  lemma OneTickInThreeCleans(n: nat)
    ensures CleaningTick(n) || CleaningTick(n + 1) || CleaningTick(n + 2)
  {
    var q, r := n / 256, n % 256;
    assert n == 256 * q + r;
    if r == 255 {
      TickNumber(n + 1, q + 1, 0);
    } else if r == 254 {
      TickNumber(n + 2, q + 1, 0);
    } else {
      TickNumber(n, q, r);
      TickNumber(n + 1, q, r + 1);
      TickNumber(n + 2, q, r + 2);
      OneInThree(r);
    }
  }

  lemma OneInThree(r: nat)
    ensures r % 3 == 0 || (r + 1) % 3 == 0 || (r + 2) % 3 == 0
  {
    var q := r / 3;
    if r == 3 * q + 1 {
      Thrice(r + 2, q + 1);
    } else if r == 3 * q + 2 {
      Thrice(r + 1, q + 1);
    } else {
      Thrice(r, q);
    }
  }

  lemma Thrice(x: nat, q: nat)
    requires x == 3 * q
    ensures x % 3 == 0
  {
  }

  predicate OnTime(evs: seq<Event>, x: nat)
    requires x < |evs|
  {
    evs[x].at <= 60 * BeatCount(evs, x) && (evs[x].Beat? ==> evs[x].at == 60 * BeatCount(evs, x))
  }

  /** The heartbeat is punctual: its tick n (from 0) happens at second 60 n, and
      no later event is handled before a tick that is due. */
  predicate Punctual(evs: seq<Event>) {
    forall x :: 0 <= x < |evs| ==> OnTime(evs, x)
  }

  lemma {:induction false} FindBeat(evs: seq<Event>, n: nat, j: nat) returns (x: nat)
    requires j <= |evs| && n < BeatCount(evs, j)
    ensures x < j && evs[x].Beat? && BeatCount(evs, x) == n
  {
    if evs[j - 1].Beat? && BeatCount(evs, j - 1) == n {
      x := j - 1;
    } else {
      x := FindBeat(evs, n, j - 1);
    }
  }

  ghost predicate SilentFrom(cfg: Config, evs: seq<Event>, i: nat, id: Id) {
    forall x :: i <= x < |evs| ==> !Accepted(cfg, evs, x, id)
  }

  predicate QuietSince(s: State, id: Id, since: nat) {
    id in s.mappings ==> s.mappings[id].lastReceive <= since
  }

  lemma RejectedLeavesEntry(cfg: Config, s: State, e: Event, id: Id)
    requires !AcceptsFrom(cfg, s, e, id)
    ensures id in Step(cfg, s, e).mappings ==> id in s.mappings && Step(cfg, s, e).mappings[id] == s.mappings[id]
  {
  }

  lemma {:induction false} SilenceLasts(cfg: Config, evs: seq<Event>, i: nat, j: nat, id: Id, since: nat)
    requires i <= j <= |evs| && SilentFrom(cfg, evs, i, id)
    requires QuietSince(StateAt(cfg, evs, i), id, since)
    ensures QuietSince(StateAt(cfg, evs, j), id, since)
  {
    if i < j {
      SilenceLasts(cfg, evs, i, j - 1, id, since);
      assert !Accepted(cfg, evs, j - 1, id);
      RejectedLeavesEntry(cfg, StateAt(cfg, evs, j - 1), evs[j - 1], id);
    }
  }

  lemma {:induction false} StaysOut(cfg: Config, evs: seq<Event>, i: nat, j: nat, id: Id)
    requires i <= j <= |evs| && SilentFrom(cfg, evs, i, id) && id !in StateAt(cfg, evs, i).mappings
    ensures id !in StateAt(cfg, evs, j).mappings
  {
    if i < j {
      StaysOut(cfg, evs, i, j - 1, id);
      assert !Accepted(cfg, evs, j - 1, id);
      RejectedLeavesEntry(cfg, StateAt(cfg, evs, j - 1), evs[j - 1], id);
    }
  }

  lemma CleanupTickEvicts(cfg: Config, evs: seq<Event>, n: nat, x: nat, id: Id, since: nat)
    requires x < |evs| && Punctual(evs) && evs[x].Beat? && BeatCount(evs, x) == n && CleaningTick(n + 1)
    requires QuietSince(StateAt(cfg, evs, x), id, since) && 60 * n >= since + 30
    ensures id !in StateAt(cfg, evs, x + 1).mappings
  {
    assert OnTime(evs, x);
    CounterWraps(cfg, evs, x + 1);
    CounterWraps(cfg, evs, x);
  }

  /** The first tick that starts a window of three at or after `time`, and the
      one of the three that cleans. */
  lemma CleaningTickWithin(time: nat) returns (n: nat)
    ensures CleaningTick(n + 1) && time <= 60 * n < time + 180
  {
    n := (time + 59) / 60;
    OneTickInThreeCleans(n + 1);
    if !CleaningTick(n + 1) {
      n := if CleaningTick(n + 2) then n + 1 else n + 2;
    }
  }

  lemma CleaningTickBefore(evs: seq<Event>, i: nat, j: nat, since: nat) returns (tick: nat, x: nat)
    requires i <= j < |evs| && Timed(evs) && Punctual(evs)
    requires i > 0 ==> evs[i - 1].at <= since
    requires evs[j].at >= since + 30 + 180
    ensures i <= x < j && evs[x].Beat? && BeatCount(evs, x) == tick
    ensures CleaningTick(tick + 1) && 60 * tick >= since + 30
  {
    tick := CleaningTickWithin(since + 30);
    assert OnTime(evs, j);
    x := FindBeat(evs, tick, j);
    assert OnTime(evs, x);
  }

  lemma SilentUntil(cfg: Config, evs: seq<Event>, i: nat, x: nat, id: Id, since: nat)
    requires i <= x <= |evs| && Timed(evs) && SilentFrom(cfg, evs, i, id)
    requires i > 0 ==> evs[i - 1].at <= since
    ensures QuietSince(StateAt(cfg, evs, x), id, since)
  {
    NeverHeardInFuture(cfg, evs, i, since);
    SilenceLasts(cfg, evs, i, x, id, since);
  }

  /** With ticks every 60 seconds, an id with no accepted packet after second
      `since` is out of the table 30 + 180 seconds later. */
  lemma SilentClientEvicted(cfg: Config, evs: seq<Event>, i: nat, j: nat, id: Id, since: nat)
    requires i <= j < |evs| && Timed(evs) && Punctual(evs) && SilentFrom(cfg, evs, i, id)
    requires i > 0 ==> evs[i - 1].at <= since
    requires evs[j].at >= since + 30 + 180
    ensures id !in StateAt(cfg, evs, j).mappings
  {
    var tick, x := CleaningTickBefore(evs, i, j, since);
    SilentUntil(cfg, evs, i, x, id, since);
    CleanupTickEvicts(cfg, evs, tick, x, id, since);
    StaysOut(cfg, evs, x + 1, j, id);
  }

  // ---- Commands ----

  /** Event `e` is a command that passes the rate gate, right password or not. */
  predicate PassesGate(cfg: Config, s: State, e: Event) {
    e.Arrival? && ShapedAsCommand(e.datagram) && cfg.passwordSha1.Some? && e.at >= s.lastCommand + 60
  }

  /** An authentic toggle: the sender knows the password hash. */
  predicate Toggles(cfg: Config, s: State, e: Event) {
    && PassesGate(cfg, s, e)
    && cfg.passwordSha1 == Some(e.datagram.packet[9..29])
    && e.datagram.packet[8] == 0
  }

  function GateCount(cfg: Config, evs: seq<Event>, i: nat): nat
    requires i <= |evs|
  {
    if i == 0 then 0
    else GateCount(cfg, evs, i - 1) + if PassesGate(cfg, StateAt(cfg, evs, i - 1), evs[i - 1]) then 1 else 0
  }

  function ToggleCount(cfg: Config, evs: seq<Event>, i: nat): nat
    requires i <= |evs|
  {
    if i == 0 then 0
    else ToggleCount(cfg, evs, i - 1) + if Toggles(cfg, StateAt(cfg, evs, i - 1), evs[i - 1]) then 1 else 0
  }

  lemma GateStep(cfg: Config, s: State, e: Event)
    ensures if PassesGate(cfg, s, e)
      then Step(cfg, s, e).lastCommand == e.at >= s.lastCommand + 60
      else Step(cfg, s, e).lastCommand == s.lastCommand
    ensures Step(cfg, s, e).maintenance == (s.maintenance != Toggles(cfg, s, e))
  {
  }

  lemma {:induction false} GateSpacing(cfg: Config, evs: seq<Event>, i: nat)
    requires i <= |evs| && Timed(evs)
    ensures 60 * GateCount(cfg, evs, i) <= StateAt(cfg, evs, i).lastCommand
    ensures StateAt(cfg, evs, i).lastCommand <= if i == 0 then 0 else evs[i - 1].at
  {
    if i > 0 {
      GateSpacing(cfg, evs, i - 1);
      GateStep(cfg, StateAt(cfg, evs, i - 1), evs[i - 1]);
    }
  }

  /** By second T at most floor(T / 60) commands pass the gate, counting those
      with a wrong password. */
  lemma CommandRate(cfg: Config, evs: seq<Event>, i: nat, time: nat)
    requires i <= |evs| && Timed(evs) && (i > 0 ==> evs[i - 1].at <= time)
    ensures GateCount(cfg, evs, i) <= time / 60
  {
    GateSpacing(cfg, evs, i);
  }

  /** The maintenance flag is the parity of the authentic toggles so far. */
  lemma {:induction false} MaintenanceIsParity(cfg: Config, evs: seq<Event>, i: nat)
    requires i <= |evs|
    ensures StateAt(cfg, evs, i).maintenance <==> ToggleCount(cfg, evs, i) % 2 == 1
  {
    if i > 0 {
      MaintenanceIsParity(cfg, evs, i - 1);
      GateStep(cfg, StateAt(cfg, evs, i - 1), evs[i - 1]);
    }
  }
}
