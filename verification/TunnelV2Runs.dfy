/** Slot requests of the V2 relay, one at a time: which ids are handed out,
    when a request succeeds, and what a failed one leaves behind. */
module TunnelV2Slots {
  import opened Net
  import opened Clients
  import opened Decimal
  import opened TunnelV2Spec

  /** `a` comes up at a point where `b` has not come up yet. */
  ghost predicate Before(draws: seq<I16>, a: I16, b: I16) {
    exists i :: 0 <= i < |draws| && draws[i] == a && b !in draws[..i + 1]
  }

  /** The ids a request may use: distinct draws among the first 1000 that are
      nonzero and not in the table. */
  function Eligible(draws: seq<I16>, taken: set<I16>): set<I16>
    requires |draws| >= MAX_ATTEMPTS
  {
    set d | d in draws[..1000] && d != 0 && d !in taken
  }

  lemma LaterComesUp(draws: seq<I16>, n: nat, a: I16, b: I16)
    requires n <= |draws| && a in draws[..n] && b !in draws[..n]
    ensures Before(draws, a, b)
  {
    var i :| 0 <= i < n && draws[..n][i] == a;
    assert draws[..i + 1] == draws[..n][..i + 1];
  }

  ghost predicate InOrder(draws: seq<I16>, ids: seq<I16>) {
    forall i, j :: 0 <= i < j < |ids| ==> Before(draws, ids[i], ids[j])
  }

  lemma OrderExtends(draws: seq<I16>, n: nat, ids: seq<I16>, d: I16)
    requires n <= |draws| && InOrder(draws, ids) && (forall a :: a in ids ==> a in draws[..n]) && d !in draws[..n]
    ensures InOrder(draws, ids + [d])
  {
    forall i, j | 0 <= i < j < |ids + [d]| ensures Before(draws, (ids + [d])[i], (ids + [d])[j]) {
      if j == |ids| {
        LaterComesUp(draws, n, ids[i], d);
      }
    }
  }

  lemma {:induction false} FreshInOrder(draws: seq<I16>, n: nat, taken: set<I16>)
    requires n <= |draws|
    ensures InOrder(draws, Fresh(draws, n, taken))
  {
    if n > 0 {
      FreshInOrder(draws, n - 1, taken);
      FreshHolds(draws, n - 1, taken);
      if Fresh(draws, n, taken) != Fresh(draws, n - 1, taken) {
        OrderExtends(draws, n - 1, Fresh(draws, n - 1, taken), draws[n - 1]);
      }
    }
  }

  function Elements(ids: seq<I16>): set<I16> {
    set d | d in ids
  }

  lemma {:induction false} DistinctSize(ids: seq<I16>)
    requires Distinct(ids)
    ensures |Elements(ids)| == |ids|
  {
    if ids != [] {
      var n := |ids| - 1;
      DistinctSize(ids[..n]);
      assert ids == ids[..n] + [ids[n]];
      assert Elements(ids) == Elements(ids[..n]) + {ids[n]};
    }
  }

  lemma FreshIsEligible(draws: seq<I16>, taken: set<I16>)
    requires |draws| >= MAX_ATTEMPTS
    ensures Elements(Fresh(draws, MAX_ATTEMPTS, taken)) == Eligible(draws, taken)
    ensures |Fresh(draws, MAX_ATTEMPTS, taken)| == |Eligible(draws, taken)|
  {
    FreshHolds(draws, MAX_ATTEMPTS, taken);
    DistinctSize(Fresh(draws, MAX_ATTEMPTS, taken));
  }

  /** `ids` are the first `clients` eligible ids: distinct, in the order in which
      they first come up, and before every eligible id that was not used. */
  ghost predicate FirstEligible(draws: seq<I16>, taken: set<I16>, clients: nat, ids: seq<I16>)
    requires |draws| >= MAX_ATTEMPTS
  {
    && |ids| == clients
    && (forall d :: d in ids ==> d in Eligible(draws, taken))
    && InOrder(draws, ids)
    && (forall d, used :: d in Eligible(draws, taken) && d !in ids && used in ids ==>
          Before(draws, used, d))
  }

  /** A request gets ids exactly when enough eligible ones come up, and then
      the first ones. */
  lemma AllocationExact(draws: seq<I16>, taken: set<I16>, clients: nat)
    requires |draws| >= MAX_ATTEMPTS
    ensures Allocate(draws, taken, clients).Some? <==> |Eligible(draws, taken)| >= clients
    ensures Allocate(draws, taken, clients).Some? ==>
      FirstEligible(draws, taken, clients, Allocate(draws, taken, clients).value)
  {
    FreshIsEligible(draws, taken);
    FreshInOrder(draws, MAX_ATTEMPTS, taken);
    var all := Fresh(draws, MAX_ATTEMPTS, taken);
    if |all| >= clients {
      forall d, used | d in Eligible(draws, taken) && d !in all[..clients] && used in all[..clients]
        ensures Before(draws, used, d)
      {
        assert d in Elements(all);
        var i :| 0 <= i < clients && all[..clients][i] == used;
        var j :| clients <= j < |all| && all[j] == d;
        assert all[i] == used;
      }
    }
  }

  /** A request that passes the maintenance, count and capacity checks. */
  predicate Admissible(cfg: Config, s: State, clients: nat) {
    !s.maintenance && 2 <= clients <= 8 && |s.mappings| + clients <= cfg.maxClients
  }

  /** The whole of a slot request. It is granted exactly when it passes the
      checks and enough eligible ids come up; then the reply body carries the
      first ones, the table grows by exactly these, all unbound and stamped now,
      and keeps every other entry. Otherwise nothing changes. */
  lemma RequestExact(cfg: Config, s: State, now: nat, clients: nat, draws: seq<I16>)
    requires |draws| >= MAX_ATTEMPTS
    ensures var (s', reply) := Request(cfg, s, now, clients, draws);
      && (reply.Granted? <==> Admissible(cfg, s, clients) && |Eligible(draws, s.mappings.Keys)| >= clients)
      && (!reply.Granted? ==> s' == s)
      && (reply == InMaintenance <==> s.maintenance)
      && (reply == BadCount <==> !s.maintenance && !(2 <= clients <= 8))
      && (reply == NotEnoughSlots <==> !s.maintenance && 2 <= clients <= 8 && |s.mappings| + clients > cfg.maxClients)
      && (reply.Granted? ==>
            var ids := ParseBody(reply.body);
            && ids.Some?
            && FirstEligible(draws, s.mappings.Keys, clients, ids.value)
            && s'.mappings.Keys == s.mappings.Keys + Elements(ids.value)
            && |s'.mappings| == |s.mappings| + clients
            && s'.activeClients == |s'.mappings| && s'.maintenance == s.maintenance && s'.dropped == s.dropped
            && (forall k :: k in s'.mappings ==>
                  s'.mappings[k] == if k in s.mappings then s.mappings[k] else Client(None, now)))
  {
    if Admissible(cfg, s, clients) {
      AllocationExact(draws, s.mappings.Keys, clients);
      var a := Allocate(draws, s.mappings.Keys, clients);
      if a.Some? {
        BodyRoundTrip(a.value);
        FreshHolds(draws, MAX_ATTEMPTS, s.mappings.Keys);
        DistinctSize(a.value);
        assert s.mappings.Keys !! Elements(a.value);
        assert WithSlots(s.mappings, a.value, now).Keys == s.mappings.Keys + Elements(a.value);
      }
    }
  }

  function Upwards(n: nat): (s: set<I16>)
    requires n < 0x8000
    ensures |s| == n && forall i: I16 :: i in s <==> 1 <= i <= n
  {
    if n == 0 then {} else Upwards(n - 1) + {n}
  }

  lemma {:induction false} PickFresh(taken: set<I16>, clients: nat) returns (ids: seq<I16>)
    requires |taken| + clients < 0x8000
    ensures |ids| == clients && Distinct(ids) && forall d :: d in ids ==> d != 0 && d !in taken
  {
    if clients == 0 {
      ids := [];
    } else {
      ids := PickFresh(taken, clients - 1);
      var used := taken + Elements(ids);
      DistinctSize(ids);
      var all := Upwards(|taken| + clients);
      UnionAtMost(taken, Elements(ids));
      if all <= used {
        SubsetSize(all, used);
      }
      var d :| d in all && d !in used;
      ids := ids + [d];
    }
  }

  /** With at most 10000 slots some sequence of draws always succeeds: a request
      that passes the checks is never doomed. */
  lemma SomeDrawsSucceed(cfg: Config, s: State, now: nat, clients: nat)
    requires Admissible(cfg, s, clients) && cfg.maxClients <= 10000
    ensures exists draws :: |draws| >= MAX_ATTEMPTS && Request(cfg, s, now, clients, draws).1.Granted?
  {
    var ids := PickFresh(s.mappings.Keys, clients);
    var draws := ids + seq(MAX_ATTEMPTS, _ => 0);
    var eligible := Eligible(draws, s.mappings.Keys);
    forall d | d in Elements(ids) ensures d in eligible {
      var i :| 0 <= i < |ids| && ids[i] == d;
      assert draws[..MAX_ATTEMPTS][i] == d;
    }
    DistinctSize(ids);
    SubsetSize(Elements(ids), eligible);
    RequestExact(cfg, s, now, clients, draws);
  }
}

/** Whole runs of the V2 relay under a clock that never goes back. */
module TunnelV2Runs {
  import opened Net
  import opened Clients
  import opened Decimal
  import opened TunnelV2Spec
  import Slots = TunnelV2Slots

  type Draws = d: seq<I16> | |d| >= MAX_ATTEMPTS witness seq(MAX_ATTEMPTS, _ => 0)

  /** `allowed` is the answer of the request limiter in front of every HTTP
      handler; HttpRefused is a connection dropped for want of a permit. */
  datatype Event =
    | Udp(at: nat, datagram: Datagram)
    | HttpRequest(at: nat, allowed: bool, clients: nat, draws: Draws)
    | HttpMaintenance(at: nat, allowed: bool, matches: bool)
    | HttpRefused(at: nat)
    | Beat(at: nat)

  function Step(cfg: Config, s: State, e: Event): State {
    match e
    case Udp(at, d) => Receive(cfg, s, d, at).state
    case HttpRequest(at, allowed, clients, draws) => if allowed then Request(cfg, s, at, clients, draws).0 else s
    case HttpMaintenance(_, allowed, matches) => if allowed then Toggle(cfg, s, matches) else s
    case HttpRefused(_) => Refuse(s)
    case Beat(at) => Heartbeat(s, at)
  }

  function StateAt(cfg: Config, evs: seq<Event>, i: nat): State
    requires i <= |evs|
  {
    if i == 0 then Init() else Step(cfg, StateAt(cfg, evs, i - 1), evs[i - 1])
  }

  predicate Timed(evs: seq<Event>) {
    forall i, j :: 0 <= i < j < |evs| ==> evs[i].at <= evs[j].at
  }

  // ---- Keys, capacity, gauge and status ----

  predicate Consistent(cfg: Config, s: State) {
    |s.mappings| <= cfg.maxClients && 0 !in s.mappings && s.activeClients == |s.mappings|
  }

  /** UDP traffic, whatever it is, never changes which slots exist. */
  lemma UdpKeepsKeys(cfg: Config, s: State, d: Datagram, now: nat)
    ensures Receive(cfg, s, d, now).state.mappings.Keys == s.mappings.Keys
    ensures Receive(cfg, s, d, now).state.activeClients == s.activeClients
    ensures Receive(cfg, s, d, now).state.maintenance == s.maintenance
  {
  }

  lemma StepKeepsConsistent(cfg: Config, s: State, e: Event)
    requires Consistent(cfg, s)
    ensures Consistent(cfg, Step(cfg, s, e))
  {
    match e
    case Udp(at, d) =>
      UdpKeepsKeys(cfg, s, d, at);
      assert |Step(cfg, s, e).mappings.Keys| == |s.mappings.Keys|;
    case HttpRequest(at, allowed, clients, draws) => Slots.RequestExact(cfg, s, at, clients, draws);
    case HttpMaintenance(_, _, _) =>
    case HttpRefused(_) =>
    case Beat(at) => SubsetSize(Retained(s.mappings, at).Keys, s.mappings.Keys);
  }

  /** With atomic steps the table never exceeds max_clients, no slot has id 0,
      the gauge is the table size, and /status adds up to max_clients. */
  lemma {:induction false} RunsStayConsistent(cfg: Config, evs: seq<Event>, i: nat)
    requires i <= |evs|
    ensures Consistent(cfg, StateAt(cfg, evs, i))
    ensures var (free, active, dropped) := Status(cfg, StateAt(cfg, evs, i));
      && active == |StateAt(cfg, evs, i).mappings| && free == cfg.maxClients - active >= 0
      && dropped == RefusedSince(evs, i) % 0x1_0000_0000
  {
    if i > 0 {
      RunsStayConsistent(cfg, evs, i - 1);
      StepKeepsConsistent(cfg, StateAt(cfg, evs, i - 1), evs[i - 1]);
    }
    DropsCounted(cfg, evs, i);
  }

  /** Connections refused since the last heartbeat before event `i`. */
  function RefusedSince(evs: seq<Event>, i: nat): nat
    requires i <= |evs|
  {
    if i == 0 || evs[i - 1].Beat? then 0
    else RefusedSince(evs, i - 1) + if evs[i - 1].HttpRefused? then 1 else 0
  }

  lemma OneMoreModulo(n: nat)
    ensures (n % 0x1_0000_0000 + 1) % 0x1_0000_0000 == (n + 1) % 0x1_0000_0000
  {
  }

  lemma DroppedStep(cfg: Config, s: State, e: Event)
    ensures Step(cfg, s, e).dropped ==
      if e.Beat? then 0 else if e.HttpRefused? then (s.dropped + 1) % 0x1_0000_0000 else s.dropped
  {
    if e.HttpRequest? {
      Slots.RequestExact(cfg, s, e.at, e.clients, e.draws);
    }
  }

  /** The drop counter holds the refusals since the last heartbeat, modulo 2^32. */
  lemma {:induction false} DropsCounted(cfg: Config, evs: seq<Event>, i: nat)
    requires i <= |evs|
    ensures StateAt(cfg, evs, i).dropped == RefusedSince(evs, i) % 0x1_0000_0000
  {
    if i > 0 {
      DropsCounted(cfg, evs, i - 1);
      DroppedStep(cfg, StateAt(cfg, evs, i - 1), evs[i - 1]);
      OneMoreModulo(RefusedSince(evs, i - 1));
    }
  }

  // ---- Maintenance toggles ----

  /** A request to toggle that gets past the limiter and knows the password. */
  predicate Toggles(cfg: Config, e: Event) {
    e.HttpMaintenance? && e.allowed && e.matches && cfg.passwordSet
  }

  function ToggleCount(cfg: Config, evs: seq<Event>, i: nat): nat
    requires i <= |evs|
  {
    if i == 0 then 0 else ToggleCount(cfg, evs, i - 1) + if Toggles(cfg, evs[i - 1]) then 1 else 0
  }

  lemma ToggleStep(cfg: Config, s: State, e: Event)
    ensures Step(cfg, s, e).maintenance == (s.maintenance != Toggles(cfg, e))
  {
    if e.Udp? {
      UdpKeepsKeys(cfg, s, e.datagram, e.at);
    } else if e.HttpRequest? {
      Slots.RequestExact(cfg, s, e.at, e.clients, e.draws);
    }
  }

  /** The maintenance flag is the parity of the authorised toggles so far: a
      wrong password, or none configured, never changes it. */
  lemma {:induction false} MaintenanceIsParity(cfg: Config, evs: seq<Event>, i: nat)
    requires i <= |evs|
    ensures StateAt(cfg, evs, i).maintenance <==> ToggleCount(cfg, evs, i) % 2 == 1
  {
    if i > 0 {
      MaintenanceIsParity(cfg, evs, i - 1);
      ToggleStep(cfg, StateAt(cfg, evs, i - 1), evs[i - 1]);
    }
  }

  // ---- Where slots come from ----

  /** Event `e` is a granted request whose reply body hands out `id`. */
  predicate Grants(cfg: Config, s: State, e: Event, id: I16) {
    && e.HttpRequest? && e.allowed
    && var reply := Request(cfg, s, e.at, e.clients, e.draws).1;
       && reply.Granted?
       && var ids := ParseBody(reply.body);
          ids.Some? && id in ids.value
  }

  /** Slot `id` exists before event `x`. */
  predicate InTable(cfg: Config, evs: seq<Event>, x: nat, id: I16)
    requires x <= |evs|
  {
    id in StateAt(cfg, evs, x).mappings
  }

  predicate GrantedAt(cfg: Config, evs: seq<Event>, i: nat, id: I16)
    requires i < |evs|
  {
    Grants(cfg, StateAt(cfg, evs, i), evs[i], id)
  }

  lemma NewSlotGrantedAt(cfg: Config, evs: seq<Event>, i: nat, id: I16)
    requires i < |evs| && !InTable(cfg, evs, i, id) && InTable(cfg, evs, i + 1, id)
    ensures GrantedAt(cfg, evs, i, id)
  {
    NewSlotIsGranted(cfg, StateAt(cfg, evs, i), evs[i], id);
  }

  lemma NewSlotIsGranted(cfg: Config, s: State, e: Event, id: I16)
    requires id !in s.mappings && id in Step(cfg, s, e).mappings
    ensures Grants(cfg, s, e, id)
  {
    match e
    case Udp(at, d) => UdpKeepsKeys(cfg, s, d, at);
    case HttpRequest(at, allowed, clients, draws) => Slots.RequestExact(cfg, s, at, clients, draws);
    case HttpMaintenance(_, _, _) =>
    case HttpRefused(_) =>
    case Beat(at) =>
  }

  lemma {:induction false} LastFalse(bits: seq<bool>) returns (i: nat)
    requires bits != [] && !bits[0]
    ensures i < |bits| && !bits[i] && forall x :: i < x < |bits| ==> bits[x]
  {
    i := |bits| - 1;
    if bits[i] {
      i := LastFalse(bits[..i]);
    }
  }

  function Presence(cfg: Config, evs: seq<Event>, j: nat, id: I16): (bits: seq<bool>)
    requires j <= |evs|
    ensures |bits| == j + 1 && forall x :: 0 <= x <= j ==> bits[x] == InTable(cfg, evs, x, id)
  {
    seq(j + 1, x requires 0 <= x <= j => InTable(cfg, evs, x, id))
  }

  /** Every slot in the table was handed out by an earlier successful request and
      has been in the table ever since. */
  lemma SlotsWereGranted(cfg: Config, evs: seq<Event>, j: nat, id: I16) returns (i: nat)
    requires j <= |evs| && InTable(cfg, evs, j, id)
    ensures i < j && !InTable(cfg, evs, i, id) && GrantedAt(cfg, evs, i, id)
    ensures forall x :: i < x <= j ==> InTable(cfg, evs, x, id)
  {
    var bits := Presence(cfg, evs, j, id);
    assert !InTable(cfg, evs, 0, id);
    i := LastFalse(bits);
    assert bits[i + 1];
    NewSlotGrantedAt(cfg, evs, i, id);
  }

  // ---- Endpoint stickiness ----

  predicate AcceptsFrom(cfg: Config, s: State, e: Event, id: I16, ep: Endpoint) {
    && e.Udp? && e.datagram.from == ep
    && var v := Receive(cfg, s, e.datagram, e.at).verdict;
       v.Data? && v.sender == id && Accepts(v.binding)
  }

  /** Event `i` is a data packet of `id` from `ep` that passed the sender check. */
  predicate AcceptedAt(cfg: Config, evs: seq<Event>, i: nat, id: I16, ep: Endpoint)
    requires i < |evs|
  {
    AcceptsFrom(cfg, StateAt(cfg, evs, i), evs[i], id, ep)
  }

  predicate HeldSince(s: State, id: I16, ep: Endpoint, since: nat) {
    id in s.mappings && s.mappings[id].endpoint == Some(ep) && s.mappings[id].lastReceive >= since
  }

  lemma StepKeepsHeld(cfg: Config, s: State, e: Event, id: I16, ep: Endpoint, since: nat)
    requires HeldSince(s, id, ep, since) && since <= e.at < since + 30
    ensures HeldSince(Step(cfg, s, e), id, ep, since)
  {
    if e.HttpRequest? {
      Slots.RequestExact(cfg, s, e.at, e.clients, e.draws);
    }
  }

  lemma AcceptanceHolds(cfg: Config, s: State, e: Event, id: I16, ep: Endpoint)
    requires AcceptsFrom(cfg, s, e, id, ep)
    ensures HeldSince(Step(cfg, s, e), id, ep, e.at)
  {
  }

  lemma {:induction false} HeldThroughout(cfg: Config, evs: seq<Event>, i: nat, j: nat, id: I16, ep: Endpoint)
    requires i < j <= |evs| && Timed(evs) && AcceptedAt(cfg, evs, i, id, ep)
    requires evs[j - 1].at < evs[i].at + 30
    ensures HeldSince(StateAt(cfg, evs, j), id, ep, evs[i].at)
  {
    if j == i + 1 {
      AcceptanceHolds(cfg, StateAt(cfg, evs, i), evs[i], id, ep);
    } else {
      HeldThroughout(cfg, evs, i, j - 1, id, ep);
      StepKeepsHeld(cfg, StateAt(cfg, evs, j - 1), evs[j - 1], id, ep, evs[i].at);
    }
  }

  lemma HolderExcludes(cfg: Config, s: State, e: Event, id: I16, ep: Endpoint, other: Endpoint, since: nat)
    requires HeldSince(s, id, ep, since) && ep != other && e.at < since + 30
    ensures !AcceptsFrom(cfg, s, e, id, other)
  {
  }

  /** Two accepted data packets with one sender id but different endpoints are
      at least the timeout apart, across rebinding, cleanup, and the slot being
      given to somebody else. */
  lemma EndpointSticks(cfg: Config, evs: seq<Event>, i: nat, j: nat, id: I16, ep: Endpoint, other: Endpoint)
    requires i < j < |evs| && Timed(evs) && ep != other
    requires AcceptedAt(cfg, evs, i, id, ep) && AcceptedAt(cfg, evs, j, id, other)
    ensures evs[j].at - evs[i].at >= 30
  {
    if evs[j].at < evs[i].at + 30 {
      HeldThroughout(cfg, evs, i, j, id, ep);
      HolderExcludes(cfg, StateAt(cfg, evs, j), evs[j], id, ep, other, evs[i].at);
    }
  }

  // ---- Maintenance drain ----

  predicate FlagOn(cfg: Config, evs: seq<Event>, x: nat)
    requires x <= |evs|
  {
    StateAt(cfg, evs, x).maintenance
  }

  predicate MaintenanceOn(cfg: Config, evs: seq<Event>, i: nat, j: nat)
    requires i <= j <= |evs|
  {
    forall x :: i <= x <= j ==> FlagOn(cfg, evs, x)
  }

  ghost predicate Shrunk(m: map<I16, Client>, larger: map<I16, Client>) {
    m.Keys <= larger.Keys && forall id :: id in m ==> m[id] == larger[id]
  }

  /** Nothing but pings is answered. */
  predicate NoService(cfg: Config, s: State, e: Event) {
    match e
    case Udp(at, d) =>
      var o := Receive(cfg, s, d, at);
      !o.verdict.Data? && (o.sent.Some? ==> o.verdict == Ping(true))
    case HttpRequest(at, allowed, clients, draws) => Request(cfg, s, at, clients, draws).1 == InMaintenance
    case _ => true
  }

  predicate NoServiceAt(cfg: Config, evs: seq<Event>, x: nat)
    requires x < |evs|
  {
    NoService(cfg, StateAt(cfg, evs, x), evs[x])
  }

  lemma MaintenanceStep(cfg: Config, s: State, e: Event)
    requires s.maintenance
    ensures Shrunk(Step(cfg, s, e).mappings, s.mappings) && NoService(cfg, s, e)
  {
  }

  lemma ShrunkAgain(a: map<I16, Client>, b: map<I16, Client>, c: map<I16, Client>)
    requires Shrunk(a, b) && Shrunk(b, c)
    ensures Shrunk(a, c)
  {
  }

  lemma MaintenanceStepAt(cfg: Config, evs: seq<Event>, x: nat)
    requires x < |evs| && FlagOn(cfg, evs, x)
    ensures Shrunk(StateAt(cfg, evs, x + 1).mappings, StateAt(cfg, evs, x).mappings) && NoServiceAt(cfg, evs, x)
  {
    MaintenanceStep(cfg, StateAt(cfg, evs, x), evs[x]);
  }

  lemma {:induction false} TableShrinks(cfg: Config, evs: seq<Event>, i: nat, j: nat)
    requires i <= j <= |evs| && MaintenanceOn(cfg, evs, i, j)
    ensures Shrunk(StateAt(cfg, evs, j).mappings, StateAt(cfg, evs, i).mappings)
  {
    if i < j {
      TableShrinks(cfg, evs, i, j - 1);
      assert FlagOn(cfg, evs, j - 1);
      MaintenanceStepAt(cfg, evs, j - 1);
      ShrunkAgain(StateAt(cfg, evs, j).mappings, StateAt(cfg, evs, j - 1).mappings, StateAt(cfg, evs, i).mappings);
    }
  }

  /** While the maintenance flag stays on no slot is added, bound or refreshed,
      no data is forwarded and no request is granted: the table only shrinks. */
  lemma MaintenanceDrains(cfg: Config, evs: seq<Event>, i: nat, j: nat)
    requires i <= j <= |evs| && MaintenanceOn(cfg, evs, i, j)
    ensures Shrunk(StateAt(cfg, evs, j).mappings, StateAt(cfg, evs, i).mappings)
    ensures forall x :: i <= x < j ==> NoServiceAt(cfg, evs, x)
  {
    TableShrinks(cfg, evs, i, j);
    forall x | i <= x < j ensures NoServiceAt(cfg, evs, x) {
      assert FlagOn(cfg, evs, x);
      MaintenanceStepAt(cfg, evs, x);
    }
  }

  predicate HeardBy(s: State, time: int) {
    forall id :: id in s.mappings ==> s.mappings[id].lastReceive <= time
  }

  lemma HeardStep(cfg: Config, s: State, e: Event, time: nat)
    requires HeardBy(s, time) && e.at <= time
    ensures HeardBy(Step(cfg, s, e), time)
  {
    match e
    case Udp(at, d) => UdpKeepsKeys(cfg, s, d, at);
    case HttpRequest(at, allowed, clients, draws) => Slots.RequestExact(cfg, s, at, clients, draws);
    case HttpMaintenance(_, _, _) =>
    case HttpRefused(_) =>
    case Beat(at) =>
  }

  lemma {:induction false} NeverHeardInFuture(cfg: Config, evs: seq<Event>, i: nat, time: nat)
    requires i <= |evs| && Timed(evs) && (i > 0 ==> evs[i - 1].at <= time)
    ensures HeardBy(StateAt(cfg, evs, i), time)
  {
    if i > 0 {
      NeverHeardInFuture(cfg, evs, i - 1, time);
      HeardStep(cfg, StateAt(cfg, evs, i - 1), evs[i - 1], time);
    }
  }

  predicate EmptyAt(cfg: Config, evs: seq<Event>, i: nat)
    requires i <= |evs|
  {
    StateAt(cfg, evs, i).mappings == map[]
  }

  lemma CleaningDropsExpired(cfg: Config, s: State, e: Event)
    requires e.Beat? && HeardBy(s, e.at - 30)
    ensures Step(cfg, s, e).mappings == map[]
  {
    assert Retained(s.mappings, e.at) == map[];
  }

  lemma EmptiedBy(cfg: Config, evs: seq<Event>, i: nat, x: nat)
    requires 0 < i <= x < |evs| && Timed(evs) && MaintenanceOn(cfg, evs, i, x) && evs[x].Beat?
    requires evs[x].at >= evs[i - 1].at + 30
    ensures EmptyAt(cfg, evs, x + 1)
  {
    NeverHeardInFuture(cfg, evs, i, evs[i - 1].at);
    MaintenanceDrains(cfg, evs, i, x);
    CleaningDropsExpired(cfg, StateAt(cfg, evs, x), evs[x]);
  }

  lemma StaysEmpty(cfg: Config, evs: seq<Event>, i: nat, j: nat)
    requires i <= j <= |evs| && MaintenanceOn(cfg, evs, i, j) && EmptyAt(cfg, evs, i)
    ensures EmptyAt(cfg, evs, j)
  {
    MaintenanceDrains(cfg, evs, i, j);
  }

  /** Once the flag has been on for the timeout, the next heartbeat empties the
      table, and it stays empty while the flag stays on. */
  lemma MaintenanceEmpties(cfg: Config, evs: seq<Event>, i: nat, x: nat, j: nat)
    requires 0 < i <= x < j <= |evs| && Timed(evs) && evs[x].Beat?
    requires MaintenanceOn(cfg, evs, i, x) && MaintenanceOn(cfg, evs, x + 1, j)
    requires evs[x].at >= evs[i - 1].at + 30
    ensures EmptyAt(cfg, evs, j)
  {
    EmptiedBy(cfg, evs, i, x);
    StaysEmpty(cfg, evs, x + 1, j);
  }
}
