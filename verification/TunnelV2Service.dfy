/** What a client of the V2 relay can count on: its slot while it keeps sending,
    and nothing but its remaining time once maintenance is on. */
module TunnelV2Service {
  import opened Net
  import opened Clients
  import opened TunnelV2Spec
  import opened TunnelV2Runs
  import opened Decimal
  import Slots = TunnelV2Slots

  // ---- Keep-alive and delivery ----

  predicate SendsData(cfg: Config, e: Event, id: I16, ep: Endpoint) {
    && e.Udp? && e.datagram.from == ep
    && var header := ParseHeader(e.datagram.packet);
       header.Some? && DataPacket(cfg, e.datagram, id, header.value.1)
  }

  /** The last data packet of `id` from `ep` among events `i` to `x`, event `i` counted in. */
  function LastSent(cfg: Config, evs: seq<Event>, i: nat, x: nat, id: I16, ep: Endpoint): (y: nat)
    requires i <= x < |evs|
    ensures i <= y <= x
  {
    if x == i || SendsData(cfg, evs[x], id, ep) then x else LastSent(cfg, evs, i, x - 1, id, ep)
  }

  /** Event `x` comes less than the timeout after the client's last data packet before it. */
  predicate InTime(cfg: Config, evs: seq<Event>, i: nat, x: nat, id: I16, ep: Endpoint)
    requires i < x < |evs|
  {
    var y := LastSent(cfg, evs, i, x - 1, id, ep);
    evs[x].at < evs[y].at + 30
  }

  predicate KeepsSending(cfg: Config, evs: seq<Event>, i: nat, j: nat, id: I16, ep: Endpoint)
    requires i <= j <= |evs|
  {
    forall x :: i < x < j ==> InTime(cfg, evs, i, x, id, ep)
  }

  predicate MaintenanceOff(cfg: Config, evs: seq<Event>, i: nat, j: nat)
    requires i <= j <= |evs|
  {
    forall x :: i <= x < j ==> !FlagOn(cfg, evs, x)
  }

  lemma SendExtends(cfg: Config, s: State, e: Event, id: I16, ep: Endpoint, since: nat)
    requires !s.maintenance && SendsData(cfg, e, id, ep) && HeldSince(s, id, ep, since)
    ensures HeldSince(Step(cfg, s, e), id, ep, e.at)
  {
    DataPacketExact(cfg, s, e.datagram, e.at, id, ParseHeader(e.datagram.packet).value.1);
  }

  lemma {:induction false} AliveSince(cfg: Config, evs: seq<Event>, i: nat, x: nat, id: I16, ep: Endpoint)
    requires i <= x < |evs| && Timed(evs) && AcceptedAt(cfg, evs, i, id, ep)
    requires KeepsSending(cfg, evs, i, x + 1, id, ep) && MaintenanceOff(cfg, evs, i, x + 1)
    ensures HeldSince(StateAt(cfg, evs, x + 1), id, ep, evs[LastSent(cfg, evs, i, x, id, ep)].at)
  {
    if x == i {
      AcceptanceHolds(cfg, StateAt(cfg, evs, i), evs[i], id, ep);
    } else {
      AliveSince(cfg, evs, i, x - 1, id, ep);
      assert InTime(cfg, evs, i, x, id, ep) && !FlagOn(cfg, evs, x);
      var since := evs[LastSent(cfg, evs, i, x - 1, id, ep)].at;
      if SendsData(cfg, evs[x], id, ep) {
        SendExtends(cfg, StateAt(cfg, evs, x), evs[x], id, ep, since);
      } else {
        StepKeepsHeld(cfg, StateAt(cfg, evs, x), evs[x], id, ep, since);
      }
    }
  }

  /** While maintenance is off, a slot whose client was accepted once and keeps
      sending at gaps shorter than the timeout is never freed or rebound,
      whatever datagrams, requests and heartbeats occur. */
  lemma KeepAlive(cfg: Config, evs: seq<Event>, i: nat, j: nat, id: I16, ep: Endpoint)
    requires i < j <= |evs| && Timed(evs) && AcceptedAt(cfg, evs, i, id, ep)
    requires KeepsSending(cfg, evs, i, j, id, ep) && MaintenanceOff(cfg, evs, i, j)
    ensures forall x :: i < x <= j ==> HeldSince(StateAt(cfg, evs, x), id, ep, evs[i].at)
  {
    forall x | i < x <= j ensures HeldSince(StateAt(cfg, evs, x), id, ep, evs[i].at) {
      AliveSince(cfg, evs, i, x - 1, id, ep);
    }
  }

  lemma RoutesToHolder(cfg: Config, s: State, d: Datagram, now: nat, id: I16, peer: I16, peerEp: Endpoint,
                       since: nat, peerSince: nat)
    requires HeldSince(s, id, d.from, since) && HeldSince(s, peer, peerEp, peerSince)
    requires !s.maintenance && DataPacket(cfg, d, id, peer) && id != peer && d.from != peerEp
    ensures Receive(cfg, s, d, now).sent == Some(Send(peerEp, d.packet))
  {
    DataPacketExact(cfg, s, d, now, id, peer);
  }

  /** Between two slots whose clients both keep sending, every data packet goes
      out byte for byte to the peer's endpoint. */
  lemma DeliveredToPeer(cfg: Config, evs: seq<Event>, i: nat, k: nat, j: nat,
                        id: I16, ep: Endpoint, peer: I16, peerEp: Endpoint)
    requires i < j < |evs| && k < j && Timed(evs) && id != peer && ep != peerEp
    requires AcceptedAt(cfg, evs, i, id, ep) && AcceptedAt(cfg, evs, k, peer, peerEp)
    requires KeepsSending(cfg, evs, i, j, id, ep) && KeepsSending(cfg, evs, k, j, peer, peerEp)
    requires MaintenanceOff(cfg, evs, i, j + 1) && MaintenanceOff(cfg, evs, k, j + 1)
    requires evs[j].Udp? && evs[j].datagram.from == ep && DataPacket(cfg, evs[j].datagram, id, peer)
    ensures Receive(cfg, StateAt(cfg, evs, j), evs[j].datagram, evs[j].at).sent
      == Some(Send(peerEp, evs[j].datagram.packet))
  {
    KeepAlive(cfg, evs, i, j, id, ep);
    KeepAlive(cfg, evs, k, j, peer, peerEp);
    assert !FlagOn(cfg, evs, j);
    RoutesToHolder(cfg, StateAt(cfg, evs, j), evs[j].datagram, evs[j].at, id, peer, peerEp, evs[i].at, evs[k].at);
  }

  // ---- Silent slots ----

  function BeatCount(evs: seq<Event>, i: nat): nat
    requires i <= |evs|
  {
    if i == 0 then 0 else BeatCount(evs, i - 1) + if evs[i - 1].Beat? then 1 else 0
  }

  predicate OnTime(evs: seq<Event>, x: nat)
    requires x < |evs|
  {
    evs[x].at <= 60 * BeatCount(evs, x) && (evs[x].Beat? ==> evs[x].at == 60 * BeatCount(evs, x))
  }

  /** Tick n, from 0, happens at second 60 n, and no later event before a tick that is due. */
  predicate Punctual(evs: seq<Event>) {
    forall x :: 0 <= x < |evs| ==> OnTime(evs, x)
  }

  lemma {:induction false} FindBeat(evs: seq<Event>, n: nat, j: nat) returns (x: nat)
    requires j <= |evs| && n < BeatCount(evs, j)
    ensures x < j && evs[x].Beat? && BeatCount(evs, x) == n
  {
    if evs[j - 1].Beat? && BeatCount(evs, j - 1) == n {
      x := j - 1;
    } else {
      x := FindBeat(evs, n, j - 1);
    }
  }

  /** Event `x` neither is an accepted packet of `id` nor grants its slot. */
  predicate SilentAt(cfg: Config, evs: seq<Event>, x: nat, id: I16)
    requires x < |evs|
  {
    SilentIn(cfg, StateAt(cfg, evs, x), evs[x], id)
  }

  predicate SilentIn(cfg: Config, s: State, e: Event, id: I16) {
    && !(e.Udp? && AcceptsFrom(cfg, s, e, id, e.datagram.from))
    && !Grants(cfg, s, e, id)
  }

  predicate SilentFrom(cfg: Config, evs: seq<Event>, i: nat, id: I16) {
    forall x :: i <= x < |evs| ==> SilentAt(cfg, evs, x, id)
  }

  predicate QuietSince(s: State, id: I16, since: nat) {
    id in s.mappings ==> s.mappings[id].lastReceive <= since
  }

  lemma SilenceLeavesSlot(cfg: Config, s: State, e: Event, id: I16)
    requires SilentIn(cfg, s, e, id)
    ensures id in Step(cfg, s, e).mappings ==> id in s.mappings && Step(cfg, s, e).mappings[id] == s.mappings[id]
  {
    if id in Step(cfg, s, e).mappings && id !in s.mappings {
      NewSlotIsGranted(cfg, s, e, id);
    }
    if e.HttpRequest? {
      Slots.RequestExact(cfg, s, e.at, e.clients, e.draws);
    }
  }

  lemma {:induction false} SilenceLasts(cfg: Config, evs: seq<Event>, i: nat, j: nat, id: I16, since: nat)
    requires i <= j <= |evs| && SilentFrom(cfg, evs, i, id)
    requires QuietSince(StateAt(cfg, evs, i), id, since)
    ensures QuietSince(StateAt(cfg, evs, j), id, since)
  {
    if i < j {
      SilenceLasts(cfg, evs, i, j - 1, id, since);
      assert SilentAt(cfg, evs, j - 1, id);
      SilenceLeavesSlot(cfg, StateAt(cfg, evs, j - 1), evs[j - 1], id);
    }
  }

  lemma {:induction false} StaysFree(cfg: Config, evs: seq<Event>, i: nat, j: nat, id: I16)
    requires i <= j <= |evs| && SilentFrom(cfg, evs, i, id) && !InTable(cfg, evs, i, id)
    ensures !InTable(cfg, evs, j, id)
  {
    if i < j {
      StaysFree(cfg, evs, i, j - 1, id);
      assert SilentAt(cfg, evs, j - 1, id);
      SilenceLeavesSlot(cfg, StateAt(cfg, evs, j - 1), evs[j - 1], id);
    }
  }

  lemma BeatFrees(cfg: Config, s: State, e: Event, id: I16, since: nat)
    requires e.Beat? && QuietSince(s, id, since) && e.at >= since + 30
    ensures id !in Step(cfg, s, e).mappings
  {
  }

  lemma BeatBefore(evs: seq<Event>, i: nat, j: nat, since: nat) returns (x: nat)
    requires i <= j < |evs| && Timed(evs) && Punctual(evs)
    requires i > 0 ==> evs[i - 1].at <= since
    requires evs[j].at >= since + 30 + 60
    ensures i <= x < j && evs[x].Beat? && evs[x].at >= since + 30
  {
    var tick := (since + 30 + 59) / 60;
    assert OnTime(evs, j);
    x := FindBeat(evs, tick, j);
    assert OnTime(evs, x);
  }

  /** With a tick every 60 seconds, a slot that is neither used nor handed out
      after second `since` is free again 30 + 60 seconds later. */
  lemma SilentSlotFreed(cfg: Config, evs: seq<Event>, i: nat, j: nat, id: I16, since: nat)
    requires i <= j < |evs| && Timed(evs) && Punctual(evs) && SilentFrom(cfg, evs, i, id)
    requires i > 0 ==> evs[i - 1].at <= since
    requires evs[j].at >= since + 30 + 60
    ensures !InTable(cfg, evs, j, id)
  {
    var x := BeatBefore(evs, i, j, since);
    NeverHeardInFuture(cfg, evs, i, since);
    SilenceLasts(cfg, evs, i, x, id, since);
    BeatFrees(cfg, StateAt(cfg, evs, x), evs[x], id, since);
    StaysFree(cfg, evs, x + 1, j, id);
  }

  // ---- What maintenance keeps ----

  /** Event `x` is a heartbeat at a time when client record `c` is timed out. */
  predicate Expires(evs: seq<Event>, x: nat, c: Client)
    requires x < |evs|
  {
    evs[x].Beat? && evs[x].at >= c.lastReceive + 30
  }

  lemma MaintenanceStepExact(cfg: Config, s: State, e: Event, id: I16)
    requires s.maintenance && id in s.mappings
    ensures id in Step(cfg, s, e).mappings <==> !(e.Beat? && TimedOut(s.mappings[id], e.at))
    ensures id in Step(cfg, s, e).mappings ==> Step(cfg, s, e).mappings[id] == s.mappings[id]
  {
  }

  /** Exactly which slots maintenance keeps: one survives, unaltered, if and only
      if no heartbeat meets it timed out, and nothing refreshes it. */
  lemma {:induction false} MaintenanceKeepsExactly(cfg: Config, evs: seq<Event>, i: nat, j: nat, id: I16)
    requires i <= j <= |evs| && MaintenanceOn(cfg, evs, i, j) && InTable(cfg, evs, i, id)
    ensures var c := StateAt(cfg, evs, i).mappings[id];
      && (InTable(cfg, evs, j, id) <==> forall x :: i <= x < j ==> !Expires(evs, x, c))
      && (InTable(cfg, evs, j, id) ==> StateAt(cfg, evs, j).mappings[id] == c)
  {
    if i < j {
      MaintenanceKeepsExactly(cfg, evs, i, j - 1, id);
      assert FlagOn(cfg, evs, j - 1);
      var c := StateAt(cfg, evs, i).mappings[id];
      if InTable(cfg, evs, j - 1, id) {
        MaintenanceStepExact(cfg, StateAt(cfg, evs, j - 1), evs[j - 1], id);
        assert InTable(cfg, evs, j, id) <==> !Expires(evs, j - 1, c);
      } else {
        MaintenanceStep(cfg, StateAt(cfg, evs, j - 1), evs[j - 1]);
      }
    }
  }

  // ---- Maintenance cuts live clients off ----

  /** The shortest packet from one slot to another. */
  function Hello(id: I16, ep: Endpoint, peer: I16): Datagram {
    Datagram(ToBeBytes(id) + ToBeBytes(peer), ep, false, true)
  }

  lemma HelloIsData(cfg: Config, id: I16, ep: Endpoint, peer: I16)
    requires id != peer && cfg.validAddress(ep)
    ensures DataPacket(cfg, Hello(id, ep, peer), id, peer)
  {
    HeaderRoundTrip(id, peer, []);
    assert ToBeBytes(id) + ToBeBytes(peer) + [] == ToBeBytes(id) + ToBeBytes(peer);
  }

  lemma HelloBinds(cfg: Config, s: State, at: nat, id: I16, ep: Endpoint, peer: I16)
    requires id != peer && cfg.validAddress(ep) && !s.maintenance && MaySpeak(s, id, ep, at)
    ensures AcceptsFrom(cfg, s, Udp(at, Hello(id, ep, peer)), id, ep)
    ensures Step(cfg, s, Udp(at, Hello(id, ep, peer))) == s.(mappings := s.mappings[id := Client(Some(ep), at)])
  {
    HelloIsData(cfg, id, ep, peer);
    DataPacketExact(cfg, s, Hello(id, ep, peer), at, id, peer);
  }

  lemma HelloIsDropped(cfg: Config, s: State, at: nat, id: I16, ep: Endpoint, peer: I16)
    requires s.maintenance && id != peer && cfg.validAddress(ep)
    ensures Receive(cfg, s, Hello(id, ep, peer), at).state == s
    ensures Receive(cfg, s, Hello(id, ep, peer), at).sent == None
  {
    HelloIsData(cfg, id, ep, peer);
  }

  predicate TwoClients(cfg: Config, ep: Endpoint, peerEp: Endpoint) {
    && 2 <= cfg.maxClients <= 10000 && cfg.passwordSet && ep != peerEp
    && cfg.validAddress(ep) && cfg.validAddress(peerEp)
  }

  /** Slots `id` and `peer`, both unbound, and nothing else. */
  predicate BothFree(s: State, id: I16, peer: I16) {
    s.mappings == map[id := Client(None, 0), peer := Client(None, 0)] && !s.maintenance && id != peer
  }

  lemma TwoKeys(m: map<I16, Client>, c: Client) returns (id: I16, peer: I16)
    requires |m.Keys| == 2 && forall k :: k in m ==> m[k] == c
    ensures id != peer && m == map[id := c, peer := c]
  {
    id :| id in m.Keys;
    var rest := m.Keys - {id};
    assert |rest| == 1;
    peer :| peer in rest;
    assert |rest - {peer}| == 0;
    assert m.Keys == {id, peer};
  }

  lemma SomeDrawsGrantBoth(cfg: Config) returns (draws: Draws, id: I16, peer: I16)
    requires 2 <= cfg.maxClients <= 10000
    ensures BothFree(Request(cfg, Init(), 0, 2, draws).0, id, peer)
  {
    Slots.SomeDrawsSucceed(cfg, Init(), 0, 2);
    var some :| |some| >= MAX_ATTEMPTS && Request(cfg, Init(), 0, 2, some).1.Granted?;
    draws := some;
    Slots.RequestExact(cfg, Init(), 0, 2, draws);
    var m := Request(cfg, Init(), 0, 2, draws).0.mappings;
    assert |m.Keys| == |m|;
    id, peer := TwoKeys(m, Client(None, 0));
  }

  /** Two slots have been handed out; both are bound; the flag is toggled; one
      client goes on sending at gaps below the timeout; the next tick cleans. */
  predicate CutOff(cfg: Config, evs: seq<Event>, id: I16, ep: Endpoint, peer: I16, peerEp: Endpoint) {
    TwoClients(cfg, ep, peerEp) && Schedule(evs, id, ep, peer, peerEp) && BothFree(StateAt(cfg, evs, 2), id, peer)
  }

  predicate Schedule(evs: seq<Event>, id: I16, ep: Endpoint, peer: I16, peerEp: Endpoint) {
    && |evs| == 8 && evs[0] == Beat(0) && evs[1].HttpRequest? && evs[1].at == 0
    && evs[2] == Udp(0, Hello(id, ep, peer)) && evs[3] == Udp(0, Hello(peer, peerEp, id))
    && evs[4] == HttpMaintenance(0, true, true)
    && evs[5] == Udp(25, Hello(id, ep, peer)) && evs[6] == Udp(50, Hello(id, ep, peer))
    && evs[7] == Beat(60)
  }

  lemma CutOffMeeting(cfg: Config, evs: seq<Event>, id: I16, ep: Endpoint, peer: I16, peerEp: Endpoint)
    requires CutOff(cfg, evs, id, ep, peer, peerEp)
    ensures AcceptedAt(cfg, evs, 2, id, ep) && AcceptedAt(cfg, evs, 3, peer, peerEp)
    ensures var s := StateAt(cfg, evs, 4);
      s.mappings == map[id := Client(Some(ep), 0), peer := Client(Some(peerEp), 0)] && !s.maintenance
  {
    HelloBinds(cfg, StateAt(cfg, evs, 2), 0, id, ep, peer);
    assert StateAt(cfg, evs, 3).mappings == map[id := Client(Some(ep), 0), peer := Client(None, 0)];
    HelloBinds(cfg, StateAt(cfg, evs, 3), 0, peer, peerEp, id);
  }

  predicate BothBound(s: State, id: I16, ep: Endpoint, peer: I16, peerEp: Endpoint) {
    s.mappings == map[id := Client(Some(ep), 0), peer := Client(Some(peerEp), 0)] && s.maintenance
  }

  lemma ToggleKeepsBoth(cfg: Config, evs: seq<Event>, id: I16, ep: Endpoint, peer: I16, peerEp: Endpoint)
    requires CutOff(cfg, evs, id, ep, peer, peerEp)
    ensures BothBound(StateAt(cfg, evs, 5), id, ep, peer, peerEp)
  {
    CutOffMeeting(cfg, evs, id, ep, peer, peerEp);
  }

  predicate SendsNothing(cfg: Config, evs: seq<Event>, x: nat)
    requires x < |evs|
  {
    evs[x].Udp? && Receive(cfg, StateAt(cfg, evs, x), evs[x].datagram, evs[x].at).sent == None
  }

  lemma DroppedStep(cfg: Config, evs: seq<Event>, x: nat, id: I16, ep: Endpoint, peer: I16, peerEp: Endpoint)
    requires x < |evs| && BothBound(StateAt(cfg, evs, x), id, ep, peer, peerEp)
    requires evs[x].Udp? && evs[x].datagram == Hello(id, ep, peer) && id != peer && cfg.validAddress(ep)
    ensures BothBound(StateAt(cfg, evs, x + 1), id, ep, peer, peerEp) && SendsNothing(cfg, evs, x)
  {
    HelloIsDropped(cfg, StateAt(cfg, evs, x), evs[x].at, id, ep, peer);
  }

  lemma CutOffDrops(cfg: Config, evs: seq<Event>, id: I16, ep: Endpoint, peer: I16, peerEp: Endpoint)
    requires CutOff(cfg, evs, id, ep, peer, peerEp)
    ensures BothBound(StateAt(cfg, evs, 5), id, ep, peer, peerEp)
    ensures BothBound(StateAt(cfg, evs, 7), id, ep, peer, peerEp)
    ensures SendsNothing(cfg, evs, 5) && SendsNothing(cfg, evs, 6) && EmptyAt(cfg, evs, 8)
  {
    ToggleKeepsBoth(cfg, evs, id, ep, peer, peerEp);
    DroppedStep(cfg, evs, 5, id, ep, peer, peerEp);
    DroppedStep(cfg, evs, 6, id, ep, peer, peerEp);
    CleaningDropsExpired(cfg, StateAt(cfg, evs, 7), evs[7]);
  }

  lemma CutOffKeepsSending(cfg: Config, evs: seq<Event>, id: I16, ep: Endpoint, peer: I16, peerEp: Endpoint)
    requires CutOff(cfg, evs, id, ep, peer, peerEp)
    ensures KeepsSending(cfg, evs, 2, 8, id, ep)
  {
    HelloIsData(cfg, id, ep, peer);
    assert SendsData(cfg, evs[5], id, ep) && SendsData(cfg, evs[6], id, ep);
    forall x | 2 < x < 8 ensures InTime(cfg, evs, 2, x, id, ep) {
      assert x == 3 || x == 4 || x == 5 || x == 6 || x == 7;
    }
  }

  lemma OneBeat(evs: seq<Event>, x: nat)
    requires 1 <= x <= 7 && |evs| == 8 && evs[0].Beat? && forall y :: 1 <= y < 7 ==> !evs[y].Beat?
    ensures BeatCount(evs, x) == 1
  {
    if x > 1 {
      OneBeat(evs, x - 1);
    }
  }

  lemma CutOffPunctual(cfg: Config, evs: seq<Event>, id: I16, ep: Endpoint, peer: I16, peerEp: Endpoint)
    requires CutOff(cfg, evs, id, ep, peer, peerEp)
    ensures Timed(evs) && Punctual(evs)
  {
    forall x | 0 <= x < |evs| ensures OnTime(evs, x) {
      if x > 0 {
        OneBeat(evs, x);
      }
    }
  }

  /** As for V3: every premise of KeepAlive holds but the flag, and still the
      client's packets go nowhere and the next heartbeat takes its slot. */
  lemma CutOffUnserved(cfg: Config, evs: seq<Event>, id: I16, ep: Endpoint, peer: I16, peerEp: Endpoint)
    requires CutOff(cfg, evs, id, ep, peer, peerEp)
    ensures Timed(evs) && Punctual(evs)
    ensures AcceptedAt(cfg, evs, 2, id, ep) && AcceptedAt(cfg, evs, 3, peer, peerEp)
    ensures KeepsSending(cfg, evs, 2, 8, id, ep)
    ensures BothBound(StateAt(cfg, evs, 5), id, ep, peer, peerEp)
    ensures BothBound(StateAt(cfg, evs, 7), id, ep, peer, peerEp)
    ensures SendsNothing(cfg, evs, 5) && SendsNothing(cfg, evs, 6) && EmptyAt(cfg, evs, 8)
  {
    CutOffMeeting(cfg, evs, id, ep, peer, peerEp);
    CutOffDrops(cfg, evs, id, ep, peer, peerEp);
    CutOffKeepsSending(cfg, evs, id, ep, peer, peerEp);
    CutOffPunctual(cfg, evs, id, ep, peer, peerEp);
  }

  lemma ScheduleStarts(cfg: Config, evs: seq<Event>, id: I16, ep: Endpoint, peer: I16, peerEp: Endpoint)
    requires Schedule(evs, id, ep, peer, peerEp)
    ensures StateAt(cfg, evs, 2) == Step(cfg, Init(), evs[1])
  {
    assert StateAt(cfg, evs, 1) == Init();
  }

  lemma CutOffRun(cfg: Config, first: Event, id: I16, ep: Endpoint, peer: I16, peerEp: Endpoint)
    returns (evs: seq<Event>)
    requires TwoClients(cfg, ep, peerEp) && first.HttpRequest? && first.at == 0
    requires BothFree(Step(cfg, Init(), first), id, peer)
    ensures CutOff(cfg, evs, id, ep, peer, peerEp)
  {
    var hello := Hello(id, ep, peer);
    evs := [Beat(0), first, Udp(0, hello), Udp(0, Hello(peer, peerEp, id)),
            HttpMaintenance(0, true, true), Udp(25, hello), Udp(50, hello), Beat(60)];
    ScheduleStarts(cfg, evs, id, ep, peer, peerEp);
  }

  /** Such a run exists for every configuration and any two endpoints. */
  lemma MaintenanceCutsOff(cfg: Config, ep: Endpoint, peerEp: Endpoint) returns (evs: seq<Event>, id: I16, peer: I16)
    requires TwoClients(cfg, ep, peerEp)
    ensures CutOff(cfg, evs, id, ep, peer, peerEp)
    ensures KeepsSending(cfg, evs, 2, 8, id, ep) && SendsNothing(cfg, evs, 5) && SendsNothing(cfg, evs, 6)
    ensures InTable(cfg, evs, 7, id) && EmptyAt(cfg, evs, 8)
  {
    var draws;
    draws, id, peer := SomeDrawsGrantBoth(cfg);
    evs := CutOffRun(cfg, HttpRequest(0, true, 2, draws), id, ep, peer, peerEp);
    CutOffUnserved(cfg, evs, id, ep, peer, peerEp);
  }
}
