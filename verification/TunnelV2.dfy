/** The V2 relay, one packet, request, toggle or heartbeat per step: slots are
    handed out over HTTP and bound to endpoints by the first UDP packet. */
module TunnelV2Spec {
  import opened Net
  import opened Clients
  import opened Decimal

  const MAX_ATTEMPTS: nat := 1000
  const MIN_REQUEST: nat := 2
  const MAX_REQUEST: nat := 8
  const PING_LENGTH: nat := 50
  const PING_REPLY_LENGTH: nat := 12

  datatype Config = Config(maxClients: nat, passwordSet: bool, validAddress: Endpoint -> bool)

  const U32_RANGE: nat := 0x1_0000_0000

  /** `dropped` counts the HTTP connections dropped since the last heartbeat. */
  datatype State = State(mappings: map<I16, Client>, maintenance: bool, activeClients: nat, dropped: nat)

  function Init(): State {
    State(map[], false, 0, 0)
  }

  datatype Datagram = Datagram(packet: seq<Byte>, from: Endpoint, pingAllowed: bool, sendOk: bool)

  /** What became of the sender's slot. */
  datatype Binding = Bound | Rebound | Refreshed | Mismatch | Unknown

  predicate Accepts(b: Binding) {
    b.Bound? || b.Rebound? || b.Refreshed?
  }

  datatype Verdict = BadSize | Invalid | Ping(answered: bool) | UnderMaintenance | Data(sender: I16, binding: Binding)

  datatype Outcome = Outcome(state: State, verdict: Verdict, sent: Option<Send>, traffic: Option<Traffic>)

  // ---- UDP ----

  function ToBeBytes(i: I16): (b: seq<Byte>)
    ensures |b| == 2
  {
    var x := if i < 0 then (i as int) + 0x1_0000 else i as int;
    [x / 0x100, x % 0x100]
  }

  function ParseHeader(packet: seq<Byte>): Option<(I16, I16)> {
    if |packet| < 4 then None
    else Some((FromBeBytes(packet[0], packet[1]), FromBeBytes(packet[2], packet[3])))
  }

  /** Two ids written big-endian in front of any payload are read back. */
  lemma HeaderRoundTrip(sender: I16, receiver: I16, payload: seq<Byte>)
    ensures ParseHeader(ToBeBytes(sender) + ToBeBytes(receiver) + payload) == Some((sender, receiver))
  {
  }

  predicate ValidPacket(cfg: Config, sender: I16, receiver: I16, from: Endpoint) {
    !(sender == receiver && sender != 0) && cfg.validAddress(from)
  }

  function Decide(s: State, id: I16, from: Endpoint, now: nat): Binding {
    if id !in s.mappings then Unknown
    else
      var c := s.mappings[id];
      if c.endpoint.None? then Bound
      else if c.endpoint.value == from then Refreshed
      else if TimedOut(c, now) then Rebound
      else Mismatch
  }

  function Bind(s: State, id: I16, from: Endpoint, now: nat, b: Binding): State
    requires Accepts(b) ==> id in s.mappings
  {
    if b.Refreshed? then s.(mappings := s.mappings[id := s.mappings[id].(lastReceive := now)])
    else if Accepts(b) then s.(mappings := s.mappings[id := Client(Some(from), now)])
    else s
  }

  function Target(s: State, receiver: I16, from: Endpoint): Option<Endpoint> {
    if receiver in s.mappings && s.mappings[receiver].endpoint.Some? && s.mappings[receiver].endpoint.value != from
    then s.mappings[receiver].endpoint
    else None
  }

  function Recorded(d: Datagram, sent: Option<Send>): Option<Traffic> {
    Some(Traffic(|d.packet|, if sent.Some? && d.sendOk then Some(|sent.value.bytes|) else None))
  }

  function DataForward(s: State, sender: I16, receiver: I16, d: Datagram, now: nat): Outcome {
    var b := Decide(s, sender, d.from, now);
    var s' := Bind(s, sender, d.from, now, b);
    var sent :=
      if Accepts(b) then
        match Target(s', receiver, d.from)
        case None => None
        case Some(ep) => Some(Send(ep, d.packet))
      else None;
    Outcome(s', Data(sender, b), sent, Recorded(d, sent))
  }

  function OnUdpReceive(cfg: Config, s: State, d: Datagram, now: nat): Outcome {
    match ParseHeader(d.packet)
    case None => Outcome(s, BadSize, None, None)
    case Some((sender, receiver)) =>
      if !ValidPacket(cfg, sender, receiver, d.from) then
        Outcome(s, Invalid, None, Recorded(d, None))
      else if sender == 0 && receiver == 0 then
        if |d.packet| == PING_LENGTH && d.pingAllowed then
          var sent := Some(Send(d.from, d.packet[..PING_REPLY_LENGTH]));
          Outcome(s, Ping(true), sent, Recorded(d, sent))
        else
          Outcome(s, Ping(false), None, Recorded(d, None))
      else if s.maintenance then
        Outcome(s, UnderMaintenance, None, Recorded(d, None))
      else
        DataForward(s, sender, receiver, d, now)
  }

  function Receive(cfg: Config, s: State, d: Datagram, now: nat): Outcome {
    if 4 <= |d.packet| <= MAX_PACKET_SIZE then OnUdpReceive(cfg, s, d, now)
    else Outcome(s, BadSize, None, None)
  }

  /** As for V3: at most one send per datagram, never longer than it, data only
      to someone else and unchanged, and the batch records exactly that. */
  lemma NoAmplification(cfg: Config, s: State, d: Datagram, now: nat)
    ensures var o := Receive(cfg, s, d, now);
      && (o.traffic.Some? ==> Unamplified(o.traffic.value) && o.traffic.value.rx == |d.packet|)
      && (o.sent.Some? ==> o.traffic.Some? && |o.sent.value.bytes| <= |d.packet|)
      && (o.traffic.Some? ==> (o.traffic.value.tx.Some? <==> o.sent.Some? && d.sendOk))
      && (o.traffic.Some? && o.traffic.value.tx.Some? ==> o.traffic.value.tx.value == |o.sent.value.bytes|)
      && (o.sent.Some? && o.verdict.Data? ==> o.sent.value.bytes == d.packet && o.sent.value.to != d.from)
      && (o.sent.Some? && !o.verdict.Data? ==>
            o.sent.value.bytes == d.packet[..PING_REPLY_LENGTH] && o.sent.value.to == d.from)
  {
  }

  /** Exactly the datagrams of 4 to 1472 bytes are recorded; others do nothing. */
  lemma IllegalSizesIgnored(cfg: Config, s: State, d: Datagram, now: nat)
    ensures var o := Receive(cfg, s, d, now);
      && (o.traffic.Some? <==> 4 <= |d.packet| <= 1472)
      && (!(4 <= |d.packet| <= 1472) ==> o.state == s && o.sent == None)
  {
  }

  /** The header is big-endian and signed, the sender first. */
  lemma HeaderBytes()
    ensures ParseHeader([1, 2, 0xFF, 0xFD]) == Some((0x102, -3))
  {
  }

  // ---- Exactly what a data packet does ----

  predicate DataPacket(cfg: Config, d: Datagram, sender: I16, receiver: I16) {
    && 4 <= |d.packet| <= 1472
    && ParseHeader(d.packet) == Some((sender, receiver))
    && sender != receiver && cfg.validAddress(d.from)
  }

  /** `ep` may speak for slot `id`: the slot exists and is unbound, or bound to
      `ep`, or to somebody timed out. */
  predicate MaySpeak(s: State, id: I16, ep: Endpoint, now: nat) {
    id in s.mappings && (s.mappings[id].endpoint in {None, Some(ep)} || now >= s.mappings[id].lastReceive + 30)
  }

  /** As for V3, except that only slots handed out before are ever accepted. */
  lemma DataPacketExact(cfg: Config, s: State, d: Datagram, now: nat, sender: I16, receiver: I16)
    requires DataPacket(cfg, d, sender, receiver) && !s.maintenance
    ensures var v := Receive(cfg, s, d, now).verdict;
      v.Data? && v.sender == sender && (Accepts(v.binding) <==> MaySpeak(s, sender, d.from, now))
    ensures var o := Receive(cfg, s, d, now);
      if MaySpeak(s, sender, d.from, now) then
        && o.state == s.(mappings := s.mappings[sender := Client(Some(d.from), now)])
        && o.sent == (if receiver in s.mappings && s.mappings[receiver].endpoint !in {None, Some(d.from)}
                      then Some(Send(s.mappings[receiver].endpoint.value, d.packet)) else None)
      else o.state == s && o.sent == None
  {
    var b := Decide(s, sender, d.from, now);
    assert Receive(cfg, s, d, now) == DataForward(s, sender, receiver, d, now);
    assert Accepts(b) <==> MaySpeak(s, sender, d.from, now);
    if Accepts(b) {
      assert Bind(s, sender, d.from, now, b).mappings == s.mappings[sender := Client(Some(d.from), now)];
    }
  }

  /** A ping of 50 bytes is echoed, cut to 12 bytes, maintenance or not. */
  lemma PingEchoes(cfg: Config, s: State, d: Datagram, now: nat, payload: seq<Byte>)
    requires d.packet == ToBeBytes(0) + ToBeBytes(0) + payload && |payload| == 46
    requires cfg.validAddress(d.from)
    ensures var o := Receive(cfg, s, d, now);
      && o.state == s
      && o.sent == if d.pingAllowed then Some(Send(d.from, ToBeBytes(0) + ToBeBytes(0) + payload[..8])) else None
  {
    HeaderRoundTrip(0, 0, payload);
    assert d.packet[..PING_REPLY_LENGTH] == ToBeBytes(0) + ToBeBytes(0) + payload[..8];
  }

  // ---- What does nothing ----

  /** A ping of any other length is not answered. */
  lemma OtherPingsIgnored(cfg: Config, s: State, d: Datagram, now: nat, payload: seq<Byte>)
    requires d.packet == ToBeBytes(0) + ToBeBytes(0) + payload && |payload| != 46
    ensures Receive(cfg, s, d, now).state == s && Receive(cfg, s, d, now).sent == None
  {
    HeaderRoundTrip(0, 0, payload);
  }

  /** A datagram from an address that is not valid has no effect at all. */
  lemma StrangersIgnored(cfg: Config, s: State, d: Datagram, now: nat, a: I16, b: I16, payload: seq<Byte>)
    requires d.packet == ToBeBytes(a) + ToBeBytes(b) + payload && !cfg.validAddress(d.from)
    ensures Receive(cfg, s, d, now).state == s && Receive(cfg, s, d, now).sent == None
  {
    HeaderRoundTrip(a, b, payload);
  }

  /** Nobody can send to itself. */
  lemma OwnIdIgnored(cfg: Config, s: State, d: Datagram, now: nat, id: I16, payload: seq<Byte>)
    requires d.packet == ToBeBytes(id) + ToBeBytes(id) + payload && id != 0
    ensures Receive(cfg, s, d, now).state == s && Receive(cfg, s, d, now).sent == None
  {
    HeaderRoundTrip(id, id, payload);
  }

  // ---- Slot requests ----

  /** The distinct ids among the first `n` draws that are nonzero and not
      taken, in the order in which they first come up. */
  function Fresh(draws: seq<I16>, n: nat, taken: set<I16>): (ids: seq<I16>)
    requires n <= |draws|
    ensures |ids| <= n
  {
    if n == 0 then []
    else
      var ids, d := Fresh(draws, n - 1, taken), draws[n - 1];
      if d != 0 && d !in taken && d !in ids then ids + [d] else ids
  }

  lemma {:induction false} FreshGrows(draws: seq<I16>, n: nat, m: nat, taken: set<I16>)
    requires n <= m <= |draws|
    ensures Fresh(draws, n, taken) <= Fresh(draws, m, taken)
  {
    if n < m {
      FreshGrows(draws, n, m - 1, taken);
    }
  }

  /** Exactly which ids are fresh: the nonzero untaken ones that came up, each once. */
  lemma {:induction false} FreshHolds(draws: seq<I16>, n: nat, taken: set<I16>)
    requires n <= |draws|
    ensures forall d :: d in Fresh(draws, n, taken) <==> d in draws[..n] && d != 0 && d !in taken
    ensures Distinct(Fresh(draws, n, taken))
  {
    if n > 0 {
      FreshHolds(draws, n - 1, taken);
      assert draws[..n] == draws[..n - 1] + [draws[n - 1]];
    }
  }

  /** Where the drawing loop stops, the ids drawn are those it was to find. */
  lemma FreshTaken(draws: seq<I16>, n: nat, taken: set<I16>, clients: nat)
    requires n <= MAX_ATTEMPTS <= |draws| && |Fresh(draws, n, taken)| <= clients
    requires |Fresh(draws, n, taken)| == clients || n == MAX_ATTEMPTS
    ensures var ids, all := Fresh(draws, n, taken), Fresh(draws, MAX_ATTEMPTS, taken);
      ids == (if |all| < clients then all else all[..clients]) && Distinct(ids)
    ensures forall id :: id in Fresh(draws, n, taken) ==> id !in taken
  {
    FreshGrows(draws, n, MAX_ATTEMPTS, taken);
    FreshHolds(draws, n, taken);
  }

  /** The ids a request for `clients` slots gets, None when the draws run out. */
  function Allocate(draws: seq<I16>, taken: set<I16>, clients: nat): Option<seq<I16>>
    requires |draws| >= MAX_ATTEMPTS
  {
    var ids := Fresh(draws, MAX_ATTEMPTS, taken);
    if |ids| >= clients then Some(ids[..clients]) else None
  }

  predicate Distinct(ids: seq<I16>) {
    forall i, j :: 0 <= i < j < |ids| ==> ids[i] != ids[j]
  }

  datatype Reply = InMaintenance | BadCount | NotEnoughSlots | Exhausted | Granted(body: string)

  /** The table with a new slot, not yet bound to an endpoint, for each id. */
  function WithSlots(m: map<I16, Client>, ids: seq<I16>, now: nat): (r: map<I16, Client>)
    ensures forall k :: k in r <==> k in m || k in ids
  {
    m + map k | k in ids :: Client(None, now)
  }

  lemma WithSlotsAppend(m: map<I16, Client>, ids: seq<I16>, now: nat, id: I16)
    ensures WithSlots(m, ids + [id], now) == WithSlots(m, ids, now)[id := Client(None, now)]
  {
  }

  lemma WithSlotsTakeBack(m: map<I16, Client>, id: I16, rest: seq<I16>, now: nat)
    requires id !in m && id !in rest
    ensures WithSlots(m, [id] + rest, now) - {id} == WithSlots(m, rest, now)
  {
  }

  /** Taking back the slot of the `n`th id leaves those of the ids after it. */
  lemma WithoutFirst(m: map<I16, Client>, ids: seq<I16>, n: nat, now: nat)
    requires n < |ids| && Distinct(ids) && ids[n] !in m
    ensures WithSlots(m, ids[n..], now) - {ids[n]} == WithSlots(m, ids[n + 1..], now)
  {
    assert ids[n..] == [ids[n]] + ids[n + 1..];
    WithSlotsTakeBack(m, ids[n], ids[n + 1..], now);
  }

  function Request(cfg: Config, s: State, now: nat, clients: nat, draws: seq<I16>): (State, Reply)
    requires |draws| >= MAX_ATTEMPTS
  {
    if s.maintenance then (s, InMaintenance)
    else if clients < MIN_REQUEST || clients > MAX_REQUEST then (s, BadCount)
    else if |s.mappings| + clients > cfg.maxClients then (s, NotEnoughSlots)
    else
      match Allocate(draws, s.mappings.Keys, clients)
      case None => (s, Exhausted)
      case Some(ids) =>
        var m := WithSlots(s.mappings, ids, now);
        (s.(mappings := m, activeClients := |m|), Granted(Body(ids)))
  }

  function Cleanup(s: State, now: nat): State {
    var kept := Retained(s.mappings, now);
    s.(mappings := kept, activeClients := |kept|)
  }

  function Toggle(cfg: Config, s: State, matches: bool): State {
    if cfg.passwordSet && matches then s.(maintenance := !s.maintenance) else s
  }

  /** A connection beyond the permits: counted and dropped. */
  function Refuse(s: State): State {
    s.(dropped := (s.dropped + 1) % U32_RANGE)
  }

  /** A heartbeat tick cleans up and starts a new count of dropped connections. */
  function Heartbeat(s: State, now: nat): State {
    Cleanup(s, now).(dropped := 0)
  }

  /** Free slots, used slots and dropped connections as /status reports them. */
  function Status(cfg: Config, s: State): (int, int, int) {
    var active := |s.mappings|;
    (if cfg.maxClients >= active then cfg.maxClients - active else 0, active, s.dropped)
  }
}

module TunnelV2Server {
  import opened Net
  import opened Clients
  import opened Decimal
  import opened TunnelV2Spec
  import MetricsSpec
  import MetricsClasses

  class TunnelV2 {
    const config: Config
    var mappings: map<I16, Client>
    var maintenanceMode: bool
    var activeClients: nat
    var droppedConnections: nat

    function View(): State
      reads this
    {
      State(mappings, maintenanceMode, activeClients, droppedConnections)
    }

    constructor (config: Config)
      ensures View() == Init() && this.config == config
    {
      this.config := config;
      mappings, maintenanceMode, activeClients, droppedConnections := map[], false, 0, 0;
    }

    method OnUdpReceive(d: Datagram, now: nat)
      returns (ghost verdict: Verdict, sent: Option<Send>, traffic: Option<Traffic>)
      modifies this
      ensures Outcome(View(), verdict, sent, traffic) == TunnelV2Spec.OnUdpReceive(config, old(View()), d, now)
    {
      if |d.packet| < 4 {
        return BadSize, None, None;
      }
      var sender := FromBeBytes(d.packet[0], d.packet[1]);
      var receiver := FromBeBytes(d.packet[2], d.packet[3]);
      traffic := Recorded(d, None);
      if !ValidPacket(config, sender, receiver, d.from) {
        return Invalid, None, traffic;
      }
      if sender == 0 && receiver == 0 {
        if |d.packet| == PING_LENGTH && d.pingAllowed {
          sent := Some(Send(d.from, d.packet[..PING_REPLY_LENGTH]));
          return Ping(true), sent, Recorded(d, sent);
        }
        return Ping(false), None, traffic;
      }
      if maintenanceMode {
        return UnderMaintenance, None, traffic;
      }
      ghost var binding;
      binding, sent := HandleDataForward(sender, receiver, d, now);
      verdict := Data(sender, binding);
      traffic := Recorded(d, sent);
    }

    /** Handles a datagram of legal size and records it, and its send if one went out. */
    method HandleRecorded(d: Datagram, now: nat, batch: MetricsClasses.LocalMetricsBatch) returns (sent: Option<Send>)
      requires 4 <= |d.packet| <= 1472
      modifies this, batch
      ensures View() == Receive(config, old(View()), d, now).state && sent == Receive(config, old(View()), d, now).sent
      ensures var tx := if sent.Some? && d.sendOk then Some(|sent.value.bytes|) else None;
        batch.Batch() == MetricsSpec.WithDatagram(old(batch.Batch()), MetricsSpec.V2, |d.packet|, tx)
      ensures batch.counter == old(batch.counter)
    {
      NoAmplification(config, View(), d, now);
      ghost var verdict, traffic;
      verdict, sent, traffic := OnUdpReceive(d, now);
      batch.RecordV2Rx(|d.packet|);
      if sent.Some? && d.sendOk {
        batch.RecordV2Tx(|sent.value.bytes|);
      }
      ghost var tx := if sent.Some? && d.sendOk then Some(|sent.value.bytes|) else None;
      MetricsSpec.RecordsExactly(old(batch.Batch()), MetricsSpec.V2, |d.packet|, tx);
    }

    /** One turn of a receive loop, by what the socket gave. A datagram of legal
        size is handled, its traffic recorded, and every 64th time the batch is
        flushed; an error, given as None, flushes it at once. */
    method ReceiveLoopTurn(received: Option<Datagram>, now: nat,
                           batch: MetricsClasses.LocalMetricsBatch, metrics: MetricsClasses.Metrics)
      returns (sent: Option<Send>)
      modifies this, batch, metrics
      ensures received.None? ==>
        && View() == old(View()) && sent == None && batch.counter == old(batch.counter)
        && batch.Batch() == MetricsSpec.Zeros()
        && metrics.Shared() == MetricsSpec.AddedTo(old(metrics.Shared()), old(batch.Batch()))
      ensures received.Some? ==>
        && View() == Receive(config, old(View()), received.value, now).state
        && sent == Receive(config, old(View()), received.value, now).sent
      ensures received.Some? && !(4 <= |received.value.packet| <= 1472) ==>
        unchanged(batch) && unchanged(metrics)
      ensures received.Some? && 4 <= |received.value.packet| <= 1472 ==>
        var tx := if sent.Some? && received.value.sendOk then Some(|sent.value.bytes|) else None;
        var total := MetricsSpec.WithDatagram(old(batch.Batch()), MetricsSpec.V2, |received.value.packet|, tx);
        && batch.counter == (old(batch.counter) + 1) % 0x1_0000
        && if batch.counter % 64 == 0 then
             && batch.Batch() == MetricsSpec.Zeros()
             && metrics.Shared() == MetricsSpec.AddedTo(old(metrics.Shared()), total)
           else batch.Batch() == total && metrics.Shared() == old(metrics.Shared())
    {
      if received.None? {
        batch.Flush(metrics);
        return None;
      }
      var d := received.value;
      if !(4 <= |d.packet| <= MAX_PACKET_SIZE) {
        return None;
      }
      sent := HandleRecorded(d, now, batch);
      batch.MaybeFlush(metrics);
    }

    method HandleDataForward(sender: I16, receiver: I16, d: Datagram, now: nat)
      returns (ghost binding: Binding, sent: Option<Send>)
      modifies this`mappings
      ensures Outcome(View(), Data(sender, binding), sent, Recorded(d, sent))
           == DataForward(old(View()), sender, receiver, d, now)
    {
      sent := None;
      binding := Unknown;
      if sender in mappings {
        var client := mappings[sender];
        if client.endpoint.None? {
          mappings := mappings[sender := Client(Some(d.from), now)];
          binding := Bound;
        } else if client.endpoint.value != d.from {
          if TimedOut(client, now) {
            mappings := mappings[sender := Client(Some(d.from), now)];
            binding := Rebound;
          } else {
            return Mismatch, None;
          }
        } else {
          mappings := mappings[sender := client.(lastReceive := now)];
          binding := Refreshed;
        }
        if receiver in mappings {
          var ep := mappings[receiver].endpoint;
          if ep.Some? && ep.value != d.from {
            sent := Some(Send(ep.value, d.packet));
          }
        }
      }
    }

    /** `draws` is what the random generator yields; the handler draws at most
        1000 times, inserts each new id at once and takes all back if it falls
        short. */
    method HandleRequest(clients: nat, now: nat, draws: seq<I16>) returns (reply: Reply)
      requires |draws| >= MAX_ATTEMPTS
      modifies this
      ensures (View(), reply) == Request(config, old(View()), now, clients, draws)
    {
      if maintenanceMode {
        return InMaintenance;
      }
      if clients < 2 || clients > 8 {
        return BadCount;
      }
      if |mappings| + clients > config.maxClients {
        return NotEnoughSlots;
      }
      ghost var before := mappings;
      var clientIds, ids := DrawIds(clients, now, draws);
      if |clientIds| < clients {
        RollBack(clientIds, ids, before, now);
        return Exhausted;
      }
      activeClients := |mappings|;
      reply := Granted("[" + Join(clientIds) + "]");
    }

    /** The drawing loop: stops at `clients` ids or after 1000 draws. */
    method DrawIds(clients: nat, now: nat, draws: seq<I16>) returns (clientIds: seq<string>, ghost ids: seq<I16>)
      requires |draws| >= MAX_ATTEMPTS
      modifies this`mappings
      ensures var all := Fresh(draws, MAX_ATTEMPTS, old(mappings.Keys));
        ids == if |all| < clients then all else all[..clients]
      ensures clientIds == Strings(ids) && mappings == WithSlots(old(mappings), ids, now)
      ensures Distinct(ids) && forall id :: id in ids ==> id !in old(mappings)
    {
      clientIds, ids := [], [];
      var attempts := 0;
      while |clientIds| < clients && attempts < MAX_ATTEMPTS
        invariant attempts <= MAX_ATTEMPTS && |clientIds| <= clients
        invariant clientIds == Strings(ids)
        invariant ids == Fresh(draws, attempts, old(mappings.Keys))
        invariant mappings == WithSlots(old(mappings), ids, now)
      {
        var clientId := draws[attempts];
        attempts := attempts + 1;
        if clientId != 0 && clientId !in mappings {
          StringsAppend(ids, clientId);
          WithSlotsAppend(old(mappings), ids, now, clientId);
          mappings := mappings[clientId := Client(None, now)];
          clientIds := clientIds + [ToString(clientId)];
          ids := ids + [clientId];
        }
      }
      FreshTaken(draws, attempts, old(mappings.Keys), clients);
    }

    /** Parses each printed id back and removes it. */
    method RollBack(clientIds: seq<string>, ghost ids: seq<I16>, ghost before: map<I16, Client>, now: nat)
      requires clientIds == Strings(ids) && mappings == WithSlots(before, ids, now)
      requires Distinct(ids) && forall id :: id in ids ==> id !in before
      modifies this`mappings
      ensures mappings == before
    {
      var n := 0;
      while n < |clientIds|
        invariant n <= |clientIds|
        invariant mappings == WithSlots(before, ids[n..], now)
      {
        var id := Parse(clientIds[n]);
        PrintParse(ids[n]);
        WithoutFirst(before, ids, n, now);
        if id.Some? {
          mappings := mappings - {id.value};
        }
        n := n + 1;
      }
    }

    method CleanupExpiredMappings(now: nat)
      modifies this`mappings, this`activeClients
      ensures View() == Cleanup(old(View()), now)
    {
      var todo := mappings.Keys;
      while todo != {}
        invariant todo <= mappings.Keys <= old(mappings.Keys)
        invariant forall k :: k in mappings ==> mappings[k] == old(mappings)[k]
        invariant forall k :: k in old(mappings) - todo ==> (k in mappings <==> !TimedOut(old(mappings)[k], now))
        decreases |todo|
      {
        var key :| key in todo;
        if TimedOut(mappings[key], now) {
          mappings := mappings - {key};
        }
        todo := todo - {key};
      }
      RetainedIs(old(mappings), mappings, now);
      activeClients := |mappings|;
    }

    method HandleMaintenance(matches: bool)
      modifies this`maintenanceMode
      ensures View() == Toggle(config, old(View()), matches)
    {
      if config.passwordSet && matches {
        maintenanceMode := !maintenanceMode;
      }
    }

    method HandleStatus() returns (free: nat, active: nat, dropped: nat)
      ensures (free, active, dropped) == Status(config, View())
      ensures active == |mappings| && dropped == droppedConnections
      ensures free == if |mappings| <= config.maxClients then config.maxClients - |mappings| else 0
    {
      active := |mappings|;
      free := if config.maxClients >= active then config.maxClients - active else 0;
      dropped := droppedConnections;
    }

    method RefuseConnection()
      modifies this`droppedConnections
      ensures View() == Refuse(old(View()))
    {
      droppedConnections := (droppedConnections + 1) % U32_RANGE;
    }

    /** One tick of the heartbeat loop; returns the count it logs. */
    method HeartbeatTick(now: nat) returns (dropped: nat)
      modifies this
      ensures View() == Heartbeat(old(View()), now) && dropped == old(droppedConnections)
    {
      CleanupExpiredMappings(now);
      dropped := droppedConnections;
      droppedConnections := 0;
    }
  }
}
