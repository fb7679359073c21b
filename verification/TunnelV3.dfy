/** The V3 relay, one packet, heartbeat or command per step. The functions
    give the effect of a step on the relay's state; the class below performs
    the same steps in place. */
module TunnelV3Spec {
  import opened Net
  import opened Clients

  type Id = x: int | 0 <= x < 0x1_0000_0000
  type U8 = x: int | 0 <= x < 256

  const BROADCAST_ID: Id := 0xFFFF_FFFF
  const COMMAND_RATE_LIMIT_SECS: nat := 60
  const COMMAND_LENGTH: nat := 29
  const PING_LENGTH: nat := 50
  const PING_REPLY_LENGTH: nat := 12

  /** `passwordSha1` is None when no maintenance password is configured. */
  datatype Config = Config(
    maxClients: nat,
    passwordSha1: Option<seq<Byte>>,
    validAddress: Endpoint -> bool)

  datatype State = State(
    mappings: map<Id, Client>,
    analyzers: set<Id>,
    maintenance: bool,
    lastCommand: nat,
    activeClients: nat,
    cleanupCounter: U8)

  function Init(): State {
    State(map[], {}, false, 0, 0, 0)
  }

  /** A datagram together with the answers the rate limiters and the socket
      give while it is handled. */
  datatype Datagram = Datagram(
    packet: seq<Byte>,
    from: Endpoint,
    pingAllowed: bool,
    connectAllowed: bool,
    sendOk: bool)

  /** What the sender check decided about a data packet. */
  datatype Admission =
    | Refreshed | Rebound | Registered
    | Mismatch | RebindLimited | Unbound | ConnectLimited | Full

  predicate Accepts(a: Admission) {
    a.Refreshed? || a.Rebound? || a.Registered?
  }

  datatype Verdict =
    | BadSize | Command | Invalid | Ping(answered: bool) | UnderMaintenance
    | Data(sender: Id, admission: Admission)

  datatype Outcome = Outcome(
    state: State,
    verdict: Verdict,
    sent: Option<Send>,
    traffic: Option<Traffic>)

  // ---- Header ----

  function FromLeBytes(b: seq<Byte>): (r: Id)
    requires |b| == 4
  {
    var b0: int, b1: int, b2: int, b3: int := b[0], b[1], b[2], b[3];
    b0 + 0x100 * b1 + 0x1_0000 * b2 + 0x100_0000 * b3
  }

  function ToLeBytes(x: Id): (b: seq<Byte>)
    ensures |b| == 4
  {
    [x % 0x100, x / 0x100 % 0x100, x / 0x1_0000 % 0x100, x / 0x100_0000]
  }

  /** The two ids of a packet, None when it is too short to hold them. */
  function ParseHeader(packet: seq<Byte>): Option<(Id, Id)> {
    if |packet| < 8 then None
    else Some((FromLeBytes(packet[0..4]), FromLeBytes(packet[4..8])))
  }

  lemma LeBytesRoundTrip(x: Id)
    ensures FromLeBytes(ToLeBytes(x)) == x
  {
    var a, b, c := x / 0x100, x / 0x1_0000, x / 0x100_0000;
    assert b == a / 0x100;
    assert c == b / 0x100;
  }

  /** A client that writes its id and the peer's id in front of any payload is
      read back with exactly these two ids. */
  lemma HeaderRoundTrip(sender: Id, receiver: Id, payload: seq<Byte>)
    ensures ParseHeader(ToLeBytes(sender) + ToLeBytes(receiver) + payload) == Some((sender, receiver))
  {
    LeBytesRoundTrip(sender);
    LeBytesRoundTrip(receiver);
    var packet := ToLeBytes(sender) + ToLeBytes(receiver) + payload;
    assert packet[0..4] == ToLeBytes(sender);
    assert packet[4..8] == ToLeBytes(receiver);
  }

  // ---- Data packets ----

  predicate ValidPacket(cfg: Config, sender: Id, receiver: Id, from: Endpoint) {
    !(sender == receiver && sender != 0) && cfg.validAddress(from)
  }

  function Decide(cfg: Config, s: State, id: Id, d: Datagram, now: nat): Admission {
    if id in s.mappings then
      var c := s.mappings[id];
      if c.endpoint.None? then Unbound
      else if c.endpoint.value == d.from then Refreshed
      else if !TimedOut(c, now) then Mismatch
      else if d.connectAllowed then Rebound
      else RebindLimited
    else if |s.mappings| >= cfg.maxClients then Full
    else if d.connectAllowed then Registered
    else ConnectLimited
  }

  function Admit(s: State, id: Id, from: Endpoint, now: nat, a: Admission): State
    requires a.Refreshed? ==> id in s.mappings
  {
    if a.Refreshed? then
      s.(mappings := s.mappings[id := s.mappings[id].(lastReceive := now)])
    else if a.Rebound? then
      s.(mappings := s.mappings[id := Client(Some(from), now)], analyzers := s.analyzers + {id})
    else if a.Registered? then
      var grown := s.mappings[id := Client(Some(from), now)];
      s.(mappings := grown, analyzers := s.analyzers + {id}, activeClients := |grown|)
    else s
  }

  /** Where a packet for `receiver` goes: never back to the endpoint it came from. */
  function Target(s: State, receiver: Id, from: Endpoint): Option<Endpoint> {
    if receiver in s.mappings && s.mappings[receiver].endpoint.Some? && s.mappings[receiver].endpoint.value != from
    then s.mappings[receiver].endpoint
    else None
  }

  function Recorded(d: Datagram, sent: Option<Send>): Option<Traffic> {
    Some(Traffic(|d.packet|, if sent.Some? && d.sendOk then Some(|sent.value.bytes|) else None))
  }

  function DataForward(cfg: Config, s: State, sender: Id, receiver: Id, d: Datagram, now: nat): Outcome {
    var a := Decide(cfg, s, sender, d, now);
    var s' := Admit(s, sender, d.from, now, a);
    var sent :=
      if Accepts(a) then
        match Target(s', receiver, d.from)
        case None => None
        case Some(ep) => Some(Send(ep, d.packet))
      else None;
    Outcome(s', Data(sender, a), sent, Recorded(d, sent))
  }

  // ---- Commands and cleanup ----

  predicate GateOpen(cfg: Config, s: State, now: nat) {
    !(now - s.lastCommand < COMMAND_RATE_LIMIT_SECS || cfg.passwordSha1.None?)
  }

  predicate Authentic(cfg: Config, packet: seq<Byte>)
    requires |packet| >= COMMAND_LENGTH
  {
    cfg.passwordSha1.Some? && packet[9..29] == cfg.passwordSha1.value
  }

  function Cleanup(s: State, now: nat): State {
    var kept := Retained(s.mappings, now);
    s.(mappings := kept, analyzers := s.analyzers - (s.mappings.Keys - kept.Keys), activeClients := |kept|)
  }

  function Execute(cfg: Config, s: State, packet: seq<Byte>, now: nat): State
    requires |packet| >= COMMAND_LENGTH
  {
    if !GateOpen(cfg, s, now) then s
    else
      var s' := s.(lastCommand := now);
      if !Authentic(cfg, packet) then s'
      else if packet[8] == 0 then s'.(maintenance := !s.maintenance)
      else if packet[8] == 1 then Cleanup(s', now)
      else s'
  }

  function NextCounter(c: U8): U8 {
    (c + 1) % 256
  }

  function Heartbeat(s: State, now: nat): State {
    var s' := s.(cleanupCounter := NextCounter(s.cleanupCounter));
    if s'.cleanupCounter % 3 == 0 then Cleanup(s', now) else s'
  }

  // ---- One datagram ----

  predicate IsCommand(sender: Id, receiver: Id, packet: seq<Byte>) {
    sender == 0 && receiver == BROADCAST_ID && |packet| >= COMMAND_LENGTH
  }

  function OnReceive(cfg: Config, s: State, d: Datagram, now: nat): Outcome {
    match ParseHeader(d.packet)
    case None => Outcome(s, BadSize, None, None)
    case Some((sender, receiver)) =>
      if IsCommand(sender, receiver, d.packet) then
        Outcome(Execute(cfg, s, d.packet, now), Command, None, Recorded(d, None))
      else if !ValidPacket(cfg, sender, receiver, d.from) then
        Outcome(s, Invalid, None, Recorded(d, None))
      else if sender == 0 && receiver == 0 then
        if |d.packet| == PING_LENGTH && d.pingAllowed then
          var sent := Some(Send(d.from, d.packet[..PING_REPLY_LENGTH]));
          Outcome(s, Ping(true), sent, Recorded(d, sent))
        else
          Outcome(s, Ping(false), None, Recorded(d, None))
      else if s.maintenance then
        Outcome(s, UnderMaintenance, None, Recorded(d, None))
      else
        DataForward(cfg, s, sender, receiver, d, now)
  }

  /** One turn of the receive loop. */
  function Receive(cfg: Config, s: State, d: Datagram, now: nat): Outcome {
    if 8 <= |d.packet| <= MAX_PACKET_SIZE then OnReceive(cfg, s, d, now)
    else Outcome(s, BadSize, None, None)
  }

  /** Each datagram causes at most one send, never longer than the datagram;
      data goes out unchanged to someone else, a ping reply is a prefix that
      goes back to its sender; and the metrics batch records exactly that. */
  lemma NoAmplification(cfg: Config, s: State, d: Datagram, now: nat)
    ensures var o := Receive(cfg, s, d, now);
      && (o.traffic.Some? ==> Unamplified(o.traffic.value) && o.traffic.value.rx == |d.packet|)
      && (o.sent.Some? ==> o.traffic.Some? && |o.sent.value.bytes| <= |d.packet|)
      && (o.traffic.Some? ==> (o.traffic.value.tx.Some? <==> o.sent.Some? && d.sendOk))
      && (o.traffic.Some? && o.traffic.value.tx.Some? ==> o.traffic.value.tx.value == |o.sent.value.bytes|)
      && (o.sent.Some? && o.verdict.Data? ==> o.sent.value.bytes == d.packet && o.sent.value.to != d.from)
      && (o.sent.Some? && !o.verdict.Data? ==>
            o.sent.value.bytes == d.packet[..PING_REPLY_LENGTH] && o.sent.value.to == d.from)
  {
  }

  /** Exactly the datagrams of 8 to 1472 bytes are recorded; others do nothing. */
  lemma IllegalSizesIgnored(cfg: Config, s: State, d: Datagram, now: nat)
    ensures var o := Receive(cfg, s, d, now);
      && (o.traffic.Some? <==> 8 <= |d.packet| <= 1472)
      && (!(8 <= |d.packet| <= 1472) ==> o.state == s && o.sent == None)
  {
  }

  /** The header is little-endian, the sender first. */
  lemma HeaderBytes()
    ensures ParseHeader([1, 2, 3, 4, 0xFF, 0, 0, 0x80]) == Some((0x0403_0201, 0x8000_00FF))
  {
  }

  // ---- Exactly what a data packet does ----

  /** A packet of legal size from a valid address that the relay treats as data. */
  predicate DataPacket(cfg: Config, d: Datagram, sender: Id, receiver: Id) {
    && 8 <= |d.packet| <= 1472
    && ParseHeader(d.packet) == Some((sender, receiver))
    && !(sender == 0 && receiver == 0xFFFF_FFFF && |d.packet| >= 29)
    && sender != receiver && cfg.validAddress(d.from)
  }

  /** `ep` may speak for `id`: it holds it, or nobody who still counts does and
      there is room and the connection limiter agrees. */
  predicate MaySpeak(cfg: Config, s: State, id: Id, ep: Endpoint, now: nat, allowed: bool) {
    if id in s.mappings then
      var holder := s.mappings[id];
      holder.endpoint.Some? && (holder.endpoint.value == ep || (now >= holder.lastReceive + 30 && allowed))
    else |s.mappings| < cfg.maxClients && allowed
  }

  predicate HeldBy(s: State, id: Id, ep: Endpoint) {
    id in s.mappings && s.mappings[id].endpoint == Some(ep)
  }

  /** The state once `ep` speaks for `id`. */
  function Spoken(s: State, id: Id, ep: Endpoint, now: nat): State {
    var m := s.mappings[id := Client(Some(ep), now)];
    s.(mappings := m,
       analyzers := if HeldBy(s, id, ep) then s.analyzers else s.analyzers + {id},
       activeClients := if id in s.mappings then s.activeClients else |m|)
  }

  lemma AdmitExact(cfg: Config, s: State, d: Datagram, now: nat, id: Id)
    ensures var a := Decide(cfg, s, id, d, now);
      && (Accepts(a) <==> MaySpeak(cfg, s, id, d.from, now, d.connectAllowed))
      && Admit(s, id, d.from, now, a) == if Accepts(a) then Spoken(s, id, d.from, now) else s
  {
    if HeldBy(s, id, d.from) {
      assert s.mappings[id].(lastReceive := now) == Client(Some(d.from), now);
    }
  }

  /** A data packet is accepted exactly when its source may speak for the
      sender id. Then that id belongs to the source as of now, has an analyzer,
      a new one unless it held the id already, and is counted in the gauge if it
      is new; no other entry changes; and the packet goes out unchanged exactly
      when the receiver was known at another endpoint before. Otherwise nothing
      happens. */
  lemma DataPacketExact(cfg: Config, s: State, d: Datagram, now: nat, sender: Id, receiver: Id)
    requires DataPacket(cfg, d, sender, receiver) && !s.maintenance
    ensures var v := Receive(cfg, s, d, now).verdict;
      v.Data? && v.sender == sender &&
      (Accepts(v.admission) <==> MaySpeak(cfg, s, sender, d.from, now, d.connectAllowed))
    ensures var o := Receive(cfg, s, d, now);
      if MaySpeak(cfg, s, sender, d.from, now, d.connectAllowed) then
        && o.state == Spoken(s, sender, d.from, now)
        && o.sent == (if receiver in s.mappings && s.mappings[receiver].endpoint !in {None, Some(d.from)}
                      then Some(Send(s.mappings[receiver].endpoint.value, d.packet)) else None)
      else o.state == s && o.sent == None
  {
    assert Receive(cfg, s, d, now) == DataForward(cfg, s, sender, receiver, d, now);
    AdmitExact(cfg, s, d, now, sender);
  }

  /** A ping of 50 bytes is echoed, cut to 12 bytes, maintenance or not. */
  lemma PingEchoes(cfg: Config, s: State, d: Datagram, now: nat, payload: seq<Byte>)
    requires d.packet == ToLeBytes(0) + ToLeBytes(0) + payload && |payload| == 42
    requires cfg.validAddress(d.from)
    ensures var o := Receive(cfg, s, d, now);
      && o.state == s
      && o.sent == if d.pingAllowed then Some(Send(d.from, ToLeBytes(0) + ToLeBytes(0) + payload[..4])) else None
  {
    HeaderRoundTrip(0, 0, payload);
    assert d.packet[..PING_REPLY_LENGTH] == ToLeBytes(0) + ToLeBytes(0) + payload[..4];
  }

  // ---- What does nothing ----

  /** A ping of any other length is not answered. */
  lemma OtherPingsIgnored(cfg: Config, s: State, d: Datagram, now: nat, payload: seq<Byte>)
    requires d.packet == ToLeBytes(0) + ToLeBytes(0) + payload && |payload| != 42
    ensures Receive(cfg, s, d, now).state == s && Receive(cfg, s, d, now).sent == None
  {
    HeaderRoundTrip(0, 0, payload);
  }

  /** A datagram from an address that is not valid has no effect unless it is
      shaped like a command: nobody is registered, refreshed, served or answered. */
  lemma StrangersIgnored(cfg: Config, s: State, d: Datagram, now: nat, a: Id, b: Id, payload: seq<Byte>)
    requires d.packet == ToLeBytes(a) + ToLeBytes(b) + payload
    requires !cfg.validAddress(d.from) && (a != 0 || b != 0xFFFF_FFFF || |payload| < 21)
    ensures Receive(cfg, s, d, now).state == s && Receive(cfg, s, d, now).sent == None
  {
    HeaderRoundTrip(a, b, payload);
  }

  /** Nobody can send to itself. */
  lemma OwnIdIgnored(cfg: Config, s: State, d: Datagram, now: nat, id: Id, payload: seq<Byte>)
    requires d.packet == ToLeBytes(id) + ToLeBytes(id) + payload && id != 0
    ensures Receive(cfg, s, d, now).state == s && Receive(cfg, s, d, now).sent == None
  {
    HeaderRoundTrip(id, id, payload);
  }

  // ---- Exactly what a command does ----

  /** A datagram of legal size shaped like a command: `password` after the code. */
  predicate CommandPacket(d: Datagram, code: Byte, password: seq<Byte>, rest: seq<Byte>) {
    && d.packet == ToLeBytes(0) + ToLeBytes(0xFFFF_FFFF) + [code] + password + rest
    && |password| == 20 && |d.packet| <= 1472
  }

  lemma CommandParts(d: Datagram, code: Byte, password: seq<Byte>, rest: seq<Byte>)
    requires CommandPacket(d, code, password, rest)
    ensures ParseHeader(d.packet) == Some((0, BROADCAST_ID)) && d.packet[8] == code && d.packet[9..29] == password
  {
    HeaderRoundTrip(0, BROADCAST_ID, [code] + password + rest);
    assert d.packet == ToLeBytes(0) + ToLeBytes(0xFFFF_FFFF) + ([code] + password + rest);
  }

  /** A wrong password does nothing but start a new minute of waiting. */
  lemma WrongPasswordIgnored(cfg: Config, s: State, d: Datagram, now: nat,
                             code: Byte, password: seq<Byte>, rest: seq<Byte>)
    requires CommandPacket(d, code, password, rest) && cfg.passwordSha1.Some? && cfg.passwordSha1.value != password
    ensures Receive(cfg, s, d, now).state == s.(lastCommand := if now >= s.lastCommand + 60 then now else s.lastCommand)
    ensures Receive(cfg, s, d, now).sent == None
  {
    CommandParts(d, code, password, rest);
  }

  /** Without a configured password, and within a minute of the last command
      that was let through, no command does anything. */
  lemma ClosedGateIgnores(cfg: Config, s: State, d: Datagram, now: nat,
                          code: Byte, password: seq<Byte>, rest: seq<Byte>)
    requires CommandPacket(d, code, password, rest) && (cfg.passwordSha1.None? || now < s.lastCommand + 60)
    ensures Receive(cfg, s, d, now).state == s && Receive(cfg, s, d, now).sent == None
  {
    CommandParts(d, code, password, rest);
  }

  /** `s'` is `s` without the entries silent for 30 seconds, in both tables. */
  ghost predicate Cleaned(s: State, s': State, now: nat) {
    && (forall id :: id in s'.mappings <==> id in s.mappings && now < s.mappings[id].lastReceive + 30)
    && (forall id :: id in s'.mappings ==> s'.mappings[id] == s.mappings[id])
    && (forall id :: id in s'.analyzers <==>
          id in s.analyzers && !(id in s.mappings && now >= s.mappings[id].lastReceive + 30))
    && s'.activeClients == |s'.mappings|
    && s' == s.(mappings := s'.mappings, analyzers := s'.analyzers, activeClients := s'.activeClients)
  }

  lemma CleanupCleans(s: State, now: nat)
    ensures Cleaned(s, Cleanup(s, now), now)
  {
  }

  /** With the right password, a minute after the last command let through,
      code 0 toggles maintenance, code 1 cleans up, and others do nothing. */
  lemma PasswordObeyed(cfg: Config, s: State, d: Datagram, now: nat,
                       code: Byte, password: seq<Byte>, rest: seq<Byte>)
    requires CommandPacket(d, code, password, rest) && cfg.passwordSha1 == Some(password) && now >= s.lastCommand + 60
    ensures var o, waited := Receive(cfg, s, d, now), s.(lastCommand := now);
      && o.sent == None
      && (code == 0 ==> o.state == waited.(maintenance := !s.maintenance))
      && (code == 1 ==> Cleaned(waited, o.state, now))
      && (code > 1 ==> o.state == waited)
  {
    CommandParts(d, code, password, rest);
    CleanupCleans(s.(lastCommand := now), now);
  }
}

module TunnelV3Server {
  import opened Net
  import opened Clients
  import opened TunnelV3Spec
  import MetricsSpec
  import MetricsClasses

  class TunnelV3 {
    const config: Config
    var mappings: map<Id, Client>
    var analyzers: set<Id>
    var maintenanceMode: bool
    var lastCommandTick: nat
    var activeClients: nat
    var cleanupCounter: U8

    function View(): State
      reads this
    {
      State(mappings, analyzers, maintenanceMode, lastCommandTick, activeClients, cleanupCounter)
    }

    constructor (config: Config)
      ensures View() == Init() && this.config == config
    {
      this.config := config;
      mappings, analyzers, maintenanceMode := map[], {}, false;
      lastCommandTick, activeClients, cleanupCounter := 0, 0, 0;
    }

    method OnReceive(d: Datagram, now: nat)
      returns (ghost verdict: Verdict, sent: Option<Send>, traffic: Option<Traffic>)
      modifies this
      ensures Outcome(View(), verdict, sent, traffic) == TunnelV3Spec.OnReceive(config, old(View()), d, now)
    {
      var header := ParseHeader(d.packet);
      if header.None? {
        return BadSize, None, None;
      }
      var (sender, receiver) := header.value;
      traffic := Recorded(d, None);
      if sender == 0 && receiver == BROADCAST_ID && |d.packet| >= COMMAND_LENGTH {
        ExecuteCommand(d.packet, now);
        return Command, None, traffic;
      }
      if !ValidPacket(config, sender, receiver, d.from) {
        return Invalid, None, traffic;
      }
      if sender == 0 && receiver == 0 {
        if |d.packet| == PING_LENGTH && d.pingAllowed {
          sent := Some(Send(d.from, d.packet[..PING_REPLY_LENGTH]));
          return Ping(true), sent, Recorded(d, sent);
        }
        return Ping(false), None, traffic;
      }
      if maintenanceMode {
        return UnderMaintenance, None, traffic;
      }
      ghost var admission;
      admission, sent := HandleDataForward(sender, receiver, d, now);
      verdict := Data(sender, admission);
      traffic := Recorded(d, sent);
    }

    /** Handles a datagram of legal size and records it, and its send if one went out. */
    method HandleRecorded(d: Datagram, now: nat, batch: MetricsClasses.LocalMetricsBatch) returns (sent: Option<Send>)
      requires 8 <= |d.packet| <= 1472
      modifies this, batch
      ensures View() == Receive(config, old(View()), d, now).state && sent == Receive(config, old(View()), d, now).sent
      ensures var tx := if sent.Some? && d.sendOk then Some(|sent.value.bytes|) else None;
        batch.Batch() == MetricsSpec.WithDatagram(old(batch.Batch()), MetricsSpec.V3, |d.packet|, tx)
      ensures batch.counter == old(batch.counter)
    {
      NoAmplification(config, View(), d, now);
      ghost var verdict, traffic;
      verdict, sent, traffic := OnReceive(d, now);
      batch.RecordV3Rx(|d.packet|);
      if sent.Some? && d.sendOk {
        batch.RecordV3Tx(|sent.value.bytes|);
      }
      ghost var tx := if sent.Some? && d.sendOk then Some(|sent.value.bytes|) else None;
      MetricsSpec.RecordsExactly(old(batch.Batch()), MetricsSpec.V3, |d.packet|, tx);
    }

    /** One turn of a receive loop, by what the socket gave. A datagram of legal
        size is handled, its traffic recorded, and every 64th time the batch is
        flushed; an error, given as None, flushes it at once. */
    method ReceiveLoopTurn(received: Option<Datagram>, now: nat,
                           batch: MetricsClasses.LocalMetricsBatch, metrics: MetricsClasses.Metrics)
      returns (sent: Option<Send>)
      modifies this, batch, metrics
      ensures received.None? ==>
        && View() == old(View()) && sent == None && batch.counter == old(batch.counter)
        && batch.Batch() == MetricsSpec.Zeros()
        && metrics.Shared() == MetricsSpec.AddedTo(old(metrics.Shared()), old(batch.Batch()))
      ensures received.Some? ==>
        && View() == Receive(config, old(View()), received.value, now).state
        && sent == Receive(config, old(View()), received.value, now).sent
      ensures received.Some? && !(8 <= |received.value.packet| <= 1472) ==>
        unchanged(batch) && unchanged(metrics)
      ensures received.Some? && 8 <= |received.value.packet| <= 1472 ==>
        var tx := if sent.Some? && received.value.sendOk then Some(|sent.value.bytes|) else None;
        var total := MetricsSpec.WithDatagram(old(batch.Batch()), MetricsSpec.V3, |received.value.packet|, tx);
        && batch.counter == (old(batch.counter) + 1) % 0x1_0000
        && if batch.counter % 64 == 0 then
             && batch.Batch() == MetricsSpec.Zeros()
             && metrics.Shared() == MetricsSpec.AddedTo(old(metrics.Shared()), total)
           else batch.Batch() == total && metrics.Shared() == old(metrics.Shared())
    {
      if received.None? {
        batch.Flush(metrics);
        return None;
      }
      var d := received.value;
      if !(8 <= |d.packet| <= MAX_PACKET_SIZE) {
        return None;
      }
      sent := HandleRecorded(d, now, batch);
      batch.MaybeFlush(metrics);
    }

    method HandleDataForward(sender: Id, receiver: Id, d: Datagram, now: nat)
      returns (ghost admission: Admission, sent: Option<Send>)
      modifies this
      ensures Outcome(View(), Data(sender, admission), sent, Recorded(d, sent))
           == DataForward(config, old(View()), sender, receiver, d, now)
    {
      var senderValid := false;
      sent := None;
      if sender in mappings {
        var client := mappings[sender];
        admission := Unbound;
        if client.endpoint.Some? {
          if client.endpoint.value != d.from {
            admission := Mismatch;
            if TimedOut(client, now) {
              admission := RebindLimited;
              if d.connectAllowed {
                mappings := mappings[sender := Client(Some(d.from), now)];
                analyzers := analyzers + {sender};
                senderValid, admission := true, Rebound;
              }
            }
          } else {
            mappings := mappings[sender := client.(lastReceive := now)];
            senderValid, admission := true, Refreshed;
          }
        }
      } else if |mappings| < config.maxClients {
        admission := ConnectLimited;
        if d.connectAllowed {
          mappings := mappings[sender := Client(Some(d.from), now)];
          analyzers := analyzers + {sender};
          activeClients := |mappings|;
          senderValid, admission := true, Registered;
        }
      } else {
        admission := Full;
      }
      if senderValid && receiver in mappings {
        var ep := mappings[receiver].endpoint;
        if ep.Some? && ep.value != d.from {
          sent := Some(Send(ep.value, d.packet));
        }
      }
    }

    method ExecuteCommand(packet: seq<Byte>, now: nat)
      requires |packet| >= COMMAND_LENGTH
      modifies this
      ensures View() == Execute(config, old(View()), packet, now)
    {
      if now - lastCommandTick < COMMAND_RATE_LIMIT_SECS || config.passwordSha1.None? {
        return;
      }
      lastCommandTick := now;
      if packet[9..29] == config.passwordSha1.value {
        if packet[8] == 0 {
          maintenanceMode := !maintenanceMode;
        } else if packet[8] == 1 {
          CleanupExpiredMappings(now);
        }
      }
    }

    /** Visits every key once, in any order, dropping the timed out ones from
        both tables. */
    method CleanupExpiredMappings(now: nat)
      modifies this`mappings, this`analyzers, this`activeClients
      ensures View() == Cleanup(old(View()), now)
    {
      var todo := mappings.Keys;
      while todo != {}
        invariant todo <= mappings.Keys <= old(mappings.Keys)
        invariant forall k :: k in mappings ==> mappings[k] == old(mappings)[k]
        invariant forall k :: k in old(mappings) - todo ==> (k in mappings <==> !TimedOut(old(mappings)[k], now))
        invariant analyzers == old(analyzers) - (old(mappings.Keys) - mappings.Keys)
        decreases |todo|
      {
        var key :| key in todo;
        if TimedOut(mappings[key], now) {
          analyzers := analyzers - {key};
          mappings := mappings - {key};
        }
        todo := todo - {key};
      }
      RetainedIs(old(mappings), mappings, now);
      activeClients := |mappings|;
    }

    /** One tick of the heartbeat loop. */
    method HeartbeatTick(now: nat)
      modifies this
      ensures View() == Heartbeat(old(View()), now)
    {
      cleanupCounter := (cleanupCounter + 1) % 256;
      if cleanupCounter % 3 == 0 {
        CleanupExpiredMappings(now);
      }
    }
  }
}
