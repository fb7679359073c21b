/** A run of the V3 relay in which maintenance mode costs two live clients their
    connection, although they do all that otherwise keeps it. */
module TunnelV3CutOff {
  import opened Net
  import opened Clients
  import opened TunnelV3Spec
  import opened TunnelV3Runs

  /** The toggle command of somebody who knows the password hash. */
  function ToggleCommand(sha1: seq<Byte>): Datagram {
    Datagram(ToLeBytes(0) + ToLeBytes(BROADCAST_ID) + [0] + sha1, SOMEWHERE, false, false, false)
  }

  lemma ToggleTurnsOn(cfg: Config, s: State, at: nat, sha1: seq<Byte>)
    requires cfg.passwordSha1 == Some(sha1) && |sha1| == 20 && !s.maintenance && at >= s.lastCommand + 60
    ensures Step(cfg, s, Arrival(at, ToggleCommand(sha1))) == s.(maintenance := true, lastCommand := at)
  {
    var packet := ToggleCommand(sha1).packet;
    HeaderRoundTrip(0, BROADCAST_ID, [0] + sha1);
    assert packet == ToLeBytes(0) + ToLeBytes(BROADCAST_ID) + ([0] + sha1);
    assert packet[9..29] == sha1;
  }

  lemma HelloIsDropped(cfg: Config, s: State, at: nat, id: Id, ep: Endpoint, peer: Id)
    requires s.maintenance && id != peer && cfg.validAddress(ep)
    ensures Receive(cfg, s, Hello(id, ep, peer), at).state == s
    ensures Receive(cfg, s, Hello(id, ep, peer), at).sent == None
  {
    HelloIsData(cfg, id, ep, peer);
  }

  predicate TwoClients(cfg: Config, id: Id, ep: Endpoint, peer: Id, peerEp: Endpoint) {
    && cfg.maxClients >= 2 && id != peer && ep != peerEp
    && cfg.validAddress(ep) && cfg.validAddress(peerEp)
    && cfg.passwordSha1.Some? && |cfg.passwordSha1.value| == 20
  }

  /** Two clients meet after the second tick, at second 60; a toggle follows;
      one client goes on sending at gaps below the timeout; the third tick cleans. */
  predicate CutOff(cfg: Config, evs: seq<Event>, id: Id, ep: Endpoint, peer: Id, peerEp: Endpoint) {
    && TwoClients(cfg, id, ep, peer, peerEp)
    && |evs| == 8 && evs[0] == Beat(0) && evs[1] == Beat(60)
    && evs[2] == Arrival(60, Hello(id, ep, peer)) && evs[3] == Arrival(60, Hello(peer, peerEp, id))
    && evs[4] == Arrival(60, ToggleCommand(cfg.passwordSha1.value))
    && evs[5] == Arrival(85, Hello(id, ep, peer)) && evs[6] == Arrival(110, Hello(id, ep, peer))
    && evs[7] == Beat(120)
  }

  lemma CutOffTicks(cfg: Config, evs: seq<Event>, id: Id, ep: Endpoint, peer: Id, peerEp: Endpoint)
    requires CutOff(cfg, evs, id, ep, peer, peerEp)
    ensures StateAt(cfg, evs, 2) == Init().(cleanupCounter := 2)
  {
    assert StateAt(cfg, evs, 1) == Init().(cleanupCounter := 1);
  }

  lemma CutOffMeeting(cfg: Config, evs: seq<Event>, id: Id, ep: Endpoint, peer: Id, peerEp: Endpoint)
    requires CutOff(cfg, evs, id, ep, peer, peerEp)
    ensures AcceptedAt(cfg, evs, 2, id, ep) && AcceptedAt(cfg, evs, 3, peer, peerEp)
    ensures var s := StateAt(cfg, evs, 4);
      && s.mappings == map[id := Client(Some(ep), 60), peer := Client(Some(peerEp), 60)]
      && !s.maintenance && s.lastCommand == 0 && s.cleanupCounter == 2
  {
    CutOffTicks(cfg, evs, id, ep, peer, peerEp);
    HelloRegisters(cfg, StateAt(cfg, evs, 2), 60, id, ep, peer);
    assert StateAt(cfg, evs, 3).mappings == map[id := Client(Some(ep), 60)];
    HelloRegisters(cfg, StateAt(cfg, evs, 3), 60, peer, peerEp, id);
  }

  lemma CutOffState(cfg: Config, evs: seq<Event>, id: Id, ep: Endpoint, peer: Id, peerEp: Endpoint, x: nat)
    requires CutOff(cfg, evs, id, ep, peer, peerEp) && 5 <= x <= 7
    ensures var s := StateAt(cfg, evs, x);
      && s.maintenance && s.cleanupCounter == 2
      && s.mappings == map[id := Client(Some(ep), 60), peer := Client(Some(peerEp), 60)]
    ensures x < 7 ==> OutcomeAt(cfg, evs, x).sent == None
  {
    if x == 5 {
      CutOffMeeting(cfg, evs, id, ep, peer, peerEp);
      ToggleTurnsOn(cfg, StateAt(cfg, evs, 4), 60, cfg.passwordSha1.value);
    } else {
      CutOffState(cfg, evs, id, ep, peer, peerEp, x - 1);
      HelloIsDropped(cfg, StateAt(cfg, evs, x - 1), evs[x - 1].at, id, ep, peer);
    }
    if x < 7 {
      HelloIsDropped(cfg, StateAt(cfg, evs, x), evs[x].at, id, ep, peer);
    }
  }

  lemma CutOffEmpties(cfg: Config, evs: seq<Event>, id: Id, ep: Endpoint, peer: Id, peerEp: Endpoint)
    requires CutOff(cfg, evs, id, ep, peer, peerEp)
    ensures EmptyAt(cfg, evs, 8)
  {
    CutOffState(cfg, evs, id, ep, peer, peerEp, 7);
    CleaningDropsExpired(cfg, StateAt(cfg, evs, 7), evs[7]);
  }

  lemma CutOffKeepsSending(cfg: Config, evs: seq<Event>, id: Id, ep: Endpoint, peer: Id, peerEp: Endpoint)
    requires CutOff(cfg, evs, id, ep, peer, peerEp)
    ensures KeepsSending(cfg, evs, 2, 8, id, ep)
  {
    HelloIsData(cfg, id, ep, peer);
    assert SendsData(cfg, evs[5], id, ep) && SendsData(cfg, evs[6], id, ep);
    forall x | 2 < x < 8 ensures InTime(cfg, evs, 2, x, id, ep) {
      assert x == 3 || x == 4 || x == 5 || x == 6 || x == 7;
    }
  }

  lemma CutOffPunctual(cfg: Config, evs: seq<Event>, id: Id, ep: Endpoint, peer: Id, peerEp: Endpoint)
    requires CutOff(cfg, evs, id, ep, peer, peerEp)
    ensures Timed(evs) && Punctual(evs)
  {
    assert BeatCount(evs, 1) == 1;
    assert BeatCount(evs, 2) == BeatCount(evs, 3) == BeatCount(evs, 4) == 2;
    assert BeatCount(evs, 5) == BeatCount(evs, 6) == BeatCount(evs, 7) == 2;
    forall x | 0 <= x < |evs| ensures OnTime(evs, x) {
      assert x == 0 || x == 1 || 2 <= x <= 7;
    }
  }

  /** Maintenance cuts live clients off. Here every premise of KeepAlive holds
      but the flag: the client was accepted at event 2 and keeps sending below
      the timeout, and its peer's entry is there. Still nothing it sends after
      the toggle goes out, and the next cleanup removes it. */
  lemma MaintenanceCutsOff(cfg: Config, id: Id, ep: Endpoint, peer: Id, peerEp: Endpoint) returns (evs: seq<Event>)
    requires TwoClients(cfg, id, ep, peer, peerEp)
    ensures CutOff(cfg, evs, id, ep, peer, peerEp) && Timed(evs) && Punctual(evs)
    ensures AcceptedAt(cfg, evs, 2, id, ep) && AcceptedAt(cfg, evs, 3, peer, peerEp)
    ensures KeepsSending(cfg, evs, 2, 8, id, ep)
    ensures {id, peer} == StateAt(cfg, evs, 5).mappings.Keys == StateAt(cfg, evs, 7).mappings.Keys
    ensures OutcomeAt(cfg, evs, 5).sent == None && OutcomeAt(cfg, evs, 6).sent == None
    ensures EmptyAt(cfg, evs, 8)
  {
    evs := [Beat(0), Beat(60), Arrival(60, Hello(id, ep, peer)), Arrival(60, Hello(peer, peerEp, id)),
            Arrival(60, ToggleCommand(cfg.passwordSha1.value)),
            Arrival(85, Hello(id, ep, peer)), Arrival(110, Hello(id, ep, peer)), Beat(120)];
    CutOffMeeting(cfg, evs, id, ep, peer, peerEp);
    CutOffState(cfg, evs, id, ep, peer, peerEp, 5);
    CutOffState(cfg, evs, id, ep, peer, peerEp, 6);
    CutOffState(cfg, evs, id, ep, peer, peerEp, 7);
    CutOffEmpties(cfg, evs, id, ep, peer, peerEp);
    CutOffKeepsSending(cfg, evs, id, ep, peer, peerEp);
    CutOffPunctual(cfg, evs, id, ep, peer, peerEp);
  }
}
