/** The accept loop of the V2 HTTP server and the heartbeat: connections beyond
    the 100 permits are dropped and counted twice, once in a 32-bit counter the
    heartbeat swaps out and once in the 64-bit metric. */
module FrontDoor {
  import Workers = TunnelV2Workers

  const MAX_HTTP_CONNECTIONS: nat := 100
  const U32_RANGE: nat := 0x1_0000_0000
  const U64_RANGE: nat := 0x1_0000_0000_0000_0000

  /** `counting` says that the accept loop is between its two increments. The
      history: all values swapped out, all drops seen by the metric, the drops
      since the last swap, and how often the 32-bit counter wrapped. */
  datatype Sys = Sys(
    permitsInUse: nat,
    counting: bool,
    dropped: nat,
    metric: nat,
    swappedOut: nat,
    counted: nat,
    sinceSwap: nat,
    wraps: nat)

  datatype Action = Accept | CountInMetric | Release | SwapOut

  function Init(): Sys {
    Sys(0, false, 0, 0, 0, 0, 0, 0)
  }

  function Do(s: Sys, a: Action): Sys {
    match a
    case Accept =>
      if s.counting then s
      else if s.permitsInUse < MAX_HTTP_CONNECTIONS then s.(permitsInUse := s.permitsInUse + 1)
      else s.(counting := true, dropped := (s.dropped + 1) % U32_RANGE, sinceSwap := s.sinceSwap + 1,
              wraps := if s.dropped + 1 == U32_RANGE then s.wraps + 1 else s.wraps)
    case CountInMetric =>
      if s.counting then s.(counting := false, metric := (s.metric + 1) % U64_RANGE, counted := s.counted + 1) else s
    case Release =>
      if s.permitsInUse > 0 then s.(permitsInUse := s.permitsInUse - 1) else s
    case SwapOut =>
      s.(swappedOut := s.swappedOut + s.dropped, dropped := 0, sinceSwap := 0)
  }

  /** The system after any interleaving of the accept loop, the connections
      that end, and the heartbeat. */
  function Run(acts: seq<Action>): Sys
    decreases |acts|
  {
    if acts == [] then Init() else Do(Run(acts[..|acts| - 1]), acts[|acts| - 1])
  }

  predicate Balanced(s: Sys) {
    && s.permitsInUse <= MAX_HTTP_CONNECTIONS
    && s.dropped < U32_RANGE
    && s.dropped <= s.sinceSwap
    && s.metric == s.counted % U64_RANGE
    && s.swappedOut + s.dropped + U32_RANGE * s.wraps == s.counted + (if s.counting then 1 else 0)
  }

  lemma OneMoreModulo(n: nat)
    ensures (n % U64_RANGE + 1) % U64_RANGE == (n + 1) % U64_RANGE
  {
  }

  lemma StepKeepsBalance(s: Sys, a: Action)
    requires Balanced(s)
    ensures Balanced(Do(s, a))
  {
    match a
    case Accept =>
    case CountInMetric => OneMoreModulo(s.counted);
    case Release =>
    case SwapOut =>
  }

  lemma {:induction false} RunBalanced(acts: seq<Action>)
    ensures Balanced(Run(acts))
    decreases |acts|
  {
    if acts != [] {
      RunBalanced(acts[..|acts| - 1]);
      StepKeepsBalance(Run(acts[..|acts| - 1]), acts[|acts| - 1]);
    }
  }

  /** At most 100 handlers ever run, in every interleaving. */
  lemma HandlersBounded(acts: seq<Action>)
    ensures Run(acts).permitsInUse <= 100
  {
    RunBalanced(acts);
  }

  /** How many connections have arrived, and how many have ended, so far. An
      accept loop that is still counting a drop takes no connection. */
  function Arrived(acts: seq<Action>): nat
    decreases |acts|
  {
    if acts == [] then 0
    else
      var before, a := acts[..|acts| - 1], acts[|acts| - 1];
      Arrived(before) + if a.Accept? && !Run(before).counting then 1 else 0
  }

  function Ended(acts: seq<Action>): nat
    decreases |acts|
  {
    if acts == [] then 0
    else
      var before, a := acts[..|acts| - 1], acts[|acts| - 1];
      Ended(before) + if a.Release? && Run(before).permitsInUse > 0 then 1 else 0
  }

  function Dropped(s: Sys): nat {
    s.counted + if s.counting then 1 else 0
  }

  lemma DoorStep(s: Sys, a: Action)
    requires s.permitsInUse <= 100
    ensures var s' := Do(s, a);
      var arrives, ends := a.Accept? && !s.counting, a.Release? && s.permitsInUse > 0;
      && Dropped(s') == Dropped(s) + (if arrives && s.permitsInUse == 100 then 1 else 0)
      && s'.permitsInUse == s.permitsInUse + (if arrives && s.permitsInUse < 100 then 1 else 0) - if ends then 1 else 0
  {
  }

  /** Every connection that arrived is being handled, has ended or was dropped. */
  lemma {:induction false} Admission(acts: seq<Action>)
    ensures Arrived(acts) == Run(acts).permitsInUse + Ended(acts) + Dropped(Run(acts))
    decreases |acts|
  {
    if acts != [] {
      var before, a := acts[..|acts| - 1], acts[|acts| - 1];
      Admission(before);
      HandlersBounded(before);
      DoorStep(Run(before), a);
    }
  }

  /** A connection is dropped exactly when it arrives while 100 are being handled. */
  lemma DroppedExactly(acts: seq<Action>)
    requires !Run(acts).counting
    ensures var s, s' := Run(acts), Run(acts + [Accept]);
      && (Dropped(s') == Dropped(s) + 1 <==> s.permitsInUse == 100)
      && (s'.permitsInUse == s.permitsInUse + 1 <==> s.permitsInUse < 100)
  {
    assert (acts + [Accept])[..|acts|] == acts;
    HandlersBounded(acts);
    DoorStep(Run(acts), Accept);
  }

  /** So however the server is scheduled, with as many handlers as the front door
      ever lets in, the V2 table stays within max_clients + W + 8 * 99. */
  lemma ServerCapacity(cfg: Workers.Setup, acts: seq<Workers.Action>, door: seq<Action>)
    requires 1 <= cfg.handlers <= Run(door).permitsInUse
    ensures |Workers.Run(cfg, acts).table| <= cfg.maxClients + cfg.workers + 8 * 99
  {
    HandlersBounded(door);
    Workers.CapacityBound(cfg, acts);
    Workers.SmallProduct(Workers.Most(cfg), cfg.handlers - 1);
  }

  /** Drops are conserved exactly when the 32-bit counter never wrapped: what
      was swapped out plus the current counter is the metric, plus one only
      between the two increments. Each wrap loses 2^32. */
  lemma DropsConserved(acts: seq<Action>)
    requires Run(acts).counted < U64_RANGE
    ensures var s := Run(acts);
      && s.swappedOut + s.dropped + U32_RANGE * s.wraps == s.metric + (if s.counting then 1 else 0)
      && (s.swappedOut + s.dropped == s.metric + (if s.counting then 1 else 0) <==> s.wraps == 0)
  {
    RunBalanced(acts);
    BalancedDrops(Run(acts));
  }

  lemma BalancedDrops(s: Sys)
    requires Balanced(s) && s.counted < U64_RANGE
    ensures s.swappedOut + s.dropped + U32_RANGE * s.wraps == s.metric + (if s.counting then 1 else 0)
    ensures s.swappedOut + s.dropped == s.metric + (if s.counting then 1 else 0) <==> s.wraps == 0
  {
    assert s.metric == s.counted;
  }

  /** Connections dropped since the last heartbeat swapped the counter out. */
  function DropsSince(acts: seq<Action>): int
    decreases |acts|
  {
    if acts == [] || acts[|acts| - 1].SwapOut? then 0
    else
      var before := acts[..|acts| - 1];
      DropsSince(before) + Dropped(Run(acts)) - Dropped(Run(before))
  }

  lemma SinceStep(s: Sys, a: Action)
    ensures Do(s, a).sinceSwap == if a.SwapOut? then 0 else s.sinceSwap + Dropped(Do(s, a)) - Dropped(s)
  {
  }

  lemma {:induction false} SinceSwapCounts(acts: seq<Action>)
    ensures Run(acts).sinceSwap == DropsSince(acts)
    decreases |acts|
  {
    if acts != [] {
      var before, a := acts[..|acts| - 1], acts[|acts| - 1];
      SinceSwapCounts(before);
      SinceStep(Run(before), a);
    }
  }

  /** Fewer than 2^32 connections are dropped between any two heartbeats. */
  predicate FewDrops(acts: seq<Action>) {
    forall k :: 0 <= k <= |acts| ==> FewAt(acts, k)
  }

  predicate FewAt(acts: seq<Action>, k: nat)
    requires k <= |acts|
  {
    DropsSince(acts[..k]) < 0x1_0000_0000
  }

  lemma FewPrefix(acts: seq<Action>, n: nat, k: nat)
    requires k <= n <= |acts|
    ensures FewAt(acts[..n], k) <==> FewAt(acts, k)
  {
    assert acts[..n][..k] == acts[..k];
  }

  /** As long as the counter has not wrapped it holds the drops since the last
      swap; and each step that wraps it sees 2^32 of these. */
  lemma StepWraps(s: Sys, a: Action)
    requires Balanced(s) && (s.wraps == 0 ==> s.dropped == s.sinceSwap)
    ensures Do(s, a).wraps >= s.wraps
    ensures s.wraps == 0 ==> (Do(s, a).wraps == 0 <==> Do(s, a).sinceSwap < U32_RANGE)
    ensures Do(s, a).wraps == 0 ==> Do(s, a).dropped == Do(s, a).sinceSwap
  {
  }

  /** The counter never wraps if and only if fewer than 2^32 connections are
      dropped between any two heartbeats. */
  lemma {:induction false} NoWrapExactly(acts: seq<Action>)
    ensures Run(acts).wraps == 0 <==> FewDrops(acts)
    ensures Run(acts).wraps == 0 ==> Run(acts).dropped == Run(acts).sinceSwap
    decreases |acts|
  {
    assert acts[..|acts|] == acts;
    if acts == [] {
      assert FewAt(acts, 0);
    } else {
      var n := |acts| - 1;
      NoWrapExactly(acts[..n]);
      RunBalanced(acts[..n]);
      StepWraps(Run(acts[..n]), acts[n]);
      forall k | 0 <= k <= n ensures FewAt(acts[..n], k) <==> FewAt(acts, k) {
        FewPrefix(acts, n, k);
      }
      assert FewDrops(acts) <==> FewDrops(acts[..n]) && FewAt(acts, |acts|);
      SinceSwapCounts(acts);
      assert Run(acts).sinceSwap < U32_RANGE <==> FewAt(acts, |acts|);
    }
  }

  /** Drops are conserved if and only if fewer than 2^32 connections are dropped
      between any two heartbeats. */
  lemma DropsConservedExactly(acts: seq<Action>)
    requires Run(acts).counted < U64_RANGE
    ensures var s := Run(acts);
      s.swappedOut + s.dropped == s.metric + (if s.counting then 1 else 0) <==> FewDrops(acts)
  {
    DropsConserved(acts);
    NoWrapExactly(acts);
  }
}
