/** Any number of V2 and V3 receive workers recording into their batches and
    flushing them, with every fetch_add on a shared counter its own step.
    `recorded` and `calls` are history: all a worker ever recorded, and how
    often it has finished a packet. */
module MetricsWorkers {
  import opened Net
  import opened MetricsSpec

  /** A worker waits for a packet, handles one whose send is still to be
      recorded or not, or has flushed the counters below `next`. */
  datatype Pc = Polling | Handling(traffic: Traffic, done: bool) | Flushing(next: nat)

  datatype Worker = Worker(tunnel: Tunnel, pc: Pc, batch: Row, counter: nat, recorded: Row, calls: nat)

  datatype Sys = Sys(shared: Row, workers: seq<Worker>)

  datatype Step =
    | Receive(traffic: Traffic)
    | Sent
    | Finish
    | ReceiveError
    | FlushNext

  datatype Action = Action(worker: nat, step: Step)

  function Fresh(t: Tunnel): Worker {
    Worker(t, Polling, Zeros(), 0, Zeros(), 0)
  }

  function Init(tunnels: seq<Tunnel>): Sys {
    Sys(Zeros(), seq(|tunnels|, w requires 0 <= w < |tunnels| => Fresh(tunnels[w])))
  }

  /** Exact addition, for the history. */
  function Plus(row: Row, c: nat, amount: nat): Row
    requires c < COUNTERS
  {
    row[c := row[c] + amount]
  }

  function AddRx(wk: Worker, bytes: nat): Worker {
    wk.(batch := RecordRx(wk.batch, wk.tunnel, bytes),
        recorded := Plus(Plus(wk.recorded, PacketsRx(wk.tunnel), 1), BytesRx(wk.tunnel), bytes))
  }

  function AddTx(wk: Worker, bytes: nat): Worker {
    wk.(batch := RecordTx(wk.batch, wk.tunnel, bytes),
        recorded := Plus(Plus(wk.recorded, PacketsTx(wk.tunnel), 1), BytesTx(wk.tunnel), bytes))
  }

  /** What a step does to the worker that takes it; nothing when not enabled. A
      worker only ever handles traffic of the shape both tunnels produce. */
  function Next(wk: Worker, step: Step): Worker {
    match (wk.pc, step)
    case (Polling, Receive(t)) =>
      if Unamplified(t) then AddRx(wk, t.rx).(pc := Handling(t, t.tx.None?)) else wk
    case (Handling(t, done), Sent) =>
      if !done && t.tx.Some? then AddTx(wk, t.tx.value).(pc := Handling(t, true)) else wk
    case (Handling(t, done), Finish) =>
      if done then
        var counter := (wk.counter + 1) % U16_RANGE;
        wk.(counter := counter, calls := wk.calls + 1,
            pc := if counter % FLUSH_INTERVAL == 0 then Flushing(0) else Polling)
      else wk
    case (Polling, ReceiveError) => wk.(pc := Flushing(0))
    case (Flushing(c), FlushNext) =>
      if c < COUNTERS then
        wk.(batch := wk.batch[c := 0], pc := if c + 1 == COUNTERS then Polling else Flushing(c + 1))
      else wk
    case _ => wk
  }

  function SharedAfter(shared: Row, wk: Worker, step: Step): Row {
    if wk.pc.Flushing? && wk.pc.next < COUNTERS && step.FlushNext?
    then FlushedCounter(shared, wk.batch, wk.pc.next)
    else shared
  }

  function Do(s: Sys, a: Action): Sys {
    if a.worker < |s.workers| then
      var wk := s.workers[a.worker];
      Sys(SharedAfter(s.shared, wk, a.step), s.workers[a.worker := Next(wk, a.step)])
    else s
  }

  /** The system after any interleaving of steps. */
  function Run(tunnels: seq<Tunnel>, acts: seq<Action>): Sys
    decreases |acts|
  {
    if acts == [] then Init(tunnels) else Do(Run(tunnels, acts[..|acts| - 1]), acts[|acts| - 1])
  }

  // ---- What holds of each worker ----

  /** Packets received and sent that may sit in the batch. */
  function RxAllowance(wk: Worker): nat {
    if wk.pc.Flushing? then FLUSH_INTERVAL
    else wk.calls % FLUSH_INTERVAL + if wk.pc.Handling? then 1 else 0
  }

  function TxAllowance(wk: Worker): nat {
    if wk.pc.Flushing? then FLUSH_INTERVAL
    else wk.calls % FLUSH_INTERVAL + if wk.pc.Handling? && wk.pc.done then 1 else 0
  }

  predicate SmallBatch(wk: Worker) {
    var t := wk.tunnel;
    && wk.batch[PacketsRx(t)] <= RxAllowance(wk)
    && wk.batch[BytesRx(t)] <= MAX_PACKET_SIZE * RxAllowance(wk)
    && wk.batch[PacketsTx(t)] <= TxAllowance(wk)
    && wk.batch[BytesTx(t)] <= MAX_PACKET_SIZE * TxAllowance(wk)
  }

  /** Even with the send still to be recorded, no more was sent than received. */
  predicate SentWithinReceived(wk: Worker) {
    var t := wk.tunnel;
    && wk.recorded[PacketsTx(t)] + (if wk.pc.Handling? && !wk.pc.done then 1 else 0) <= wk.recorded[PacketsRx(t)]
    && wk.recorded[BytesTx(t)] + (if wk.pc.Handling? && !wk.pc.done then wk.pc.traffic.rx else 0)
       <= wk.recorded[BytesRx(t)]
  }

  function Flushed(wk: Worker, c: nat): int
    requires c < COUNTERS
  {
    wk.recorded[c] as int - wk.batch[c] as int
  }

  predicate FlushedInOrder(wk: Worker) {
    var t := wk.tunnel;
    && Flushed(wk, PacketsTx(t)) <= Flushed(wk, PacketsRx(t))
    && Flushed(wk, BytesTx(t)) <= Flushed(wk, BytesRx(t))
  }

  predicate OwnCountersOnly(wk: Worker) {
    forall c :: 0 <= c < COUNTERS && c / 4 != PacketsRx(wk.tunnel) / 4 ==> wk.recorded[c] == wk.batch[c] == 0
  }

  predicate Good(wk: Worker) {
    && wk.counter == wk.calls % U16_RANGE
    && (forall c :: 0 <= c < COUNTERS ==> wk.batch[c] <= wk.recorded[c])
    && OwnCountersOnly(wk)
    && SmallBatch(wk) && SentWithinReceived(wk) && FlushedInOrder(wk)
    && (wk.pc.Handling? ==> Unamplified(wk.pc.traffic))
    && (wk.pc.Flushing? ==> wk.pc.next < COUNTERS && forall c :: 0 <= c < wk.pc.next ==> wk.batch[c] == 0)
  }

  lemma Mod64Is(x: nat, q: nat, r: nat)
    requires x == FLUSH_INTERVAL * q + r && r < FLUSH_INTERVAL
    ensures x % FLUSH_INTERVAL == r
  {
  }

  lemma ModU16Is(x: nat, q: nat, r: nat)
    requires x == U16_RANGE * q + r && r < U16_RANGE
    ensures x % U16_RANGE == r
  {
  }

  lemma CounterSeesCalls(calls: nat)
    ensures calls % U16_RANGE % FLUSH_INTERVAL == calls % FLUSH_INTERVAL
  {
    var q, r := calls / U16_RANGE, calls % U16_RANGE;
    var a, b := r / FLUSH_INTERVAL, r % FLUSH_INTERVAL;
    Mod64Is(calls, 1024 * q + a, b);
  }

  lemma CounterFollows(calls: nat)
    ensures (calls % U16_RANGE + 1) % U16_RANGE == (calls + 1) % U16_RANGE
  {
    var q, r := calls / U16_RANGE, calls % U16_RANGE;
    if r + 1 < U16_RANGE {
      ModU16Is(calls + 1, q, r + 1);
    } else {
      ModU16Is(calls + 1, q + 1, 0);
    }
  }

  lemma NextCall(calls: nat)
    ensures (calls + 1) % FLUSH_INTERVAL == if calls % FLUSH_INTERVAL == 63 then 0 else calls % FLUSH_INTERVAL + 1
  {
    var q, r := calls / FLUSH_INTERVAL, calls % FLUSH_INTERVAL;
    if r == 63 {
      Mod64Is(calls + 1, q + 1, 0);
    } else {
      Mod64Is(calls + 1, q, r + 1);
    }
  }

  /** The wrap of the 16-bit counter is invisible to the flush interval. */
  lemma CounterInStep(wk: Worker)
    requires wk.counter == wk.calls % U16_RANGE
    ensures var next := (wk.counter + 1) % U16_RANGE;
      && next == (wk.calls + 1) % U16_RANGE
      && next % FLUSH_INTERVAL == (wk.calls + 1) % FLUSH_INTERVAL
      && (next % FLUSH_INTERVAL == if wk.calls % FLUSH_INTERVAL == 63 then 0 else wk.calls % FLUSH_INTERVAL + 1)
  {
    CounterFollows(wk.calls);
    CounterSeesCalls(wk.calls + 1);
    NextCall(wk.calls);
  }

  /** Recording without wrap-around. */
  lemma RecordsExactly(wk: Worker, packets: nat, bytesAt: nat, bytes: nat)
    requires (packets == 0 || packets == 1 || packets == 4 || packets == 5) && bytesAt == packets + 2
    requires wk.batch[packets] + 1 < U32_RANGE && wk.batch[bytesAt] + bytes < U64_RANGE
    ensures Bump(Bump(wk.batch, packets, 1), bytesAt, bytes)
      == wk.batch[packets := wk.batch[packets] + 1][bytesAt := wk.batch[bytesAt] + bytes]
    ensures Plus(Plus(wk.recorded, packets, 1), bytesAt, bytes)
      == wk.recorded[packets := wk.recorded[packets] + 1][bytesAt := wk.recorded[bytesAt] + bytes]
  {
  }

  lemma ReceiveKeepsGood(wk: Worker, t: Traffic)
    requires Good(wk) && wk.pc.Polling?
    ensures Good(Next(wk, Receive(t)))
  {
    if Unamplified(t) {
      RecordsExactly(wk, PacketsRx(wk.tunnel), BytesRx(wk.tunnel), t.rx);
    }
  }

  lemma SentKeepsGood(wk: Worker)
    requires Good(wk) && wk.pc.Handling?
    ensures Good(Next(wk, Sent))
  {
    if !wk.pc.done && wk.pc.traffic.tx.Some? {
      RecordsExactly(wk, PacketsTx(wk.tunnel), BytesTx(wk.tunnel), wk.pc.traffic.tx.value);
    }
  }

  lemma FinishKeepsGood(wk: Worker)
    requires Good(wk) && wk.pc.Handling?
    ensures Good(Next(wk, Finish))
    ensures wk.pc.done ==> (Next(wk, Finish).pc.Flushing? <==> (wk.calls + 1) % FLUSH_INTERVAL == 0)
  {
    CounterInStep(wk);
  }

  lemma FlushKeepsGood(wk: Worker)
    requires Good(wk) && wk.pc.Flushing?
    ensures Good(Next(wk, FlushNext))
  {
  }

  lemma NextKeepsGood(wk: Worker, step: Step)
    requires Good(wk)
    ensures Good(Next(wk, step))
  {
    match step
    case Receive(t) => if wk.pc.Polling? { ReceiveKeepsGood(wk, t); }
    case Sent => if wk.pc.Handling? { SentKeepsGood(wk); }
    case Finish => if wk.pc.Handling? { FinishKeepsGood(wk); }
    case ReceiveError =>
    case FlushNext => if wk.pc.Flushing? { FlushKeepsGood(wk); }
  }

  // ---- Totals over the workers ----

  function Recorded(ws: seq<Worker>, c: nat): nat
    requires c < COUNTERS
  {
    if ws == [] then 0 else Recorded(ws[..|ws| - 1], c) + ws[|ws| - 1].recorded[c]
  }

  function Unflushed(ws: seq<Worker>, c: nat): nat
    requires c < COUNTERS
  {
    if ws == [] then 0 else Unflushed(ws[..|ws| - 1], c) + ws[|ws| - 1].batch[c]
  }

  lemma {:induction false} UpdateTotals(ws: seq<Worker>, w: nat, wk: Worker, c: nat)
    requires w < |ws| && c < COUNTERS
    ensures Recorded(ws[w := wk], c) == Recorded(ws, c) - ws[w].recorded[c] + wk.recorded[c]
    ensures Unflushed(ws[w := wk], c) == Unflushed(ws, c) - ws[w].batch[c] + wk.batch[c]
  {
    var n := |ws| - 1;
    if w == n {
      assert ws[w := wk][..n] == ws[..n];
    } else {
      UpdateTotals(ws[..n], w, wk, c);
      assert ws[w := wk][..n] == ws[..n][w := wk];
    }
  }

  ghost predicate Balanced(s: Sys) {
    forall c :: 0 <= c < COUNTERS ==> BalancedAt(s, c)
  }

  /** The shared counter is what was flushed, modulo its 64 bits. */
  predicate BalancedAt(s: Sys, c: nat)
    requires c < COUNTERS
  {
    && Unflushed(s.workers, c) <= Recorded(s.workers, c)
    && s.shared[c] == (Recorded(s.workers, c) - Unflushed(s.workers, c)) % U64_RANGE
  }

  predicate AllGood(s: Sys) {
    forall w :: 0 <= w < |s.workers| ==> Good(s.workers[w])
  }

  lemma AddModulo(a: nat, b: nat)
    ensures (a % U64_RANGE + b) % U64_RANGE == (a + b) % U64_RANGE
  {
  }

  /** Adding what was held back to a counter that holds the rest. */
  lemma HeldBack(shared: nat, total: nat, held: nat, moved: nat)
    requires held <= total && shared == (total - held) % U64_RANGE && moved <= held
    ensures (shared + moved) % U64_RANGE == (total - (held - moved)) % U64_RANGE
    ensures total < U64_RANGE ==> shared == total - held
  {
    AddModulo(total - held, moved);
  }

  lemma BumpConserves(batch: Row, recorded: Row, at: nat, amount: nat, c: nat)
    requires at < COUNTERS && c < COUNTERS && batch[at] + amount < Width(at)
    ensures Plus(recorded, at, amount)[c] + batch[c] == recorded[c] + Bump(batch, at, amount)[c]
  {
  }

  lemma RxConserves(wk: Worker, bytes: nat, c: nat)
    requires Good(wk) && bytes <= MAX_PACKET_SIZE && c < COUNTERS
    ensures Flushed(AddRx(wk, bytes), c) == Flushed(wk, c)
  {
    var t := wk.tunnel;
    BumpConserves(wk.batch, wk.recorded, PacketsRx(t), 1, c);
    BumpConserves(Bump(wk.batch, PacketsRx(t), 1), Plus(wk.recorded, PacketsRx(t), 1), BytesRx(t), bytes, c);
  }

  lemma TxConserves(wk: Worker, bytes: nat, c: nat)
    requires Good(wk) && bytes <= MAX_PACKET_SIZE && c < COUNTERS
    ensures Flushed(AddTx(wk, bytes), c) == Flushed(wk, c)
  {
    var t := wk.tunnel;
    BumpConserves(wk.batch, wk.recorded, PacketsTx(t), 1, c);
    BumpConserves(Bump(wk.batch, PacketsTx(t), 1), Plus(wk.recorded, PacketsTx(t), 1), BytesTx(t), bytes, c);
  }

  /** The step that adds batch counter `c` to the shared one. */
  predicate Moves(wk: Worker, step: Step, c: nat) {
    wk.pc == Flushing(c) && step.FlushNext?
  }

  lemma FlushMoves(wk: Worker, shared: Row, step: Step, c: nat)
    requires c < COUNTERS && Moves(wk, step, c)
    ensures Next(wk, step).recorded[c] == wk.recorded[c] && Next(wk, step).batch[c] == 0
    ensures SharedAfter(shared, wk, step)[c] == (shared[c] + wk.batch[c]) % U64_RANGE
  {
  }

  /** Any other step records the same in the batch and the history, if anything. */
  lemma OthersConserve(wk: Worker, shared: Row, step: Step, c: nat)
    requires Good(wk) && c < COUNTERS && !Moves(wk, step, c)
    ensures Flushed(Next(wk, step), c) == Flushed(wk, c)
    ensures SharedAfter(shared, wk, step)[c] == shared[c]
  {
    match step
    case Receive(t) => if Unamplified(t) { RxConserves(wk, t.rx, c); }
    case Sent => if wk.pc.Handling? && wk.pc.traffic.tx.Some? { TxConserves(wk, wk.pc.traffic.tx.value, c); }
    case Finish =>
    case ReceiveError =>
    case FlushNext =>
  }

  lemma {:induction false} UnflushedHas(ws: seq<Worker>, w: nat, c: nat)
    requires w < |ws| && c < COUNTERS
    ensures ws[w].batch[c] <= Unflushed(ws, c)
  {
    if w < |ws| - 1 {
      UnflushedHas(ws[..|ws| - 1], w, c);
    }
  }

  lemma StillBalanced(s: Sys, s': Sys, c: nat, moved: nat)
    requires c < COUNTERS && BalancedAt(s, c) && moved <= Unflushed(s.workers, c)
    requires s'.shared[c] == (s.shared[c] + moved) % U64_RANGE
    requires Recorded(s'.workers, c) - Unflushed(s'.workers, c)
          == Recorded(s.workers, c) - Unflushed(s.workers, c) + moved
    ensures BalancedAt(s', c)
  {
    HeldBack(s.shared[c], Recorded(s.workers, c), Unflushed(s.workers, c), moved);
  }

  /** Whatever a step takes out of a worker's batch it adds to the shared counter. */
  lemma StepMoves(wk: Worker, shared: Row, step: Step, c: nat) returns (moved: nat)
    requires Good(wk) && c < COUNTERS && shared[c] < U64_RANGE
    ensures Flushed(Next(wk, step), c) == Flushed(wk, c) + moved && moved <= wk.batch[c]
    ensures SharedAfter(shared, wk, step)[c] == (shared[c] + moved) % U64_RANGE
  {
    if Moves(wk, step, c) {
      FlushMoves(wk, shared, step, c);
      moved := wk.batch[c];
    } else {
      OthersConserve(wk, shared, step, c);
      moved := 0;
    }
  }

  lemma WorkersMoved(ws: seq<Worker>, w: nat, wk: Worker, c: nat, moved: nat)
    requires w < |ws| && c < COUNTERS && Flushed(wk, c) == Flushed(ws[w], c) + moved && moved <= ws[w].batch[c]
    ensures moved <= Unflushed(ws, c)
    ensures Recorded(ws[w := wk], c) - Unflushed(ws[w := wk], c) == Recorded(ws, c) - Unflushed(ws, c) + moved
  {
    UpdateTotals(ws, w, wk, c);
    UnflushedHas(ws, w, c);
  }

  lemma MoveKeepsBalance(s: Sys, w: nat, wk': Worker, shared': Row, c: nat, moved: nat)
    requires w < |s.workers| && c < COUNTERS && BalancedAt(s, c)
    requires Flushed(wk', c) == Flushed(s.workers[w], c) + moved && moved <= s.workers[w].batch[c]
    requires shared'[c] == (s.shared[c] + moved) % U64_RANGE
    ensures BalancedAt(Sys(shared', s.workers[w := wk']), c)
  {
    WorkersMoved(s.workers, w, wk', c, moved);
    StillBalanced(s, Sys(shared', s.workers[w := wk']), c, moved);
  }

  lemma DoKeepsBalance(s: Sys, a: Action, c: nat)
    requires a.worker < |s.workers| && Good(s.workers[a.worker]) && c < COUNTERS && BalancedAt(s, c)
    ensures BalancedAt(Do(s, a), c)
  {
    var wk := s.workers[a.worker];
    var moved := StepMoves(wk, s.shared, a.step, c);
    MoveKeepsBalance(s, a.worker, Next(wk, a.step), SharedAfter(s.shared, wk, a.step), c, moved);
  }

  lemma {:induction false} RunStaysGood(tunnels: seq<Tunnel>, acts: seq<Action>)
    ensures AllGood(Run(tunnels, acts)) && Balanced(Run(tunnels, acts)) && |Run(tunnels, acts).workers| == |tunnels|
    decreases |acts|
  {
    if acts == [] {
      forall c | 0 <= c < COUNTERS ensures BalancedAt(Init(tunnels), c) {
        ZeroTotals(Init(tunnels).workers, c);
      }
    } else {
      var before, a := acts[..|acts| - 1], acts[|acts| - 1];
      RunStaysGood(tunnels, before);
      var s := Run(tunnels, before);
      if a.worker < |s.workers| {
        NextKeepsGood(s.workers[a.worker], a.step);
        forall c | 0 <= c < COUNTERS ensures BalancedAt(Do(s, a), c) {
          assert BalancedAt(s, c);
          DoKeepsBalance(s, a, c);
        }
      }
    }
  }

  lemma {:induction false} ZeroTotals(ws: seq<Worker>, c: nat)
    requires c < COUNTERS && forall w :: 0 <= w < |ws| ==> ws[w].recorded == Zeros() && ws[w].batch == Zeros()
    ensures Recorded(ws, c) == 0 && Unflushed(ws, c) == 0
  {
    if ws != [] {
      ZeroTotals(ws[..|ws| - 1], c);
    }
  }

  // ---- Conservation, bounds and no amplification ----

  /** What is shared and what is held back make up what was recorded, modulo
      2^64 and exactly below it. */
  predicate ConservedAt(s: Sys, c: nat)
    requires c < COUNTERS
  {
    var total, recorded := s.shared[c] + Unflushed(s.workers, c), Recorded(s.workers, c);
    total % U64_RANGE == recorded % U64_RANGE && (recorded < U64_RANGE ==> total == recorded)
  }

  lemma BalanceConserves(s: Sys, c: nat)
    requires c < COUNTERS && BalancedAt(s, c)
    ensures ConservedAt(s, c)
  {
    var held := Unflushed(s.workers, c);
    HeldBack(s.shared[c], Recorded(s.workers, c), held, held);
  }

  /** Conservation in every interleaving: the shared counter plus what all
      workers still hold is what was recorded. */
  lemma Conserved(tunnels: seq<Tunnel>, acts: seq<Action>, c: nat)
    requires c < COUNTERS
    ensures ConservedAt(Run(tunnels, acts), c)
  {
    RunStaysGood(tunnels, acts);
    assert BalancedAt(Run(tunnels, acts), c);
    BalanceConserves(Run(tunnels, acts), c);
  }

  lemma {:induction false} UnflushedAtMost(ws: seq<Worker>, c: nat, each: nat)
    requires c < COUNTERS && forall w :: 0 <= w < |ws| ==> ws[w].batch[c] <= each
    ensures Unflushed(ws, c) <= each * |ws|
  {
    if ws != [] {
      UnflushedAtMost(ws[..|ws| - 1], c, each);
    }
  }

  /** Most a batch counter ever holds. */
  function BatchLimit(c: nat): nat {
    if c % 4 < 2 then 64 else 64 * 1472
  }

  lemma GoodIsSmall(wk: Worker, c: nat)
    requires Good(wk) && c < COUNTERS
    ensures wk.batch[c] <= BatchLimit(c)
  {
  }

  /** A worker never holds more than 64 packets or 64 * 1472 bytes in each
      direction, far below the width of its fields, so its counters never wrap;
      and the shared packet counts lag by at most 64 per worker. */
  lemma LagBounded(tunnels: seq<Tunnel>, acts: seq<Action>, c: nat)
    requires c < COUNTERS
    ensures var s := Run(tunnels, acts);
      && (forall w :: 0 <= w < |s.workers| ==> s.workers[w].batch[c] <= BatchLimit(c))
      && BatchLimit(c) + MAX_PACKET_SIZE < Width(c)
      && (Recorded(s.workers, c) < U64_RANGE ==>
            s.shared[c] <= Recorded(s.workers, c) <= s.shared[c] + BatchLimit(c) * |tunnels|)
  {
    RunStaysGood(tunnels, acts);
    var s := Run(tunnels, acts);
    forall w | 0 <= w < |s.workers| ensures s.workers[w].batch[c] <= BatchLimit(c) {
      GoodIsSmall(s.workers[w], c);
    }
    UnflushedAtMost(s.workers, c, BatchLimit(c));
    Conserved(tunnels, acts, c);
  }

  lemma WorkerFlushedInOrder(wk: Worker, t: Tunnel)
    requires Good(wk)
    ensures Flushed(wk, PacketsTx(t)) <= Flushed(wk, PacketsRx(t))
    ensures Flushed(wk, BytesTx(t)) <= Flushed(wk, BytesRx(t))
  {
  }

  lemma {:induction false} TotalsInOrder(ws: seq<Worker>, t: Tunnel)
    requires forall w :: 0 <= w < |ws| ==> Good(ws[w])
    ensures Recorded(ws, PacketsTx(t)) - Unflushed(ws, PacketsTx(t))
         <= Recorded(ws, PacketsRx(t)) - Unflushed(ws, PacketsRx(t))
    ensures Recorded(ws, BytesTx(t)) - Unflushed(ws, BytesTx(t))
         <= Recorded(ws, BytesRx(t)) - Unflushed(ws, BytesRx(t))
  {
    if ws != [] {
      TotalsInOrder(ws[..|ws| - 1], t);
      WorkerFlushedInOrder(ws[|ws| - 1], t);
    }
  }

  /** No amplification, visible in the shared metrics at every moment of every
      interleaving, even in the middle of flushes: packets and bytes sent never
      exceed packets and bytes received, for either tunnel. */
  lemma SentNeverExceedsReceived(tunnels: seq<Tunnel>, acts: seq<Action>, t: Tunnel)
    requires forall c :: 0 <= c < COUNTERS ==> Recorded(Run(tunnels, acts).workers, c) < U64_RANGE
    ensures var shared := Run(tunnels, acts).shared;
      shared[PacketsTx(t)] <= shared[PacketsRx(t)] && shared[BytesTx(t)] <= shared[BytesRx(t)]
  {
    RunStaysGood(tunnels, acts);
    TotalsInOrder(Run(tunnels, acts).workers, t);
    Conserved(tunnels, acts, PacketsTx(t));
    Conserved(tunnels, acts, PacketsRx(t));
    Conserved(tunnels, acts, BytesTx(t));
    Conserved(tunnels, acts, BytesRx(t));
  }

  /** Worker `w` has handled a packet and recorded its send, if any. */
  predicate Handled(s: Sys, w: nat) {
    w < |s.workers| && s.workers[w].pc.Handling? && s.workers[w].pc.done
  }

  /** Worker `w` of `s'` has finished one packet more than in `s`, and flushes
      if it is one in 64 and polls again if not. */
  predicate FinishedOne(s: Sys, s': Sys, w: nat) {
    && w < |s.workers| == |s'.workers|
    && var calls := s'.workers[w].calls;
       && calls == s.workers[w].calls + 1
       && s'.workers[w].pc == if calls % 64 == 0 then Flushing(0) else Polling
  }

  lemma FinishOne(s: Sys, w: nat)
    requires Handled(s, w) && Good(s.workers[w])
    ensures FinishedOne(s, Do(s, Action(w, Finish)), w)
  {
    var wk := s.workers[w];
    FinishKeepsGood(wk);
    assert Do(s, Action(w, Finish)).workers[w] == Next(wk, Finish);
  }

  lemma RunThen(tunnels: seq<Tunnel>, acts: seq<Action>, a: Action)
    ensures Run(tunnels, acts + [a]) == Do(Run(tunnels, acts), a)
  {
    assert (acts + [a])[..|acts|] == acts;
  }

  /** The wrapping counter and flushes after receive errors never disturb the
      rhythm: finishing a packet starts a flush exactly at every 64th packet the
      worker has finished. */
  lemma FlushEvery64(tunnels: seq<Tunnel>, acts: seq<Action>, w: nat)
    requires Handled(Run(tunnels, acts), w)
    ensures FinishedOne(Run(tunnels, acts), Run(tunnels, acts + [Action(w, Finish)]), w)
  {
    RunStaysGood(tunnels, acts);
    RunThen(tunnels, acts, Action(w, Finish));
    FinishOne(Run(tunnels, acts), w);
  }

  // ---- What a packet and an error do ----

  /** What one datagram adds to counter `c` of a worker of tunnel `t`. */
  function Share(t: Tunnel, traffic: Traffic, c: nat): nat {
    if (c < 4) != t.V3? then 0
    else if c % 4 == 0 then 1
    else if c % 4 == 2 then traffic.rx
    else if traffic.tx.None? then 0
    else if c % 4 == 1 then 1
    else traffic.tx.value
  }

  /** Without wrap-around a bump adds to one counter only. */
  lemma BumpAt(row: Row, at: nat, amount: nat, c: nat)
    requires at < COUNTERS && c < COUNTERS && row[at] + amount < Width(at)
    ensures Bump(row, at, amount)[c] == row[c] + if c == at then amount else 0
    ensures Plus(row, at, amount)[c] == row[c] + if c == at then amount else 0
  {
  }

  /** Two bumps of different counters, as a recording makes them. */
  lemma BumpsAt(row: Row, packets: nat, bytesAt: nat, bytes: nat, c: nat)
    requires packets < bytesAt < COUNTERS && c < COUNTERS
    requires row[packets] + 1 < Width(packets) && row[bytesAt] + bytes < Width(bytesAt)
    ensures Bump(Bump(row, packets, 1), bytesAt, bytes)[c]
      == row[c] + if c == packets then 1 else if c == bytesAt then bytes else 0
  {
    BumpAt(row, packets, 1, c);
    BumpAt(row, packets, 1, bytesAt);
    BumpAt(Bump(row, packets, 1), bytesAt, bytes, c);
  }

  lemma PlusesAt(row: Row, packets: nat, bytesAt: nat, bytes: nat, c: nat)
    requires packets < bytesAt < COUNTERS && c < COUNTERS
    ensures Plus(Plus(row, packets, 1), bytesAt, bytes)[c]
      == row[c] + if c == packets then 1 else if c == bytesAt then bytes else 0
  {
  }

  lemma ReceivedShares(wk: Worker, t: Traffic, c: nat)
    requires Good(wk) && wk.pc.Polling? && Unamplified(t) && c < COUNTERS
    ensures var h := Next(wk, Receive(t));
      && h.pc == Handling(t, t.tx.None?)
      && h.batch[c] == wk.batch[c] + Share(wk.tunnel, Traffic(t.rx, None), c)
      && h.recorded[c] == wk.recorded[c] + Share(wk.tunnel, Traffic(t.rx, None), c)
  {
    var p, b := PacketsRx(wk.tunnel), BytesRx(wk.tunnel);
    GoodIsSmall(wk, p);
    GoodIsSmall(wk, b);
    BumpsAt(wk.batch, p, b, t.rx, c);
    PlusesAt(wk.recorded, p, b, t.rx, c);
  }

  lemma SentShares(wk: Worker, t: Traffic, c: nat)
    requires Good(wk) && wk.pc == Handling(t, false) && t.tx.Some? && Unamplified(t) && c < COUNTERS
    ensures var h := Next(wk, Sent);
      && h.pc == Handling(t, true)
      && h.batch[c] == wk.batch[c] + Share(wk.tunnel, t, c) - Share(wk.tunnel, Traffic(t.rx, None), c)
      && h.recorded[c] == wk.recorded[c] + Share(wk.tunnel, t, c) - Share(wk.tunnel, Traffic(t.rx, None), c)
  {
    var p, b := PacketsTx(wk.tunnel), BytesTx(wk.tunnel);
    GoodIsSmall(wk, p);
    GoodIsSmall(wk, b);
    BumpsAt(wk.batch, p, b, t.tx.value, c);
    PlusesAt(wk.recorded, p, b, t.tx.value, c);
  }

  /** A polling worker takes one datagram up to the finish: its batch and the
      history both gain exactly that datagram's share of every counter. */
  lemma PacketShares(wk: Worker, t: Traffic, c: nat)
    requires Good(wk) && wk.pc.Polling? && c < COUNTERS
    requires t.rx <= 1472 && (t.tx.Some? ==> t.tx.value <= t.rx)
    ensures var received := Next(wk, Receive(t));
      var h := if t.tx.Some? then Next(received, Sent) else received;
      && h.pc == Handling(t, true)
      && h.batch[c] == wk.batch[c] + Share(wk.tunnel, t, c)
      && h.recorded[c] == wk.recorded[c] + Share(wk.tunnel, t, c)
  {
    ReceivedShares(wk, t, c);
    if t.tx.Some? {
      ReceiveKeepsGood(wk, t);
      SentShares(Next(wk, Receive(t)), t, c);
    }
  }

  lemma ErrorStep(s: Sys, w: nat)
    requires w < |s.workers| && s.workers[w].pc.Polling?
    ensures Do(s, Action(w, ReceiveError)) == s.(workers := s.workers[w := s.workers[w].(pc := Flushing(0))])
  {
  }

  /** After a receive error a worker left alone has handed over all it held. */
  lemma ErrorHandsOver(s: Sys, w: nat)
    requires w < |s.workers| && s.workers[w].pc.Polling?
    ensures var s' := FlushFrom(Do(s, Action(w, ReceiveError)), w, COUNTERS);
      && |s'.workers| == |s.workers| && s'.workers[w].pc == Polling && s'.workers[w].batch == Zeros()
      && s'.shared == AddedTo(s.shared, s.workers[w].batch)
  {
    ErrorStep(s, w);
    FlushIsAtomicFlush(Do(s, Action(w, ReceiveError)), w);
  }

  // ---- Uninterrupted flush ----

  function FlushFrom(s: Sys, w: nat, n: nat): Sys {
    if n == 0 then s else Do(FlushFrom(s, w, n - 1), Action(w, FlushNext))
  }

  lemma {:induction false} FlushSoFar(s: Sys, w: nat, n: nat)
    requires w < |s.workers| && s.workers[w].pc == Flushing(0) && n <= COUNTERS
    ensures var s' := FlushFrom(s, w, n);
      && |s'.workers| == |s.workers|
      && s'.workers[w].pc == (if n == COUNTERS then Polling else Flushing(n))
      && (forall c :: 0 <= c < COUNTERS ==>
            s'.workers[w].batch[c] == (if c < n then 0 else s.workers[w].batch[c])
            && s'.shared[c] == (if c < n then (s.shared[c] + s.workers[w].batch[c]) % U64_RANGE else s.shared[c]))
  {
    if n > 0 {
      FlushSoFar(s, w, n - 1);
    }
  }

  /** The eight steps of a flush nobody interrupts do what `flush` does. */
  lemma FlushIsAtomicFlush(s: Sys, w: nat)
    requires w < |s.workers| && s.workers[w].pc == Flushing(0)
    ensures var s' := FlushFrom(s, w, COUNTERS);
      && |s'.workers| == |s.workers| && s'.workers[w].pc == Polling
      && s'.workers[w].batch == Zeros()
      && s'.shared == AddedTo(s.shared, s.workers[w].batch)
  {
    FlushSoFar(s, w, COUNTERS);
  }
}
