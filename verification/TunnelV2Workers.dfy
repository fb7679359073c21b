/** The V2 HTTP handlers, UDP workers and cleaner sharing the slot table with no
    lock: every access to the map or to a client's last-receive time is one
    step. As for V3, a step that is not enabled changes nothing. */
module TunnelV2Workers {
  import opened Net
  import opened Clients
  import V2 = TunnelV2Spec

  datatype Setup = Setup(maxClients: nat, handlers: nat, workers: nat)

  /** A slot request: past the capacity check with some ids inserted and some
      draws made; about to insert a drawn id it found absent; or taking back. */
  datatype Handler =
    | Free
    | Allocating(clients: nat, ids: seq<I16>, attempts: nat)
    | Drawn(clients: nat, ids: seq<I16>, attempts: nat, id: I16, client: Client)
    | RollingBack(ids: seq<I16>)

  /** The sender check of a UDP packet: `now` is its timestamp, `handle` the
      shared record the lookup found. */
  datatype Worker =
    | Idle
    | Arrived(id: I16, from: Endpoint, now: nat)
    | Holding(id: I16, from: Endpoint, now: nat, handle: nat)
    | Binding(id: I16, client: Client)

  datatype Sys = Sys(
    clock: nat,
    heap: seq<Client>,
    table: map<I16, nat>,
    handlers: seq<Handler>,
    workers: seq<Worker>)

  datatype HandlerStep = Check(clients: nat) | Draw(id: I16) | Put | Exit | TakeBack

  datatype WorkerStep = Arrive(id: I16, from: Endpoint) | Lookup | Compare | Bind

  datatype Action =
    | Tick
    | Sweep(id: I16)
    | Serve(handler: nat, hstep: HandlerStep)
    | Work(worker: nat, wstep: WorkerStep)

  ghost predicate WellFormed(cfg: Setup, s: Sys) {
    && |s.handlers| == cfg.handlers && |s.workers| == cfg.workers
    && (forall id :: id in s.table ==> s.table[id] < |s.heap|)
    && (forall w :: 0 <= w < |s.workers| ==> ValidWorker(s, s.workers[w]))
    && (forall h :: 0 <= h < |s.handlers| ==> ValidHandler(Most(cfg), s.handlers[h]))
  }

  predicate ValidWorker(s: Sys, wk: Worker) {
    wk.Holding? ==> wk.handle < |s.heap|
  }

  /** The most slots one request can ask for and pass the check. */
  function Most(cfg: Setup): nat {
    if cfg.maxClients < V2.MAX_REQUEST then cfg.maxClients else V2.MAX_REQUEST
  }

  predicate ValidHandler(most: nat, hd: Handler) {
    && (hd.Allocating? ==> |hd.ids| <= hd.clients <= most)
    && (hd.Drawn? ==> |hd.ids| < hd.clients <= most)
  }

  function Init(cfg: Setup): (s: Sys)
    ensures WellFormed(cfg, s)
  {
    Sys(0, [], map[], seq(cfg.handlers, _ => Free), seq(cfg.workers, _ => Idle))
  }

  function NextHandler(cfg: Setup, s: Sys, hd: Handler, step: HandlerStep): (hd': Handler)
    requires ValidHandler(Most(cfg), hd)
    ensures ValidHandler(Most(cfg), hd')
  {
    match (hd, step)
    case (Free, Check(clients)) =>
      if V2.MIN_REQUEST <= clients <= V2.MAX_REQUEST && |s.table| + clients <= cfg.maxClients
      then Allocating(clients, [], 0) else Free
    case (Allocating(clients, ids, attempts), Draw(id)) =>
      if |ids| < clients && attempts < V2.MAX_ATTEMPTS then
        if id != 0 && id !in s.table
        then Drawn(clients, ids, attempts + 1, id, Client(None, s.clock))
        else Allocating(clients, ids, attempts + 1)
      else hd
    case (Drawn(clients, ids, attempts, id, client), Put) => Allocating(clients, ids + [id], attempts)
    case (Allocating(clients, ids, attempts), Exit) =>
      if |ids| == clients then Free
      else if attempts >= V2.MAX_ATTEMPTS then RollingBack(ids)
      else hd
    case (RollingBack(ids), TakeBack) => if ids == [] then Free else RollingBack(ids[1..])
    case _ => hd
  }

  function ServeShared(s: Sys, hd: Handler, step: HandlerStep): Sys {
    if hd.Drawn? && step.Put? then
      s.(heap := s.heap + [hd.client], table := s.table[hd.id := |s.heap|])
    else if hd.RollingBack? && step.TakeBack? && hd.ids != [] then
      s.(table := s.table - {hd.ids[0]})
    else s
  }

  function NextWorker(s: Sys, wk: Worker, step: WorkerStep): (wk': Worker)
    requires ValidWorker(s, wk)
  {
    match (wk, step)
    case (Idle, Arrive(id, from)) => Arrived(id, from, s.clock)
    case (Arrived(id, from, now), Lookup) => if id in s.table then Holding(id, from, now, s.table[id]) else Idle
    case (Holding(id, from, now, h), Compare) =>
      var c := s.heap[h];
      if c.endpoint.None? || (c.endpoint != Some(from) && TimedOut(c, s.clock))
      then Binding(id, Client(Some(from), s.clock)) else Idle
    case (Binding(id, client), Bind) => Idle
    case _ => wk
  }

  function WorkShared(s: Sys, wk: Worker, step: WorkerStep): Sys
    requires ValidWorker(s, wk)
  {
    if wk.Holding? && step.Compare? && s.heap[wk.handle].endpoint == Some(wk.from) then
      s.(heap := s.heap[wk.handle := s.heap[wk.handle].(lastReceive := wk.now)])
    else if wk.Binding? && step.Bind? then
      s.(heap := s.heap + [wk.client], table := s.table[wk.id := |s.heap|])
    else s
  }

  function DoServe(cfg: Setup, s: Sys, h: nat, step: HandlerStep): Sys
    requires h < |s.handlers| && ValidHandler(Most(cfg), s.handlers[h])
  {
    ServeShared(s, s.handlers[h], step).(handlers := s.handlers[h := NextHandler(cfg, s, s.handlers[h], step)])
  }

  function DoWork(s: Sys, w: nat, step: WorkerStep): Sys
    requires w < |s.workers| && ValidWorker(s, s.workers[w])
  {
    WorkShared(s, s.workers[w], step).(workers := s.workers[w := NextWorker(s, s.workers[w], step)])
  }

  lemma ServeStaysWellFormed(cfg: Setup, s: Sys, h: nat, step: HandlerStep)
    requires WellFormed(cfg, s) && h < cfg.handlers
    ensures WellFormed(cfg, DoServe(cfg, s, h, step))
  {
    var s' := ServeShared(s, s.handlers[h], step);
    assert forall id :: id in s'.table ==> s'.table[id] < |s'.heap|;
    assert |s'.heap| >= |s.heap|;
  }

  lemma WorkStaysWellFormed(cfg: Setup, s: Sys, w: nat, step: WorkerStep)
    requires WellFormed(cfg, s) && w < cfg.workers
    ensures WellFormed(cfg, DoWork(s, w, step))
  {
    var s' := WorkShared(s, s.workers[w], step);
    assert forall id :: id in s'.table ==> s'.table[id] < |s'.heap|;
    assert |s'.heap| >= |s.heap|;
    assert ValidWorker(s, NextWorker(s, s.workers[w], step));
  }

  ghost function Do(cfg: Setup, s: Sys, a: Action): (s': Sys)
    requires WellFormed(cfg, s)
    ensures WellFormed(cfg, s')
  {
    match a
    case Tick => s.(clock := s.clock + 1)
    case Sweep(id) =>
      if id in s.table && TimedOut(s.heap[s.table[id]], s.clock) then s.(table := s.table - {id}) else s
    case Serve(h, step) =>
      if h < cfg.handlers then
        ServeStaysWellFormed(cfg, s, h, step);
        DoServe(cfg, s, h, step)
      else s
    case Work(w, step) =>
      if w < cfg.workers then
        WorkStaysWellFormed(cfg, s, w, step);
        DoWork(s, w, step)
      else s
  }

  /** The system after any interleaving of steps. */
  ghost function Run(cfg: Setup, acts: seq<Action>): (s: Sys)
    ensures WellFormed(cfg, s)
    decreases |acts|
  {
    if acts == [] then Init(cfg) else Do(cfg, Run(cfg, acts[..|acts| - 1]), acts[|acts| - 1])
  }

  // ---- Capacity ----

  /** The key a worker found and may still insert again. */
  function Pending(wk: Worker): set<I16> {
    if wk.Holding? || wk.Binding? then {wk.id} else {}
  }

  function Pendings(ws: seq<Worker>): (ids: set<I16>)
    ensures |ids| <= |ws|
  {
    if ws == [] then {} else Pendings(ws[..|ws| - 1]) + Pending(ws[|ws| - 1])
  }

  lemma {:induction false} PendingsHas(ws: seq<Worker>, w: nat)
    requires w < |ws|
    ensures Pending(ws[w]) <= Pendings(ws)
  {
    if w < |ws| - 1 {
      PendingsHas(ws[..|ws| - 1], w);
    }
  }

  lemma {:induction false} PendingsUpdate(ws: seq<Worker>, w: nat, wk: Worker)
    requires w < |ws|
    ensures Pendings(ws[w := wk]) <= Pendings(ws) + Pending(wk)
  {
    var n := |ws| - 1;
    if w == n {
      LastUpdate(ws, wk);
    } else {
      PendingsUpdate(ws[..n], w, wk);
      assert ws[w := wk][..n] == ws[..n][w := wk];
    }
  }

  lemma LastUpdate(ws: seq<Worker>, wk: Worker)
    requires ws != []
    ensures Pendings(ws[|ws| - 1 := wk]) == Pendings(ws[..|ws| - 1]) + Pending(wk)
  {
    var n := |ws| - 1;
    assert ws[n := wk][..n] == ws[..n];
  }

  /** Slots a handler has reserved by its check and not yet inserted. */
  function Remaining(hd: Handler): nat {
    if (hd.Allocating? || hd.Drawn?) && |hd.ids| <= hd.clients then hd.clients - |hd.ids| else 0
  }

  ghost predicate AllValid(most: nat, hs: seq<Handler>) {
    forall h :: 0 <= h < |hs| ==> ValidHandler(most, hs[h])
  }

  function Reserved(hs: seq<Handler>): nat {
    if hs == [] then 0 else Reserved(hs[..|hs| - 1]) + Remaining(hs[|hs| - 1])
  }

  lemma {:induction false} ReservedUpdate(hs: seq<Handler>, h: nat, hd: Handler)
    requires h < |hs|
    ensures Reserved(hs[h := hd]) == Reserved(hs) - Remaining(hs[h]) + Remaining(hd)
  {
    var n := |hs| - 1;
    if h == n {
      assert hs[h := hd][..n] == hs[..n];
    } else {
      ReservedUpdate(hs[..n], h, hd);
      assert hs[h := hd][..n] == hs[..n][h := hd];
    }
  }

  lemma OneMore(most: nat, n: nat)
    ensures most * n + most == most * (n + 1)
  {
  }

  lemma {:induction false} ReservedAtMost(most: nat, hs: seq<Handler>)
    requires AllValid(most, hs)
    ensures Reserved(hs) <= most * |hs|
  {
    if hs != [] {
      ReservedAtMost(most, hs[..|hs| - 1]);
      OneMore(most, |hs| - 1);
    }
  }

  /** Reservations of the other handlers. */
  lemma {:induction false} ReservedByOthers(most: nat, hs: seq<Handler>, h: nat)
    requires h < |hs| && AllValid(most, hs) && Remaining(hs[h]) == 0
    ensures Reserved(hs) <= most * (|hs| - 1)
  {
    var n := |hs| - 1;
    if h < n {
      ReservedByOthers(most, hs[..n], h);
      OneMore(most, n - 1);
    } else {
      ReservedAtMost(most, hs[..n]);
    }
  }

  function Claimed(s: Sys): set<I16> {
    s.table.Keys + Pendings(s.workers)
  }

  function Bound(cfg: Setup): int {
    cfg.maxClients + cfg.workers + Most(cfg) * (cfg.handlers - 1)
  }

  ghost predicate WithinBound(cfg: Setup, s: Sys) {
    |Claimed(s)| + Reserved(s.handlers) <= Bound(cfg)
  }

  lemma ClaimedAtMost(s: Sys)
    ensures |Claimed(s)| <= |s.table| + |s.workers|
  {
    var extra := Pendings(s.workers) - s.table.Keys;
    assert Claimed(s) == s.table.Keys + extra;
    SubsetSize(extra, Pendings(s.workers));
  }

  lemma CheckWithin(cfg: Setup, s: Sys, h: nat, clients: nat)
    requires WellFormed(cfg, s) && h < cfg.handlers && s.handlers[h].Free?
    requires |s.table| + clients <= cfg.maxClients
    ensures WithinBound(cfg, s.(handlers := s.handlers[h := Allocating(clients, [], 0)]))
  {
    ReservedByOthers(Most(cfg), s.handlers, h);
    ReservedUpdate(s.handlers, h, Allocating(clients, [], 0));
    ClaimedAtMost(s);
    assert Claimed(s.(handlers := s.handlers[h := Allocating(clients, [], 0)])) == Claimed(s);
  }

  /** Apart from a passed check, a handler's step inserts no more than it frees. */
  lemma HandlerTrade(cfg: Setup, s: Sys, hd: Handler, step: HandlerStep)
    requires ValidHandler(Most(cfg), hd) && !(hd.Free? && step.Check?)
    ensures var s', hd' := ServeShared(s, hd, step), NextHandler(cfg, s, hd, step);
      && Remaining(hd') <= Remaining(hd)
      && exists added :: |added| <= Remaining(hd) - Remaining(hd') && s'.table.Keys <= s.table.Keys + added
  {
    var s', hd' := ServeShared(s, hd, step), NextHandler(cfg, s, hd, step);
    var added: set<I16> := if hd.Drawn? && step.Put? then {hd.id} else {};
    assert s'.table.Keys <= s.table.Keys + added;
    assert |added| <= Remaining(hd) - Remaining(hd');
  }

  lemma ServeKeepsBound(cfg: Setup, s: Sys, h: nat, step: HandlerStep)
    requires WellFormed(cfg, s) && h < cfg.handlers && WithinBound(cfg, s)
    ensures WithinBound(cfg, DoServe(cfg, s, h, step))
  {
    var hd, s' := s.handlers[h], DoServe(cfg, s, h, step);
    var hd' := NextHandler(cfg, s, hd, step);
    ReservedUpdate(s.handlers, h, hd');
    if hd.Free? && step.Check? && hd'.Allocating? {
      CheckWithin(cfg, s, h, step.clients);
    } else if hd.Free? && step.Check? {
      assert s'.handlers == s.handlers;
    } else {
      HandlerTrade(cfg, s, hd, step);
      var added :| |added| <= Remaining(hd) - Remaining(hd') && s'.table.Keys <= s.table.Keys + added;
      SubsetSize(Claimed(s'), Claimed(s) + added);
      UnionAtMost(Claimed(s), added);
    }
  }

  /** A worker claims only keys it finds in the table, and inserts only claimed ones. */
  lemma WorkerTrade(s: Sys, wk: Worker, step: WorkerStep)
    requires ValidWorker(s, wk)
    ensures Pending(NextWorker(s, wk, step)) <= Pending(wk) + s.table.Keys
    ensures WorkShared(s, wk, step).table.Keys <= s.table.Keys + Pending(wk)
  {
  }

  lemma MovedClaims(s: Sys, s': Sys, w: nat, wk': Worker)
    requires w < |s.workers| && s'.workers == s.workers[w := wk']
    requires Pending(wk') <= Pending(s.workers[w]) + s.table.Keys
    requires s'.table.Keys <= s.table.Keys + Pending(s.workers[w])
    ensures Claimed(s') <= Claimed(s)
  {
    PendingsHas(s.workers, w);
    PendingsUpdate(s.workers, w, wk');
  }

  lemma WorkKeepsBound(cfg: Setup, s: Sys, w: nat, step: WorkerStep)
    requires WellFormed(cfg, s) && w < cfg.workers && WithinBound(cfg, s)
    ensures WithinBound(cfg, DoWork(s, w, step))
  {
    WorkerTrade(s, s.workers[w], step);
    MovedClaims(s, DoWork(s, w, step), w, NextWorker(s, s.workers[w], step));
    SubsetSize(Claimed(DoWork(s, w, step)), Claimed(s));
  }

  lemma StepKeepsBound(cfg: Setup, s: Sys, a: Action)
    requires WellFormed(cfg, s) && WithinBound(cfg, s)
    ensures WithinBound(cfg, Do(cfg, s, a))
  {
    match a
    case Tick =>
    case Sweep(id) => SubsetSize(Claimed(Do(cfg, s, a)), Claimed(s));
    case Serve(h, step) => if h < cfg.handlers { ServeKeepsBound(cfg, s, h, step); }
    case Work(w, step) => if w < cfg.workers { WorkKeepsBound(cfg, s, w, step); }
  }

  lemma {:induction false} AllFree(hs: seq<Handler>, ws: seq<Worker>)
    requires forall h :: 0 <= h < |hs| ==> hs[h].Free?
    requires forall w :: 0 <= w < |ws| ==> ws[w].Idle?
    ensures Reserved(hs) == 0 && Pendings(ws) == {}
    decreases |hs|, |ws|
  {
    if hs != [] {
      AllFree(hs[..|hs| - 1], ws);
    } else if ws != [] {
      AllFree(hs, ws[..|ws| - 1]);
    }
  }

  lemma InitWithin(cfg: Setup)
    requires cfg.handlers >= 1
    ensures WithinBound(cfg, Init(cfg))
  {
    AllFree(Init(cfg).handlers, Init(cfg).workers);
    NotNegative(Most(cfg), cfg.handlers - 1);
    assert Claimed(Init(cfg)) == {};
  }

  lemma NotNegative(a: nat, b: nat)
    ensures a * b >= 0
  {
  }

  lemma {:induction false} RunKeepsBound(cfg: Setup, acts: seq<Action>)
    requires cfg.handlers >= 1
    ensures WithinBound(cfg, Run(cfg, acts))
    decreases |acts|
  {
    if acts == [] {
      InitWithin(cfg);
    } else {
      var before := acts[..|acts| - 1];
      RunKeepsBound(cfg, before);
      StepKeepsBound(cfg, Run(cfg, before), acts[|acts| - 1]);
    }
  }

  /** In every interleaving of H handlers, W UDP workers and cleaners the table
      never exceeds max_clients + W + m (H - 1), where m is the smaller of 8 and
      max_clients, even counting the slots handlers
      have reserved and the swept slots workers are about to insert again. */
  lemma CapacityBound(cfg: Setup, acts: seq<Action>)
    requires cfg.handlers >= 1
    ensures var s := Run(cfg, acts);
      |s.table| <= |Claimed(s)| + Reserved(s.handlers)
      <= cfg.maxClients + cfg.workers + Most(cfg) * (cfg.handlers - 1)
  {
    RunKeepsBound(cfg, acts);
    var s := Run(cfg, acts);
    SubsetSize(s.table.Keys, Claimed(s));
  }

  // ---- The bound is reached ----

  ghost predicate Reached(cfg: Setup, s: Sys) {
    exists acts :: Run(cfg, acts) == s
  }

  lemma ReachedStep(cfg: Setup, s: Sys, a: Action)
    requires WellFormed(cfg, s) && Reached(cfg, s)
    ensures Reached(cfg, Do(cfg, s, a))
  {
    var acts :| Run(cfg, acts) == s;
    assert (acts + [a])[..|acts|] == acts;
    assert Run(cfg, acts + [a]) == Do(cfg, s, a);
  }

  /** `reach` is kept by every step. The witness run is built for any such
      property of states, being reached among them. */
  ghost predicate Kept(cfg: Setup, reach: Sys -> bool) {
    forall s, a :: WellFormed(cfg, s) && reach(s) ==> KeptBy(cfg, reach, s, a)
  }

  ghost predicate KeptBy(cfg: Setup, reach: Sys -> bool, s: Sys, a: Action)
    requires WellFormed(cfg, s)
  {
    reach(Do(cfg, s, a))
  }

  lemma ReachServe(cfg: Setup, reach: Sys -> bool, s: Sys, h: nat, step: HandlerStep) returns (s': Sys)
    requires Kept(cfg, reach) && WellFormed(cfg, s) && reach(s) && h < cfg.handlers
    ensures WellFormed(cfg, s') && reach(s') && s' == DoServe(cfg, s, h, step)
  {
    assert KeptBy(cfg, reach, s, Serve(h, step));
    s' := Do(cfg, s, Serve(h, step));
  }

  lemma ReachWork(cfg: Setup, reach: Sys -> bool, s: Sys, w: nat, step: WorkerStep) returns (s': Sys)
    requires Kept(cfg, reach) && WellFormed(cfg, s) && reach(s) && w < cfg.workers
    ensures WellFormed(cfg, s') && reach(s') && s' == DoWork(s, w, step)
  {
    assert KeptBy(cfg, reach, s, Work(w, step));
    s' := Do(cfg, s, Work(w, step));
  }

  predicate Within(id: I16, lo: int, hi: int) {
    lo <= id < hi
  }

  function Interval(lo: int, hi: int): set<I16> {
    set id: I16 | -0x8000 <= id < 0x8000 && Within(id, lo, hi)
  }

  lemma JoinIntervals(lo: int, mid: int, hi: int)
    requires lo <= mid <= hi
    ensures Interval(lo, hi) == Interval(lo, mid) + Interval(mid, hi)
  {
  }

  lemma OneInterval(id: I16)
    ensures Interval(id, id + 1) == {id}
  {
  }

  lemma {:induction false} IntervalSize(lo: int, hi: int)
    requires 1 <= lo <= hi <= 0x8000
    ensures |Interval(lo, hi)| == hi - lo
    decreases hi - lo
  {
    if lo < hi {
      IntervalSize(lo, hi - 1);
      OneInterval(hi - 1);
      JoinIntervals(lo, hi - 1, hi);
    }
  }

  /** Handlers worked: the clock stood still, no worker moved, no record changed. */
  predicate OnlyHandlers(s: Sys, s': Sys) {
    s'.clock == s.clock && s'.workers == s.workers && s.heap <= s'.heap
  }

  /** Every slot is unbound and stamped `time`. */
  predicate AllUnbound(s: Sys, time: nat) {
    forall id :: id in s.table ==> s.table[id] < |s.heap| && s.heap[s.table[id]] == Client(None, time)
  }

  lemma ReachPut(cfg: Setup, reach: Sys -> bool, s: Sys, h: nat, id: I16) returns (s': Sys)
    requires Kept(cfg, reach) && WellFormed(cfg, s) && reach(s) && h < |s.handlers| == cfg.handlers
    requires s.handlers[h].Allocating?
    requires |s.handlers[h].ids| < s.handlers[h].clients && s.handlers[h].attempts < V2.MAX_ATTEMPTS
    requires id != 0 && id !in s.table
    ensures WellFormed(cfg, s') && reach(s') && OnlyHandlers(s, s')
    ensures s'.table.Keys == s.table.Keys + {id}
    ensures AllUnbound(s, s.clock) ==> AllUnbound(s', s.clock)
    ensures var hd := s.handlers[h];
      s'.handlers == s.handlers[h := Allocating(hd.clients, hd.ids + [id], hd.attempts + 1)]
  {
    var hd := s.handlers[h];
    var drawn := Drawn(hd.clients, hd.ids, hd.attempts + 1, id, Client(None, s.clock));
    var s1 := ReachServe(cfg, reach, s, h, Draw(id));
    assert s1 == s.(handlers := s.handlers[h := drawn]);
    s' := ReachServe(cfg, reach, s1, h, Put);
    var next := Allocating(hd.clients, hd.ids + [id], hd.attempts + 1);
    assert s1.handlers[h := next] == s.handlers[h := next];
    PutFacts(s, s', id, next, h);
  }

  lemma PutFacts(s: Sys, s': Sys, id: I16, next: Handler, h: nat)
    requires h < |s.handlers| && id !in s.table
    requires s' == s.(heap := s.heap + [Client(None, s.clock)], table := s.table[id := |s.heap|],
                      handlers := s.handlers[h := next])
    ensures OnlyHandlers(s, s') && s'.table.Keys == s.table.Keys + {id}
    ensures AllUnbound(s, s.clock) ==> AllUnbound(s', s.clock)
  {
  }

  lemma {:induction false} ReachPuts(cfg: Setup, reach: Sys -> bool, s: Sys, h: nat, clients: nat, lo: nat, n: nat)
    returns (s': Sys)
    requires Kept(cfg, reach) && WellFormed(cfg, s) && reach(s) && h < |s.handlers| == cfg.handlers
    requires s.handlers[h] == Allocating(clients, [], 0)
    requires n <= clients <= V2.MAX_REQUEST && 1 <= lo && lo + n <= 0x8000 && s.table.Keys !! Interval(lo, lo + n)
    ensures WellFormed(cfg, s') && reach(s') && OnlyHandlers(s, s')
    ensures s'.table.Keys == s.table.Keys + Interval(lo, lo + n)
    ensures AllUnbound(s, s.clock) ==> AllUnbound(s', s.clock)
    ensures exists ids :: |ids| == n && s'.handlers == s.handlers[h := Allocating(clients, ids, n)]
  {
    if n == 0 {
      s' := s;
      assert s'.handlers == s.handlers[h := Allocating(clients, [], 0)];
    } else {
      var mid := ReachPuts(cfg, reach, s, h, clients, lo, n - 1);
      var ids :| |ids| == n - 1 && mid.handlers == s.handlers[h := Allocating(clients, ids, n - 1)];
      var next: I16 := lo + n - 1;
      s' := ReachPut(cfg, reach, mid, h, next);
      OneInterval(next);
      JoinIntervals(lo, next, lo + n);
      assert s'.handlers == s.handlers[h := Allocating(clients, ids + [next], n)];
    }
  }

  lemma ReachRequest(cfg: Setup, reach: Sys -> bool, s: Sys, h: nat, lo: nat, hi: nat) returns (s': Sys)
    requires Kept(cfg, reach) && WellFormed(cfg, s) && reach(s) && h < |s.handlers| == cfg.handlers
    requires s.handlers[h].Free?
    requires 1 <= lo <= hi <= 0x8000 && V2.MIN_REQUEST <= hi - lo <= V2.MAX_REQUEST
    requires |s.table.Keys| + hi - lo <= cfg.maxClients && s.table.Keys !! Interval(lo, hi)
    ensures WellFormed(cfg, s') && reach(s') && OnlyHandlers(s, s') && s'.handlers == s.handlers
    ensures s'.table.Keys == s.table.Keys + Interval(lo, hi)
    ensures AllUnbound(s, s.clock) ==> AllUnbound(s', s.clock)
  {
    var s1 := ReachCheck(cfg, reach, s, h, hi - lo);
    var s2 := ReachPuts(cfg, reach, s1, h, hi - lo, lo, hi - lo);
    s' := ReachServe(cfg, reach, s2, h, Exit);
    assert s'.handlers == s.handlers;
  }

  lemma ReachCheck(cfg: Setup, reach: Sys -> bool, s: Sys, h: nat, n: nat) returns (s': Sys)
    requires Kept(cfg, reach) && WellFormed(cfg, s) && reach(s) && h < |s.handlers| == cfg.handlers
    requires s.handlers[h].Free?
    requires V2.MIN_REQUEST <= n <= V2.MAX_REQUEST && |s.table.Keys| + n <= cfg.maxClients
    ensures WellFormed(cfg, s') && reach(s') && s' == s.(handlers := s.handlers[h := Allocating(n, [], 0)])
  {
    s' := ReachServe(cfg, reach, s, h, Check(n));
  }

  lemma AddInterval(keys: set<I16>, lo: nat, mid: nat, hi: nat)
    requires 1 <= lo <= mid <= hi <= 0x8000 && keys !! Interval(lo, hi)
    ensures keys !! Interval(lo, mid) && |keys + Interval(lo, mid)| == |keys| + mid - lo
    ensures keys + Interval(lo, mid) !! Interval(mid, hi)
    ensures keys + Interval(lo, mid) + Interval(mid, hi) == keys + Interval(lo, hi)
  {
    IntervalSize(lo, mid);
    JoinIntervals(lo, mid, hi);
  }

  /** The size of the first of the requests that fill `n` slots. */
  function FirstRequest(n: nat): (first: nat)
    requires n >= 2
    ensures V2.MIN_REQUEST <= first <= V2.MAX_REQUEST && first <= n && n - first != 1
  {
    if n <= 8 then n else if n == 9 then 4 else 8
  }

  /** Handler 0 fills the slots from `lo` up to `hi` by requests of 2 to 8. */
  lemma {:induction false} ReachFill(cfg: Setup, reach: Sys -> bool, s: Sys, lo: nat, hi: nat) returns (s': Sys)
    requires Kept(cfg, reach) && WellFormed(cfg, s) && reach(s) && 1 <= |s.handlers| == cfg.handlers
    requires s.handlers[0].Free?
    requires 1 <= lo <= hi <= 0x8000 && hi != lo + 1 && |s.table.Keys| + hi - lo <= cfg.maxClients
    requires s.table.Keys !! Interval(lo, hi)
    ensures WellFormed(cfg, s') && reach(s') && OnlyHandlers(s, s') && s'.handlers == s.handlers
    ensures s'.table.Keys == s.table.Keys + Interval(lo, hi)
    decreases hi - lo
  {
    if lo == hi {
      s' := s;
    } else {
      var mid := lo + FirstRequest(hi - lo);
      AddInterval(s.table.Keys, lo, mid, hi);
      var s1 := ReachRequest(cfg, reach, s, 0, lo, mid);
      s' := ReachFill(cfg, reach, s1, mid, hi);
    }
  }

  /** Worker `w` holds the unbound slot w + 1. */
  predicate HoldsUnbound(s: Sys, w: nat)
    requires w < |s.workers|
  {
    && s.workers[w].Holding? && s.workers[w].id == w + 1 && s.workers[w].from == SOMEWHERE
    && s.workers[w].handle < |s.heap| && s.heap[s.workers[w].handle].endpoint == None
  }

  lemma StillHolds(s: Sys, s': Sys)
    requires s'.workers == s.workers && s.heap <= s'.heap
    requires forall w :: 0 <= w < |s.workers| ==> HoldsUnbound(s, w)
    ensures forall w :: 0 <= w < |s'.workers| ==> HoldsUnbound(s', w)
  {
    forall w | 0 <= w < |s'.workers| ensures HoldsUnbound(s', w) {
      assert HoldsUnbound(s, w);
    }
  }

  lemma {:induction false} ReachLater(cfg: Setup, reach: Sys -> bool, s: Sys, n: nat)
    requires Kept(cfg, reach) && WellFormed(cfg, s) && reach(s)
    ensures WellFormed(cfg, s.(clock := s.clock + n)) && reach(s.(clock := s.clock + n))
  {
    if n == 0 {
      assert s.(clock := s.clock + 0) == s;
    } else {
      ReachLater(cfg, reach, s, n - 1);
      assert KeptBy(cfg, reach, s.(clock := s.clock + n - 1), Tick);
    }
  }

  lemma ReachSweep(cfg: Setup, reach: Sys -> bool, s: Sys, id: I16) returns (s': Sys)
    requires Kept(cfg, reach) && WellFormed(cfg, s) && reach(s)
    requires id in s.table && TimedOut(s.heap[s.table[id]], s.clock)
    ensures WellFormed(cfg, s') && reach(s') && s' == s.(table := s.table - {id})
  {
    assert KeptBy(cfg, reach, s, Sweep(id));
    s' := Do(cfg, s, Sweep(id));
  }

  /** Both slots of an expired request of two are swept. */
  lemma ReachBothSwept(cfg: Setup, reach: Sys -> bool, s: Sys, lo: nat, time: nat) returns (s': Sys)
    requires Kept(cfg, reach) && WellFormed(cfg, s) && reach(s)
    requires 1 <= lo && lo + 2 <= 0x8000 && s.table.Keys == Interval(lo, lo + 2)
    requires AllUnbound(s, time) && s.clock >= time + TIMEOUT_SECONDS
    ensures WellFormed(cfg, s') && reach(s') && s' == s.(table := map[])
  {
    var mid := ReachSweep(cfg, reach, s, lo);
    s' := ReachSweep(cfg, reach, mid, lo + 1);
    assert s'.table.Keys == {};
  }

  /** Idle worker `w` looks slot w + 1 up, which is unbound. */
  lemma ReachHold(cfg: Setup, reach: Sys -> bool, s: Sys, w: nat) returns (s': Sys)
    requires Kept(cfg, reach) && WellFormed(cfg, s) && reach(s) && w < |s.workers| == cfg.workers && w + 1 < 0x8000
    requires s.workers[w].Idle? && w + 1 in s.table.Keys && AllUnbound(s, s.clock)
    ensures WellFormed(cfg, s') && reach(s') && s' == s.(workers := s.workers[w := s'.workers[w]])
    ensures HoldsUnbound(s', w)
  {
    var s1 := ReachWork(cfg, reach, s, w, Arrive(w + 1, SOMEWHERE));
    s' := ReachWork(cfg, reach, s1, w, Lookup);
  }

  /** Worker `k - 1` and those before it hold a slot that is already gone. */
  predicate HoldUpTo(cfg: Setup, s: Sys, k: nat) {
    && |s.workers| == cfg.workers && |s.handlers| == cfg.handlers
    && s.table == map[]
    && (forall h :: 0 <= h < cfg.handlers ==> s.handlers[h].Free?)
    && (forall w :: 0 <= w < cfg.workers ==> if w < k then HoldsUnbound(s, w) else s.workers[w].Idle?)
  }

  lemma HoldOneMore(cfg: Setup, s: Sys, mid: Sys, s': Sys, k: nat)
    requires HoldUpTo(cfg, s, k) && k < cfg.workers
    requires s.heap <= mid.heap && mid.workers == s.workers && mid.handlers == s.handlers
    requires |s'.workers| == cfg.workers && s'.heap == mid.heap && s'.handlers == s.handlers && s'.table == map[]
    requires s'.workers == s.workers[k := s'.workers[k]] && HoldsUnbound(s', k)
    ensures HoldUpTo(cfg, s', k + 1)
  {
    forall w | 0 <= w < k ensures HoldsUnbound(s', w) {
      assert HoldsUnbound(s, w);
    }
  }

  /** One worker after the other looks up a slot of a fresh request of two and
      keeps hold of it while it expires and is swept. */
  lemma {:induction false} ReachAllHolding(cfg: Setup, reach: Sys -> bool, k: nat) returns (s: Sys)
    requires Kept(cfg, reach) && reach(Init(cfg)) && k <= cfg.workers
    requires 1 <= cfg.handlers && 2 <= cfg.maxClients && cfg.workers + 2 <= 0x8000
    ensures WellFormed(cfg, s) && reach(s) && HoldUpTo(cfg, s, k)
  {
    if k == 0 {
      s := Init(cfg);
    } else {
      var before := ReachAllHolding(cfg, reach, k - 1);
      s := ReachOneHolding(cfg, reach, before, k - 1);
    }
  }

  lemma ReachOneHolding(cfg: Setup, reach: Sys -> bool, s: Sys, k: nat) returns (s': Sys)
    requires Kept(cfg, reach) && WellFormed(cfg, s) && reach(s) && HoldUpTo(cfg, s, k) && k < cfg.workers
    requires 1 <= cfg.handlers && 2 <= cfg.maxClients && cfg.workers + 2 <= 0x8000
    ensures WellFormed(cfg, s') && reach(s') && HoldUpTo(cfg, s', k + 1)
  {
    var s1 := ReachRequest(cfg, reach, s, 0, k + 1, k + 3);
    var s2 := ReachHold(cfg, reach, s1, k);
    s' := ReachExpired(cfg, reach, s2, k + 1);
    HoldOneMore(cfg, s, s1, s', k);
  }

  lemma ReachExpired(cfg: Setup, reach: Sys -> bool, s: Sys, lo: nat) returns (s': Sys)
    requires Kept(cfg, reach) && WellFormed(cfg, s) && reach(s)
    requires 1 <= lo && lo + 2 <= 0x8000 && s.table.Keys == Interval(lo, lo + 2) && AllUnbound(s, s.clock)
    ensures WellFormed(cfg, s') && reach(s') && s' == s.(clock := s.clock + TIMEOUT_SECONDS, table := map[])
  {
    ReachLater(cfg, reach, s, TIMEOUT_SECONDS);
    s' := ReachBothSwept(cfg, reach, s.(clock := s.clock + TIMEOUT_SECONDS), lo, s.clock);
  }

  lemma {:induction false} ReachReserved(cfg: Setup, reach: Sys -> bool, s: Sys, k: nat) returns (s': Sys)
    requires Kept(cfg, reach) && WellFormed(cfg, s) && reach(s) && 1 <= k <= |s.handlers| == cfg.handlers
    requires 2 <= cfg.maxClients && s.table == map[] && forall h :: 0 <= h < cfg.handlers ==> s.handlers[h].Free?
    ensures WellFormed(cfg, s') && reach(s') && s' == s.(handlers := s'.handlers) && |s'.handlers| == cfg.handlers
    ensures forall h :: 0 <= h < cfg.handlers ==>
      if 1 <= h < k then s'.handlers[h] == Allocating(Most(cfg), [], 0) else s'.handlers[h].Free?
  {
    if k == 1 {
      s' := s;
    } else {
      var mid := ReachReserved(cfg, reach, s, k - 1);
      s' := ReachServe(cfg, reach, mid, k - 1, Check(Most(cfg)));
    }
  }

  /** The first slot that handler `k` inserts. */
  function BlockStart(lo: nat, most: nat, k: nat): int
    requires k >= 1
  {
    lo + most * (k - 1)
  }

  lemma NextBlock(lo: nat, most: nat, k: nat)
    requires k >= 1
    ensures BlockStart(lo, most, k + 1) == BlockStart(lo, most, k) + most
    ensures BlockStart(lo, most, k) >= lo
  {
    OneMore(most, k - 1);
    NotNegative(most, k - 1);
  }

  lemma {:induction false} ReachInserted(cfg: Setup, reach: Sys -> bool, s: Sys, lo: nat, k: nat) returns (s': Sys)
    requires Kept(cfg, reach) && WellFormed(cfg, s) && reach(s) && 1 <= k <= |s.handlers| == cfg.handlers
    requires 1 <= lo && BlockStart(lo, Most(cfg), k) <= 0x8000
    requires s.table.Keys !! Interval(lo, BlockStart(lo, Most(cfg), k))
    requires forall h :: 1 <= h < cfg.handlers ==> s.handlers[h] == Allocating(Most(cfg), [], 0)
    ensures WellFormed(cfg, s') && reach(s') && OnlyHandlers(s, s') && |s'.handlers| == cfg.handlers
    ensures s'.table.Keys == s.table.Keys + Interval(lo, BlockStart(lo, Most(cfg), k))
    ensures forall h :: k <= h < cfg.handlers ==> s'.handlers[h] == Allocating(Most(cfg), [], 0)
  {
    if k == 1 {
      s' := s;
    } else {
      var start := BlockStart(lo, Most(cfg), k - 1);
      NextBlock(lo, Most(cfg), k - 1);
      JoinIntervals(lo, start, start + Most(cfg));
      var mid := ReachInserted(cfg, reach, s, lo, k - 1);
      s' := ReachPuts(cfg, reach, mid, k - 1, Most(cfg), start, Most(cfg));
    }
  }

  lemma {:induction false} ReachBound(cfg: Setup, reach: Sys -> bool, s: Sys, k: nat) returns (s': Sys)
    requires Kept(cfg, reach) && WellFormed(cfg, s) && reach(s) && k <= |s.workers| == cfg.workers < 0x8000
    requires forall w :: 0 <= w < cfg.workers ==> HoldsUnbound(s, w)
    ensures WellFormed(cfg, s') && reach(s') && |s'.workers| == cfg.workers
    ensures s'.table.Keys == s.table.Keys + Interval(1, 1 + k)
    ensures forall w :: k <= w < cfg.workers ==> HoldsUnbound(s', w)
  {
    if k == 0 {
      s' := s;
    } else {
      var s1 := ReachBound(cfg, reach, s, k - 1);
      assert HoldsUnbound(s1, k - 1);
      var s2 := ReachWork(cfg, reach, s1, k - 1, Compare);
      s' := ReachWork(cfg, reach, s2, k - 1, Bind);
      OneInterval(k);
      JoinIntervals(1, k, k + 1);
      forall w | k <= w < cfg.workers ensures HoldsUnbound(s', w) {
        assert HoldsUnbound(s1, w);
      }
    }
  }

  /** Up to the last handler's passed check: table full, all others reserved. */
  lemma ReachFull(cfg: Setup, reach: Sys -> bool) returns (s: Sys)
    requires Kept(cfg, reach) && reach(Init(cfg))
    requires 1 <= cfg.handlers && 2 <= cfg.maxClients && 1 + cfg.workers + cfg.maxClients <= 0x8000
    ensures WellFormed(cfg, s) && reach(s) && |s.workers| == cfg.workers && |s.handlers| == cfg.handlers
    ensures s.table.Keys == Interval(1 + cfg.workers, 1 + cfg.workers + cfg.maxClients)
    ensures forall h :: 1 <= h < cfg.handlers ==> s.handlers[h] == Allocating(Most(cfg), [], 0)
    ensures forall w :: 0 <= w < cfg.workers ==> HoldsUnbound(s, w)
  {
    var s1 := ReachAllHolding(cfg, reach, cfg.workers);
    var s2 := ReachReserved(cfg, reach, s1, cfg.handlers);
    StillHolds(s1, s2);
    s := ReachFill(cfg, reach, s2, 1 + cfg.workers, 1 + cfg.workers + cfg.maxClients);
    StillHolds(s2, s);
  }

  /** The slots at the end: those of handler 0 up to `full`, those of the others
      up to `top`, and one for each worker. */
  function LastKeys(full: nat, top: nat, workers: nat): set<I16> {
    Interval(1 + workers, full) + Interval(full, top) + Interval(1, 1 + workers)
  }

  /** `full` and `top` as LastKeys has them, and ids for all these slots. */
  predicate Fits(cfg: Setup, full: nat, top: nat) {
    && 1 <= cfg.handlers && 2 <= cfg.maxClients
    && full == 1 + cfg.workers + cfg.maxClients
    && top == BlockStart(full, Most(cfg), cfg.handlers)
    && full <= top <= 0x8000
  }

  lemma ReachAll(cfg: Setup, reach: Sys -> bool, full: nat, top: nat) returns (s: Sys)
    requires Kept(cfg, reach) && reach(Init(cfg)) && Fits(cfg, full, top)
    ensures reach(s) && s.table.Keys == LastKeys(full, top, cfg.workers)
  {
    var s1 := ReachFull(cfg, reach);
    var s2 := ReachInserted(cfg, reach, s1, full, cfg.handlers);
    StillHolds(s1, s2);
    s := ReachBound(cfg, reach, s2, cfg.workers);
  }

  lemma LastKeysSize(full: nat, top: nat, workers: nat)
    requires 1 + workers <= full <= top <= 0x8000
    ensures |LastKeys(full, top, workers)| == top - 1
  {
    JoinIntervals(1 + workers, full, top);
    IntervalSize(1 + workers, top);
    IntervalSize(1, 1 + workers);
    assert Interval(1 + workers, top) !! Interval(1, 1 + workers);
  }

  lemma ReachMost(cfg: Setup, reach: Sys -> bool, full: nat, top: nat) returns (s: Sys)
    requires Kept(cfg, reach) && reach(Init(cfg)) && Fits(cfg, full, top)
    ensures reach(s) && |s.table| == top - 1
  {
    s := ReachAll(cfg, reach, full, top);
    LastKeysSize(full, top, cfg.workers);
    assert |s.table| == |s.table.Keys|;
  }

  lemma ReachedIsKept(cfg: Setup, reach: Sys -> bool)
    requires forall s :: reach(s) <==> Reached(cfg, s)
    ensures Kept(cfg, reach) && reach(Init(cfg))
  {
    assert Run(cfg, []) == Init(cfg);
    forall s, a | WellFormed(cfg, s) && reach(s) ensures KeptBy(cfg, reach, s, a) {
      ReachedStep(cfg, s, a);
    }
  }

  lemma ReachedByRun(cfg: Setup, s: Sys) returns (acts: seq<Action>)
    requires Reached(cfg, s)
    ensures Run(cfg, acts) == s
  {
    acts :| Run(cfg, acts) == s;
  }

  /** The bound is exact for every configuration whose slots all have an id. One
      run lets every worker find a slot that then expires, makes every other
      handler reserve as much as it can while the table is empty, fills it to the
      limit, lets all handlers insert, and lets every worker insert its slot. */
  lemma CapacityBoundReached(cfg: Setup) returns (acts: seq<Action>)
    requires 1 <= cfg.handlers && 2 <= cfg.maxClients
    requires cfg.maxClients + cfg.workers + Most(cfg) * (cfg.handlers - 1) < 0x8000
    ensures |Run(cfg, acts).table| == cfg.maxClients + cfg.workers + Most(cfg) * (cfg.handlers - 1)
  {
    var reach: Sys -> bool := s => Reached(cfg, s);
    ReachedIsKept(cfg, reach);
    var full := 1 + cfg.workers + cfg.maxClients;
    NextBlock(full, Most(cfg), cfg.handlers);
    var s := ReachMost(cfg, reach, full, BlockStart(full, Most(cfg), cfg.handlers));
    acts := ReachedByRun(cfg, s);
  }

  lemma SmallProduct(a: nat, b: nat)
    requires a <= 8 && b <= 99
    ensures a * b <= 792
  {
  }

  /** Every configuration the server accepts, with its at most 4 workers and 100
      handlers, is of that kind. */
  lemma ServerReachesBound(cfg: Setup) returns (acts: seq<Action>)
    requires 2 <= cfg.maxClients <= 10000 && cfg.workers <= 4 && 1 <= cfg.handlers <= 100
    ensures |Run(cfg, acts).table| == cfg.maxClients + cfg.workers + Most(cfg) * (cfg.handlers - 1)
  {
    SmallProduct(Most(cfg), cfg.handlers - 1);
    acts := CapacityBoundReached(cfg);
  }
}
