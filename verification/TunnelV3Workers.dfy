/** The V3 receive workers and cleaners sharing the two tables with no lock:
    every access to a shared map, and every read or write of a client's
    last-receive time, is one step, and any worker may move between any two of
    them. A step that is not enabled changes nothing, so the interleavings are
    exactly the sequences of actions. */
module TunnelV3Workers {
  import opened Net
  import opened Clients
  import V3 = TunnelV3Spec

  type Id = V3.Id

  /** `refreshWithin` bounds the seconds from taking a packet's timestamp to
      writing it into the record the lookup found; `pairWithin` those from
      building a record to the second of its two inserts. Every finite
      interleaving meets some bounds. */
  datatype Setup = Setup(maxClients: nat, workers: nat, refreshWithin: nat, pairWithin: nat)

  /** Where a worker is in the sender check. `now` is the timestamp it took when
      the packet arrived; `handle` its shared record; `built` the time at which
      it built the record it inserts. */
  datatype Pc =
    | Idle
    | Arrived(id: Id, from: Endpoint, now: nat)
    | Matched(id: Id, from: Endpoint, now: nat, handle: nat)
    | Absent(id: Id, from: Endpoint)
    | Reserved(id: Id, from: Endpoint)
    | Built(id: Id, client: Client)
    | Paired(id: Id, built: nat)

  /** `heap` holds every client record ever inserted; a table entry and the
      workers that looked it up share a record by its index. */
  datatype Sys = Sys(
    clock: nat,
    heap: seq<Client>,
    table: map<Id, nat>,
    analyzers: set<Id>,
    workers: seq<Pc>)

  datatype WorkerStep =
    | Arrive(id: Id, from: Endpoint)
    | Lookup
    | Compare
    | Count
    | Acquire(allowed: bool)
    | Insert
    | Pair

  datatype Action = Tick | Sweep(id: Id) | Work(worker: nat, step: WorkerStep)

  ghost predicate WellFormed(cfg: Setup, s: Sys) {
    && |s.workers| == cfg.workers
    && (forall id :: id in s.table ==> s.table[id] < |s.heap|)
    && (forall a, b :: a in s.table && b in s.table && s.table[a] == s.table[b] ==> a == b)
    && (forall w :: 0 <= w < |s.workers| && s.workers[w].Matched? ==> s.workers[w].handle < |s.heap|)
  }

  ghost predicate CanTick(cfg: Setup, s: Sys) {
    forall w :: 0 <= w < |s.workers| ==> InTime(cfg, s.workers[w], s.clock + 1)
  }

  /** A worker at `pc` is within its bounds at second `time`. */
  predicate InTime(cfg: Setup, pc: Pc, time: nat) {
    match pc
    case Arrived(_, _, now) => time <= now + cfg.refreshWithin
    case Matched(_, _, now, _) => time <= now + cfg.refreshWithin
    case Built(_, client) => time <= client.lastReceive + cfg.pairWithin
    case Paired(_, built) => time <= built + cfg.pairWithin
    case _ => true
  }

  function Init(cfg: Setup): (s: Sys)
    ensures WellFormed(cfg, s)
  {
    Sys(0, [], map[], {}, seq(cfg.workers, _ => Idle))
  }

  function At(s: Sys, w: nat, pc: Pc): Sys
    requires w < |s.workers|
  {
    s.(workers := s.workers[w := pc])
  }

  predicate ValidPc(s: Sys, pc: Pc) {
    pc.Matched? ==> pc.handle < |s.heap|
  }

  /** Where a step leads the worker that takes it; unchanged when not enabled. */
  function NextPc(cfg: Setup, s: Sys, pc: Pc, step: WorkerStep): Pc
    requires ValidPc(s, pc)
  {
    match (pc, step)
    case (Idle, Arrive(id, from)) => Arrived(id, from, s.clock)
    case (Arrived(id, from, now), Lookup) =>
      if id in s.table then Matched(id, from, now, s.table[id]) else Absent(id, from)
    case (Matched(id, from, now, h), Compare) =>
      var c := s.heap[h];
      if c.endpoint.Some? && c.endpoint != Some(from) && TimedOut(c, s.clock) then Reserved(id, from) else Idle
    case (Absent(id, from), Count) =>
      if |s.table| < cfg.maxClients then Reserved(id, from) else Idle
    case (Reserved(id, from), Acquire(allowed)) =>
      if allowed then Built(id, Client(Some(from), s.clock)) else Idle
    case (Built(id, client), Insert) => Paired(id, client.lastReceive)
    case (Paired(id, built), Pair) => Idle
    case _ => pc
  }

  /** What a step does to the shared maps and records. */
  function Shared(s: Sys, pc: Pc, step: WorkerStep): Sys
    requires ValidPc(s, pc)
  {
    if pc.Matched? && step.Compare? && s.heap[pc.handle].endpoint == Some(pc.from) then
      s.(heap := s.heap[pc.handle := s.heap[pc.handle].(lastReceive := pc.now)])
    else if pc.Built? && step.Insert? then
      s.(heap := s.heap + [pc.client], table := s.table[pc.id := |s.heap|])
    else if pc.Paired? && step.Pair? then
      s.(analyzers := s.analyzers + {pc.id})
    else s
  }

  function DoWork(cfg: Setup, s: Sys, w: nat, step: WorkerStep): Sys
    requires w < |s.workers| && ValidPc(s, s.workers[w])
  {
    At(Shared(s, s.workers[w], step), w, NextPc(cfg, s, s.workers[w], step))
  }

  lemma SharedStaysWellFormed(cfg: Setup, s: Sys, pc: Pc, step: WorkerStep)
    requires WellFormed(cfg, s) && ValidPc(s, pc)
    ensures WellFormed(cfg, Shared(s, pc, step))
    ensures |Shared(s, pc, step).heap| >= |s.heap|
    ensures Shared(s, pc, step).workers == s.workers
  {
  }

  lemma WorkStaysWellFormed(cfg: Setup, s: Sys, w: nat, step: WorkerStep)
    requires WellFormed(cfg, s) && w < cfg.workers
    ensures WellFormed(cfg, DoWork(cfg, s, w, step))
  {
    var pc := s.workers[w];
    SharedStaysWellFormed(cfg, s, pc, step);
    assert ValidPc(s, NextPc(cfg, s, pc, step));
  }

  ghost function Do(cfg: Setup, s: Sys, a: Action): (s': Sys)
    requires WellFormed(cfg, s)
    ensures WellFormed(cfg, s')
  {
    match a
    case Tick => if CanTick(cfg, s) then s.(clock := s.clock + 1) else s
    case Sweep(id) =>
      if id in s.table && TimedOut(s.heap[s.table[id]], s.clock)
      then s.(table := s.table - {id}, analyzers := s.analyzers - {id})
      else s
    case Work(w, step) =>
      if w < cfg.workers then
        WorkStaysWellFormed(cfg, s, w, step);
        DoWork(cfg, s, w, step)
      else s
  }

  /** The system after any interleaving of steps. */
  ghost function Run(cfg: Setup, acts: seq<Action>): (s: Sys)
    ensures WellFormed(cfg, s)
    decreases |acts|
  {
    if acts == [] then Init(cfg) else Do(cfg, Run(cfg, acts[..|acts| - 1]), acts[|acts| - 1])
  }

  // ---- Capacity ----

  /** The key a worker may still insert: from the moment it found the key or
      passed the capacity check until the insert. */
  function Pending(pc: Pc): set<Id> {
    if pc.Matched? || pc.Reserved? || pc.Built? then {pc.id} else {}
  }

  function Pendings(ws: seq<Pc>, n: nat): set<Id>
    requires n <= |ws|
  {
    if n == 0 then {} else Pendings(ws, n - 1) + Pending(ws[n - 1])
  }

  function Claimed(s: Sys): set<Id> {
    s.table.Keys + Pendings(s.workers, |s.workers|)
  }

  lemma {:induction false} PendingsAtMost(ws: seq<Pc>, n: nat)
    requires n <= |ws|
    ensures |Pendings(ws, n)| <= n
  {
    if n > 0 {
      PendingsAtMost(ws, n - 1);
    }
  }

  lemma {:induction false} PendingsHas(ws: seq<Pc>, w: nat, n: nat)
    requires w < n <= |ws|
    ensures Pending(ws[w]) <= Pendings(ws, n)
  {
    if w < n - 1 {
      PendingsHas(ws, w, n - 1);
    }
  }

  lemma {:induction false} PendingsUpdate(ws: seq<Pc>, w: nat, pc: Pc, n: nat)
    requires w < |ws| && n <= |ws|
    ensures Pendings(ws[w := pc], n) <= Pendings(ws, n) + Pending(pc)
  {
    if n > 0 {
      PendingsUpdate(ws, w, pc, n - 1);
    }
  }

  ghost predicate WithinBound(cfg: Setup, s: Sys) {
    |Claimed(s)| <= cfg.maxClients + cfg.workers - 1
  }

  /** A step claims a key nobody claimed before only by passing the capacity check. */
  lemma NewClaims(cfg: Setup, s: Sys, pc: Pc, step: WorkerStep)
    requires ValidPc(s, pc)
    ensures var pc' := NextPc(cfg, s, pc, step);
      || Pending(pc') <= Pending(pc) + s.table.Keys
      || (pc'.Reserved? && Shared(s, pc, step) == s && |s.table| < cfg.maxClients)
    ensures Shared(s, pc, step).table.Keys <= s.table.Keys + Pending(pc)
  {
  }

  lemma MovedWithin(cfg: Setup, s: Sys, s': Sys, w: nat, pc': Pc)
    requires w < |s.workers| == cfg.workers && s'.workers == s.workers[w := pc'] && WithinBound(cfg, s)
    requires s'.table.Keys <= s.table.Keys + Pending(s.workers[w])
    requires Pending(pc') <= Pending(s.workers[w]) + s.table.Keys
    ensures WithinBound(cfg, s')
  {
    PendingsUpdate(s.workers, w, pc', |s.workers|);
    PendingsHas(s.workers, w, |s.workers|);
    SubsetSize(Claimed(s'), Claimed(s));
  }

  lemma RoomWithin(cfg: Setup, s: Sys)
    requires |s.workers| == cfg.workers && |s.table| < cfg.maxClients
    ensures WithinBound(cfg, s)
  {
    PendingsAtMost(s.workers, |s.workers|);
    UnionAtMost(s.table.Keys, Pendings(s.workers, |s.workers|));
  }

  lemma WorkKeepsBound(cfg: Setup, s: Sys, w: nat, step: WorkerStep)
    requires WellFormed(cfg, s) && w < cfg.workers && WithinBound(cfg, s)
    ensures WithinBound(cfg, DoWork(cfg, s, w, step))
  {
    var pc, s' := s.workers[w], DoWork(cfg, s, w, step);
    NewClaims(cfg, s, pc, step);
    if Pending(s'.workers[w]) <= Pending(pc) + s.table.Keys {
      MovedWithin(cfg, s, s', w, s'.workers[w]);
    } else {
      RoomWithin(cfg, s');
    }
  }

  lemma StepKeepsBound(cfg: Setup, s: Sys, a: Action)
    requires WellFormed(cfg, s) && WithinBound(cfg, s)
    ensures WithinBound(cfg, Do(cfg, s, a))
  {
    if a.Work? && a.worker < cfg.workers {
      WorkKeepsBound(cfg, s, a.worker, a.step);
    } else {
      SubsetSize(Claimed(Do(cfg, s, a)), Claimed(s));
    }
  }

  lemma {:induction false} RunKeepsBound(cfg: Setup, acts: seq<Action>)
    requires cfg.workers >= 1
    ensures WithinBound(cfg, Run(cfg, acts))
    decreases |acts|
  {
    if acts == [] {
      NothingPending(Init(cfg).workers, cfg.workers);
    } else {
      var before := acts[..|acts| - 1];
      RunKeepsBound(cfg, before);
      StepKeepsBound(cfg, Run(cfg, before), acts[|acts| - 1]);
    }
  }

  lemma {:induction false} NothingPending(ws: seq<Pc>, n: nat)
    requires n <= |ws| && forall w :: 0 <= w < |ws| ==> ws[w].Idle?
    ensures Pendings(ws, n) == {}
  {
    if n > 0 {
      NothingPending(ws, n - 1);
    }
  }

  /** In every interleaving of the workers with any number of cleaners the
      table, even with every key a worker is still about to insert, never
      exceeds max_clients + W - 1. */
  lemma CapacityBound(cfg: Setup, acts: seq<Action>)
    requires cfg.workers >= 1
    ensures |Run(cfg, acts).table| <= |Claimed(Run(cfg, acts))| <= cfg.maxClients + cfg.workers - 1
  {
    RunKeepsBound(cfg, acts);
    var s := Run(cfg, acts);
    SubsetSize(s.table.Keys, Claimed(s));
  }

  // ---- The bound is reached ----

  lemma RunThen(cfg: Setup, acts: seq<Action>, a: Action)
    ensures Run(cfg, acts + [a]) == Do(cfg, Run(cfg, acts), a)
  {
    assert (acts + [a])[..|acts|] == acts;
  }

  lemma RunWork(cfg: Setup, acts: seq<Action>, w: nat, step: WorkerStep)
    requires w < cfg.workers
    ensures Run(cfg, acts + [Work(w, step)]) == DoWork(cfg, Run(cfg, acts), w, step)
  {
    RunThen(cfg, acts, Work(w, step));
  }

  lemma MoveStep(cfg: Setup, s: Sys, w: nat, step: WorkerStep)
    requires w < |s.workers| && ValidPc(s, s.workers[w]) && Shared(s, s.workers[w], step) == s
    ensures DoWork(cfg, s, w, step) == At(s, w, NextPc(cfg, s, s.workers[w], step))
  {
  }

  /** One step of worker `w` that only moves its program counter. */
  lemma RunMove(cfg: Setup, acts: seq<Action>, w: nat, step: WorkerStep, pc: Pc) returns (more: seq<Action>)
    requires w < cfg.workers
    requires Shared(Run(cfg, acts), Run(cfg, acts).workers[w], step) == Run(cfg, acts)
    requires NextPc(cfg, Run(cfg, acts), Run(cfg, acts).workers[w], step) == pc
    ensures Run(cfg, more) == At(Run(cfg, acts), w, pc)
  {
    more := acts + [Work(w, step)];
    RunWork(cfg, acts, w, step);
    MoveStep(cfg, Run(cfg, acts), w, step);
  }

  lemma RunToAbsent(cfg: Setup, acts: seq<Action>, w: nat, id: Id, from: Endpoint) returns (more: seq<Action>)
    requires w < cfg.workers && Run(cfg, acts).workers[w].Idle? && id !in Run(cfg, acts).table
    ensures Run(cfg, more) == At(Run(cfg, acts), w, Absent(id, from))
  {
    var s := Run(cfg, acts);
    more := RunMove(cfg, acts, w, Arrive(id, from), Arrived(id, from, s.clock));
    more := RunMove(cfg, more, w, Lookup, Absent(id, from));
    assert Run(cfg, more).workers == s.workers[w := Absent(id, from)];
  }

  lemma RunFromAbsent(cfg: Setup, acts: seq<Action>, w: nat) returns (more: seq<Action>)
    requires w < cfg.workers && Run(cfg, acts).workers[w].Absent? && |Run(cfg, acts).table| < cfg.maxClients
    ensures var s, pc := Run(cfg, acts), Run(cfg, acts).workers[w];
      Run(cfg, more) == At(s, w, Built(pc.id, Client(Some(pc.from), s.clock)))
  {
    var s, pc := Run(cfg, acts), Run(cfg, acts).workers[w];
    var reserved, built := Reserved(pc.id, pc.from), Built(pc.id, Client(Some(pc.from), s.clock));
    more := RunMove(cfg, acts, w, Count, reserved);
    more := RunMove(cfg, more, w, Acquire(true), built);
    assert s.workers[w := reserved][w := built] == s.workers[w := built];
  }

  /** Worker `w` takes one packet from arrival to just before the insert. */
  lemma RunToInsert(cfg: Setup, acts: seq<Action>, w: nat, id: Id, from: Endpoint) returns (more: seq<Action>)
    requires w < cfg.workers && Run(cfg, acts).workers[w].Idle?
    requires id !in Run(cfg, acts).table && |Run(cfg, acts).table| < cfg.maxClients
    ensures var s := Run(cfg, acts);
      Run(cfg, more) == At(s, w, Built(id, Client(Some(from), s.clock)))
  {
    var s := Run(cfg, acts);
    more := RunToAbsent(cfg, acts, w, id, from);
    more := RunFromAbsent(cfg, more, w);
    assert Run(cfg, more).workers == s.workers[w := Built(id, Client(Some(from), s.clock))];
  }

  lemma InsertStep(cfg: Setup, s: Sys, w: nat)
    requires w < |s.workers| && s.workers[w].Built?
    ensures var pc := s.workers[w];
      DoWork(cfg, s, w, Insert)
      == At(s.(heap := s.heap + [pc.client], table := s.table[pc.id := |s.heap|]), w,
            Paired(pc.id, pc.client.lastReceive))
  {
  }

  lemma RunInsert(cfg: Setup, acts: seq<Action>, w: nat) returns (more: seq<Action>)
    requires w < cfg.workers && Run(cfg, acts).workers[w].Built?
    ensures var s, pc := Run(cfg, acts), Run(cfg, acts).workers[w];
      Run(cfg, more) == At(s.(heap := s.heap + [pc.client], table := s.table[pc.id := |s.heap|]), w,
                           Paired(pc.id, pc.client.lastReceive))
  {
    more := acts + [Work(w, Insert)];
    RunWork(cfg, acts, w, Insert);
    InsertStep(cfg, Run(cfg, acts), w);
  }

  lemma PairStep(cfg: Setup, s: Sys, w: nat)
    requires w < |s.workers| && s.workers[w].Paired?
    ensures DoWork(cfg, s, w, Pair) == At(s.(analyzers := s.analyzers + {s.workers[w].id}), w, Idle)
  {
  }

  lemma RunPair(cfg: Setup, acts: seq<Action>, w: nat) returns (more: seq<Action>)
    requires w < cfg.workers && Run(cfg, acts).workers[w].Paired?
    ensures var s, pc := Run(cfg, acts), Run(cfg, acts).workers[w];
      Run(cfg, more) == At(s.(analyzers := s.analyzers + {pc.id}), w, Idle)
  {
    more := acts + [Work(w, Pair)];
    RunWork(cfg, acts, w, Pair);
    PairStep(cfg, Run(cfg, acts), w);
  }

  /** Worker `w` performs its pair of inserts. */
  lemma RunInserts(cfg: Setup, acts: seq<Action>, w: nat) returns (more: seq<Action>)
    requires w < cfg.workers && Run(cfg, acts).workers[w].Built?
    ensures var s, s' := Run(cfg, acts), Run(cfg, more);
      && s'.table.Keys == s.table.Keys + {s.workers[w].id}
      && s'.workers == s.workers[w := Idle]
  {
    more := RunInsert(cfg, acts, w);
    more := RunPair(cfg, more, w);
    assert Run(cfg, more).workers == Run(cfg, acts).workers[w := Idle];
  }

  function FirstIds(n: nat): (ids: set<Id>)
    requires n <= 0x1_0000_0000
    ensures |ids| == n
    ensures forall id: Id :: id in ids <==> id < n
  {
    if n == 0 then {} else FirstIds(n - 1) + {n - 1}
  }

  lemma {:induction false} FillOneByOne(cfg: Setup, n: nat) returns (acts: seq<Action>)
    requires 1 <= cfg.workers && n <= cfg.maxClients && n <= 0x1_0000_0000
    ensures Run(cfg, acts).table.Keys == FirstIds(n)
    ensures forall w :: 0 <= w < cfg.workers ==> Run(cfg, acts).workers[w].Idle?
  {
    if n == 0 {
      acts := [];
    } else {
      acts := FillOneByOne(cfg, n - 1);
      acts := RunToInsert(cfg, acts, 0, n - 1, SOMEWHERE);
      acts := RunInserts(cfg, acts, 0);
    }
  }

  /** Workers below `k` no longer wait; those from `k` on are about to insert
      the keys that follow the first max_clients - 1. */
  predicate Waiting(cfg: Setup, s: Sys, k: nat) {
    && |s.workers| == cfg.workers
    && forall w :: k <= w < cfg.workers ==> s.workers[w].Built? && s.workers[w].id == cfg.maxClients - 1 + w
  }

  lemma {:induction false} AllPassTheCheck(cfg: Setup, k: nat) returns (acts: seq<Action>)
    requires k <= cfg.workers && 1 <= cfg.workers && 1 <= cfg.maxClients
    requires cfg.maxClients + cfg.workers <= 0x1_0000_0000
    ensures Run(cfg, acts).table.Keys == FirstIds(cfg.maxClients - 1)
    ensures forall w :: 0 <= w < cfg.workers ==>
      var pc := Run(cfg, acts).workers[w];
      if w < k then pc.Built? && pc.id == cfg.maxClients - 1 + w else pc.Idle?
  {
    if k == 0 {
      acts := FillOneByOne(cfg, cfg.maxClients - 1);
    } else {
      acts := AllPassTheCheck(cfg, k - 1);
      acts := RunToInsert(cfg, acts, k - 1, cfg.maxClients + k - 2, SOMEWHERE);
    }
  }

  lemma OneMoreIn(cfg: Setup, s: Sys, s': Sys, k: nat)
    requires k < cfg.workers && 1 <= cfg.maxClients && cfg.maxClients + cfg.workers <= 0x1_0000_0000
    requires Waiting(cfg, s, k) && s.table.Keys == FirstIds(cfg.maxClients - 1 + k)
    requires s'.table.Keys == s.table.Keys + {s.workers[k].id} && s'.workers == s.workers[k := Idle]
    ensures Waiting(cfg, s', k + 1) && s'.table.Keys == FirstIds(cfg.maxClients + k)
  {
  }

  lemma {:induction false} AllInsert(cfg: Setup, k: nat) returns (acts: seq<Action>)
    requires k <= cfg.workers && 1 <= cfg.workers && 1 <= cfg.maxClients
    requires cfg.maxClients + cfg.workers <= 0x1_0000_0000
    ensures Run(cfg, acts).table.Keys == FirstIds(cfg.maxClients - 1 + k)
    ensures Waiting(cfg, Run(cfg, acts), k)
  {
    if k == 0 {
      acts := AllPassTheCheck(cfg, cfg.workers);
    } else {
      var before := AllInsert(cfg, k - 1);
      acts := RunInserts(cfg, before, k - 1);
      OneMoreIn(cfg, Run(cfg, before), Run(cfg, acts), k - 1);
    }
  }

  /** The bound is exact for every number of workers and every limit: all
      workers can pass the check on the last free slot before any inserts. */
  lemma CapacityBoundReached(cfg: Setup)
    requires 1 <= cfg.workers && 1 <= cfg.maxClients && cfg.maxClients + cfg.workers <= 0x1_0000_0000
    ensures exists acts :: |Run(cfg, acts).table| == cfg.maxClients + cfg.workers - 1
  {
    var acts := AllInsert(cfg, cfg.workers);
    var s := Run(cfg, acts);
    assert |s.table| == |s.table.Keys|;
  }

  // ---- The two tables ----

  /** How far a live entry's last-receive time can lie before the building of a
      record whose second insert is still due: a refresh writes a timestamp, and
      an insert a record, that may be as old as the bounds allow. */
  function Staleness(cfg: Setup): nat {
    if cfg.refreshWithin >= cfg.pairWithin then cfg.refreshWithin else cfg.pairWithin
  }

  /** No entry can expire while one of its two inserts is still due. */
  predicate Safe(cfg: Setup) {
    cfg.refreshWithin + cfg.pairWithin < TIMEOUT_SECONDS && 2 * cfg.pairWithin < TIMEOUT_SECONDS
  }

  /** What a busy worker may rely on: it is within its bounds, and the entry of
      a worker between its two inserts is in the table and not too stale. */
  ghost predicate Prompt(cfg: Setup, s: Sys, pc: Pc) {
    && InTime(cfg, pc, s.clock)
    && (pc.Arrived? || pc.Matched? ==> pc.now <= s.clock)
    && (pc.Built? ==> pc.client.lastReceive <= s.clock)
    && (pc.Paired? ==> pc.built <= s.clock && Backed(cfg, s, pc.id, pc.built))
  }

  ghost predicate Backed(cfg: Setup, s: Sys, id: Id, built: nat) {
    && id in s.table && s.table[id] < |s.heap|
    && s.heap[s.table[id]].lastReceive + Staleness(cfg) >= built
  }

  ghost predicate AllPrompt(cfg: Setup, s: Sys) {
    forall w :: 0 <= w < |s.workers| ==> Prompt(cfg, s, s.workers[w])
  }

  /** `id` is in the table and some worker is between its two inserts for it. */
  ghost predicate Halfway(s: Sys, id: Id) {
    exists w :: 0 <= w < |s.workers| && s.workers[w].Paired? && s.workers[w].id == id
  }

  ghost predicate Agree(s: Sys) {
    && s.analyzers <= s.table.Keys
    && forall id :: id in s.table.Keys - s.analyzers ==> Halfway(s, id)
  }

  lemma OthersStayPrompt(cfg: Setup, s: Sys, pc: Pc, step: WorkerStep, other: Pc)
    requires WellFormed(cfg, s) && ValidPc(s, pc) && Prompt(cfg, s, pc) && Prompt(cfg, s, other)
    ensures Prompt(cfg, Shared(s, pc, step), other)
  {
  }

  lemma MoverStaysPrompt(cfg: Setup, s: Sys, pc: Pc, step: WorkerStep)
    requires WellFormed(cfg, s) && ValidPc(s, pc) && Prompt(cfg, s, pc)
    ensures Prompt(cfg, Shared(s, pc, step), NextPc(cfg, s, pc, step))
  {
  }

  lemma WorkKeepsPrompt(cfg: Setup, s: Sys, w: nat, step: WorkerStep)
    requires WellFormed(cfg, s) && w < cfg.workers && AllPrompt(cfg, s)
    ensures AllPrompt(cfg, DoWork(cfg, s, w, step))
  {
    var pc, mid := s.workers[w], Shared(s, s.workers[w], step);
    MoverStaysPrompt(cfg, s, pc, step);
    forall v | 0 <= v < |s.workers| ensures Prompt(cfg, mid, s.workers[v]) {
      OthersStayPrompt(cfg, s, pc, step, s.workers[v]);
    }
    var s' := DoWork(cfg, s, w, step);
    forall v | 0 <= v < |s'.workers| ensures Prompt(cfg, s', s'.workers[v]) {
      assert Prompt(cfg, mid, s'.workers[v]);
    }
  }

  lemma WorkKeepsAgree(cfg: Setup, s: Sys, w: nat, step: WorkerStep)
    requires WellFormed(cfg, s) && w < cfg.workers && AllPrompt(cfg, s) && Agree(s)
    ensures Agree(DoWork(cfg, s, w, step))
  {
    var pc, s' := s.workers[w], DoWork(cfg, s, w, step);
    assert Prompt(cfg, s, pc);
    forall id | id in s'.table.Keys - s'.analyzers ensures Halfway(s', id) {
      if id in s.table.Keys - s.analyzers {
        var v :| 0 <= v < |s.workers| && s.workers[v].Paired? && s.workers[v].id == id;
        assert v == w ==> s'.workers[v] == pc;
        assert s'.workers[v].Paired? && s'.workers[v].id == id;
      } else {
        assert s'.workers[w].Paired? && s'.workers[w].id == id;
      }
    }
  }

  lemma SweepKeepsPrompt(cfg: Setup, s: Sys, id: Id)
    requires WellFormed(cfg, s) && Safe(cfg) && AllPrompt(cfg, s)
    ensures AllPrompt(cfg, Do(cfg, s, Sweep(id)))
  {
    forall w | 0 <= w < |s.workers| && s.workers[w].Paired? && s.workers[w].id == id
      ensures !TimedOut(s.heap[s.table[id]], s.clock)
    {
      assert Prompt(cfg, s, s.workers[w]);
    }
    var s' := Do(cfg, s, Sweep(id));
    forall w | 0 <= w < |s'.workers| ensures Prompt(cfg, s', s'.workers[w]) {
      assert Prompt(cfg, s, s.workers[w]);
    }
  }

  lemma SweepKeepsAgree(cfg: Setup, s: Sys, id: Id)
    requires WellFormed(cfg, s) && Agree(s)
    ensures Agree(Do(cfg, s, Sweep(id)))
  {
    var s' := Do(cfg, s, Sweep(id));
    forall k | k in s'.table.Keys - s'.analyzers ensures Halfway(s', k) {
      assert Halfway(s, k);
      var v :| 0 <= v < |s.workers| && s.workers[v].Paired? && s.workers[v].id == k;
      assert s'.workers[v] == s.workers[v];
    }
  }

  lemma TickKeepsPrompt(cfg: Setup, s: Sys)
    requires WellFormed(cfg, s) && AllPrompt(cfg, s)
    ensures AllPrompt(cfg, Do(cfg, s, Tick))
  {
    var s' := Do(cfg, s, Tick);
    forall w | 0 <= w < |s'.workers| ensures Prompt(cfg, s', s'.workers[w]) {
      assert Prompt(cfg, s, s.workers[w]);
    }
  }

  lemma TickKeepsAgree(cfg: Setup, s: Sys)
    requires WellFormed(cfg, s) && Agree(s)
    ensures Agree(Do(cfg, s, Tick))
  {
    var s' := Do(cfg, s, Tick);
    forall k | k in s'.table.Keys - s'.analyzers ensures Halfway(s', k) {
      assert Halfway(s, k);
      var v :| 0 <= v < |s.workers| && s.workers[v].Paired? && s.workers[v].id == k;
      assert s'.workers[v] == s.workers[v];
    }
  }

  lemma {:induction false} RunAgrees(cfg: Setup, acts: seq<Action>)
    requires Safe(cfg)
    ensures AllPrompt(cfg, Run(cfg, acts)) && Agree(Run(cfg, acts))
    decreases |acts|
  {
    if acts != [] {
      var before, a := acts[..|acts| - 1], acts[|acts| - 1];
      RunAgrees(cfg, before);
      var s := Run(cfg, before);
      match a
      case Tick => TickKeepsPrompt(cfg, s); TickKeepsAgree(cfg, s);
      case Sweep(id) => SweepKeepsPrompt(cfg, s, id); SweepKeepsAgree(cfg, s, id);
      case Work(w, step) =>
        if w < cfg.workers {
          WorkKeepsPrompt(cfg, s, w, step);
          WorkKeepsAgree(cfg, s, w, step);
        }
    }
  }

  predicate Quiescent(s: Sys) {
    forall w :: 0 <= w < |s.workers| ==> s.workers[w].Idle?
  }

  /** When the bounds are safe, then in every
      interleaving the analyzer table's keys are among the client table's keys,
      only keys some worker is midway through inserting are missing, and the two
      key sets are equal whenever no worker is busy. */
  lemma TablesAgree(cfg: Setup, acts: seq<Action>)
    requires Safe(cfg)
    ensures var s := Run(cfg, acts);
      && s.analyzers <= s.table.Keys
      && (forall id :: id in s.table.Keys - s.analyzers ==> Halfway(s, id))
      && (Quiescent(s) ==> s.analyzers == s.table.Keys)
  {
    RunAgrees(cfg, acts);
    var s := Run(cfg, acts);
    if Quiescent(s) {
      forall id | id in s.table ensures id in s.analyzers {
        assert id !in s.table.Keys - s.analyzers || Halfway(s, id);
      }
    }
  }

  // ---- The bounds are exact ----

  lemma RunTick(cfg: Setup, acts: seq<Action>)
    requires CanTick(cfg, Run(cfg, acts))
    ensures Run(cfg, acts + [Tick]) == Run(cfg, acts).(clock := Run(cfg, acts).clock + 1)
  {
    RunThen(cfg, acts, Tick);
  }

  lemma {:induction false} RunTicks(cfg: Setup, acts: seq<Action>, n: nat) returns (more: seq<Action>)
    requires forall w :: 0 <= w < cfg.workers ==> InTime(cfg, Run(cfg, acts).workers[w], Run(cfg, acts).clock + n)
    ensures Run(cfg, more) == Run(cfg, acts).(clock := Run(cfg, acts).clock + n)
  {
    if n == 0 {
      more := acts;
    } else {
      var mid := RunTicks(cfg, acts, n - 1);
      assert CanTick(cfg, Run(cfg, mid));
      more := mid + [Tick];
      RunTick(cfg, mid);
    }
  }

  lemma RefreshStep(cfg: Setup, s: Sys, w: nat)
    requires w < |s.workers| && s.workers[w].Matched? && ValidPc(s, s.workers[w])
    requires s.heap[s.workers[w].handle].endpoint == Some(s.workers[w].from)
    ensures var pc := s.workers[w];
      DoWork(cfg, s, w, Compare)
      == At(s.(heap := s.heap[pc.handle := s.heap[pc.handle].(lastReceive := pc.now)]), w, Idle)
  {
  }

  lemma RunCompare(cfg: Setup, acts: seq<Action>, w: nat) returns (more: seq<Action>)
    requires w < cfg.workers && Run(cfg, acts).workers[w].Matched?
    requires var s, pc := Run(cfg, acts), Run(cfg, acts).workers[w]; s.heap[pc.handle].endpoint == Some(pc.from)
    ensures var s, pc := Run(cfg, acts), Run(cfg, acts).workers[w];
      Run(cfg, more) == At(s.(heap := s.heap[pc.handle := s.heap[pc.handle].(lastReceive := pc.now)]), w, Idle)
  {
    more := acts + [Work(w, Compare)];
    RunWork(cfg, acts, w, Compare);
    RefreshStep(cfg, Run(cfg, acts), w);
  }

  lemma RunSweep(cfg: Setup, acts: seq<Action>, id: Id) returns (more: seq<Action>)
    requires id in Run(cfg, acts).table && TimedOut(Run(cfg, acts).heap[Run(cfg, acts).table[id]], Run(cfg, acts).clock)
    ensures var s := Run(cfg, acts);
      Run(cfg, more) == s.(table := s.table - {id}, analyzers := s.analyzers - {id})
  {
    more := acts + [Sweep(id)];
    RunThen(cfg, acts, Sweep(id));
  }

  /** Everybody idle but worker 0 at `first` and worker 1 at `second`. */
  function Two(cfg: Setup, first: Pc, second: Pc): (ws: seq<Pc>)
    requires cfg.workers >= 2
    ensures |ws| == cfg.workers
  {
    Init(cfg).workers[0 := first][1 := second]
  }

  lemma TicksWithTwo(cfg: Setup, acts: seq<Action>, first: Pc, second: Pc, n: nat) returns (more: seq<Action>)
    requires cfg.workers >= 2 && Run(cfg, acts).workers == Two(cfg, first, second)
    requires InTime(cfg, first, Run(cfg, acts).clock + n) && InTime(cfg, second, Run(cfg, acts).clock + n)
    ensures Run(cfg, more) == Run(cfg, acts).(clock := Run(cfg, acts).clock + n)
  {
    more := RunTicks(cfg, acts, n);
  }

  lemma SlowWorkerArrives(cfg: Setup) returns (acts: seq<Action>)
    requires cfg.workers >= 2
    ensures Run(cfg, acts) == Sys(cfg.refreshWithin, [], map[], {}, Two(cfg, Arrived(1, SOMEWHERE, 0), Idle))
  {
    assert Run(cfg, []) == Init(cfg);
    acts := RunMove(cfg, [], 0, Arrive(1, SOMEWHERE), Arrived(1, SOMEWHERE, 0));
    assert Run(cfg, acts).workers == Two(cfg, Arrived(1, SOMEWHERE, 0), Idle);
    acts := TicksWithTwo(cfg, acts, Arrived(1, SOMEWHERE, 0), Idle, cfg.refreshWithin);
  }

  lemma OtherWorkerInserts(cfg: Setup) returns (acts: seq<Action>)
    requires cfg.workers >= 2 && cfg.maxClients >= 1
    ensures var a := cfg.refreshWithin;
      Run(cfg, acts) == Sys(a, [Client(Some(SOMEWHERE), a)], map[1 := 0], {},
                            Two(cfg, Arrived(1, SOMEWHERE, 0), Paired(1, a)))
  {
    acts := SlowWorkerArrives(cfg);
    acts := RunToInsert(cfg, acts, 1, 1, SOMEWHERE);
    acts := RunInsert(cfg, acts, 1);
    assert Run(cfg, acts).workers == Two(cfg, Arrived(1, SOMEWHERE, 0), Paired(1, cfg.refreshWithin));
  }

  lemma SlowWorkerRefreshes(cfg: Setup) returns (acts: seq<Action>)
    requires cfg.workers >= 2 && cfg.maxClients >= 1
    ensures var a := cfg.refreshWithin;
      Run(cfg, acts) == Sys(a, [Client(Some(SOMEWHERE), 0)], map[1 := 0], {}, Two(cfg, Idle, Paired(1, a)))
  {
    acts := OtherWorkerInserts(cfg);
    acts := RunMove(cfg, acts, 0, Lookup, Matched(1, SOMEWHERE, 0, 0));
    acts := RunCompare(cfg, acts, 0);
    assert Run(cfg, acts).workers == Two(cfg, Idle, Paired(1, cfg.refreshWithin));
  }

  /** An analyzer is left behind without a client. */
  predicate Orphaned(s: Sys) {
    Quiescent(s) && 1 in s.analyzers && 1 !in s.table
  }

  /** A slow worker writes its old timestamp into the record another worker has
      just inserted; when that expires the cleanup removes the entry, and only
      then the analyzer is inserted. */
  lemma StaleTimestampRun(cfg: Setup) returns (acts: seq<Action>)
    requires cfg.workers >= 2 && cfg.maxClients >= 1 && cfg.refreshWithin + cfg.pairWithin >= TIMEOUT_SECONDS
    ensures Orphaned(Run(cfg, acts))
  {
    acts := SlowWorkerRefreshes(cfg);
    acts := TicksWithTwo(cfg, acts, Idle, Paired(1, cfg.refreshWithin), cfg.pairWithin);
    acts := RunSweep(cfg, acts, 1);
    acts := RunPair(cfg, acts, 1);
  }

  lemma FirstBuilds(cfg: Setup) returns (acts: seq<Action>)
    requires cfg.workers >= 2 && cfg.maxClients >= 1
    ensures Run(cfg, acts) == Sys(cfg.pairWithin, [], map[], {}, Two(cfg, Built(1, Client(Some(SOMEWHERE), 0)), Idle))
  {
    assert Run(cfg, []) == Init(cfg);
    acts := RunToInsert(cfg, [], 0, 1, SOMEWHERE);
    assert Run(cfg, acts).workers == Two(cfg, Built(1, Client(Some(SOMEWHERE), 0)), Idle);
    acts := TicksWithTwo(cfg, acts, Built(1, Client(Some(SOMEWHERE), 0)), Idle, cfg.pairWithin);
  }

  lemma SecondInserts(cfg: Setup) returns (acts: seq<Action>)
    requires cfg.workers >= 2 && cfg.maxClients >= 1
    ensures var b := cfg.pairWithin;
      Run(cfg, acts) == Sys(b, [Client(Some(SOMEWHERE), b)], map[1 := 0], {},
                            Two(cfg, Built(1, Client(Some(SOMEWHERE), 0)), Paired(1, b)))
  {
    acts := FirstBuilds(cfg);
    acts := RunToInsert(cfg, acts, 1, 1, SOMEWHERE);
    acts := RunInsert(cfg, acts, 1);
    assert Run(cfg, acts).workers == Two(cfg, Built(1, Client(Some(SOMEWHERE), 0)), Paired(1, cfg.pairWithin));
  }

  lemma FirstInserts(cfg: Setup) returns (acts: seq<Action>)
    requires cfg.workers >= 2 && cfg.maxClients >= 1
    ensures var b := cfg.pairWithin;
      Run(cfg, acts) == Sys(b, [Client(Some(SOMEWHERE), b), Client(Some(SOMEWHERE), 0)], map[1 := 1], {},
                            Two(cfg, Paired(1, 0), Paired(1, b)))
  {
    acts := SecondInserts(cfg);
    acts := RunInsert(cfg, acts, 0);
    assert Run(cfg, acts).workers == Two(cfg, Paired(1, 0), Paired(1, cfg.pairWithin));
    assert map[1 := 0][1 := 1] == map[1 := 1];
  }

  lemma FirstOverwrites(cfg: Setup) returns (acts: seq<Action>)
    requires cfg.workers >= 2 && cfg.maxClients >= 1
    ensures var b := cfg.pairWithin;
      Run(cfg, acts) == Sys(b, [Client(Some(SOMEWHERE), b), Client(Some(SOMEWHERE), 0)], map[1 := 1], {1},
                            Two(cfg, Idle, Paired(1, b)))
  {
    acts := FirstInserts(cfg);
    acts := RunPair(cfg, acts, 0);
    assert Run(cfg, acts).workers == Two(cfg, Idle, Paired(1, cfg.pairWithin));
  }

  /** A slow worker overwrites the entry another worker has just inserted with
      the older record it had built before, which then expires in time for the
      cleanup to remove it before the other worker inserts its analyzer. */
  lemma StaleRecordRun(cfg: Setup) returns (acts: seq<Action>)
    requires cfg.workers >= 2 && cfg.maxClients >= 1 && 2 * cfg.pairWithin >= TIMEOUT_SECONDS
    ensures Orphaned(Run(cfg, acts))
  {
    acts := FirstOverwrites(cfg);
    acts := TicksWithTwo(cfg, acts, Idle, Paired(1, cfg.pairWithin), cfg.pairWithin);
    acts := RunSweep(cfg, acts, 1);
    acts := RunPair(cfg, acts, 1);
  }

  lemma UnsafeRun(cfg: Setup) returns (acts: seq<Action>)
    requires cfg.workers >= 2 && cfg.maxClients >= 1 && !Safe(cfg)
    ensures Orphaned(Run(cfg, acts))
  {
    if cfg.refreshWithin + cfg.pairWithin >= TIMEOUT_SECONDS {
      acts := StaleTimestampRun(cfg);
    } else {
      acts := StaleRecordRun(cfg);
    }
  }

  ghost predicate AlwaysWithin(cfg: Setup) {
    forall acts :: Run(cfg, acts).analyzers <= Run(cfg, acts).table.Keys
  }

  ghost predicate EqualWhenQuiescent(cfg: Setup) {
    forall acts :: Quiescent(Run(cfg, acts)) ==> Run(cfg, acts).analyzers == Run(cfg, acts).table.Keys
  }

  /** With the two or more workers the server starts, the tables agree in every
      interleaving if and only if both bounds together, and twice the second,
      are below the timeout. */
  lemma AgreementExactly(cfg: Setup)
    requires cfg.workers >= 2 && cfg.maxClients >= 1
    ensures AlwaysWithin(cfg) <==>
      cfg.refreshWithin + cfg.pairWithin < 30 && 2 * cfg.pairWithin < 30
    ensures EqualWhenQuiescent(cfg) <==> AlwaysWithin(cfg)
  {
    if Safe(cfg) {
      forall acts
        ensures Run(cfg, acts).analyzers <= Run(cfg, acts).table.Keys
        ensures Quiescent(Run(cfg, acts)) ==> Run(cfg, acts).analyzers == Run(cfg, acts).table.Keys
      {
        TablesAgree(cfg, acts);
      }
    } else {
      var acts := UnsafeRun(cfg);
      assert !(Run(cfg, acts).analyzers <= Run(cfg, acts).table.Keys);
    }
  }

  // ---- An uninterrupted worker performs the atomic step ----

  /** The client table as the atomic steps see it. */
  function View(table: map<Id, nat>, heap: seq<Client>): map<Id, Client>
    requires forall id :: id in table ==> table[id] < |heap|
  {
    map id | id in table :: heap[table[id]]
  }

  function AbsState(s: Sys): V3.State
    requires forall id :: id in s.table ==> s.table[id] < |s.heap|
  {
    V3.Init().(mappings := View(s.table, s.heap), analyzers := s.analyzers)
  }

  ghost function Decided(cfg: Setup, s: Sys, w: nat, id: Id, from: Endpoint): (s': Sys)
    requires WellFormed(cfg, s) && w < cfg.workers
    ensures WellFormed(cfg, s')
  {
    var looked := Do(cfg, Do(cfg, s, Work(w, Arrive(id, from))), Work(w, Lookup));
    Do(cfg, Do(cfg, looked, Work(w, Compare)), Work(w, Count))
  }

  ghost function Finished(cfg: Setup, s: Sys, w: nat, allowed: bool): (s': Sys)
    requires WellFormed(cfg, s) && w < cfg.workers
    ensures WellFormed(cfg, s')
  {
    Do(cfg, Do(cfg, Do(cfg, s, Work(w, Acquire(allowed))), Work(w, Insert)), Work(w, Pair))
  }

  /** The steps of worker `w` on one data packet with nobody else moving. A
      step the packet does not need is not enabled and changes nothing. */
  ghost function Uninterrupted(cfg: Setup, s: Sys, w: nat, id: Id, from: Endpoint, allowed: bool): (s': Sys)
    requires WellFormed(cfg, s) && w < cfg.workers
    ensures WellFormed(cfg, s')
  {
    Finished(cfg, Decided(cfg, s, w, id, from), w, allowed)
  }

  lemma NotEnabled(cfg: Setup, s: Sys, w: nat, step: WorkerStep)
    requires WellFormed(cfg, s) && w < cfg.workers
    requires NextPc(cfg, s, s.workers[w], step) == s.workers[w] && Shared(s, s.workers[w], step) == s
    ensures Do(cfg, s, Work(w, step)) == s
  {
  }

  lemma Moves(cfg: Setup, s: Sys, w: nat, prev: Pc, step: WorkerStep, pc: Pc)
    requires WellFormed(cfg, s) && w < cfg.workers && ValidPc(s, prev)
    requires NextPc(cfg, s, prev, step) == pc && Shared(s, prev, step) == s
    requires WellFormed(cfg, At(s, w, prev))
    ensures Do(cfg, At(s, w, prev), Work(w, step)) == At(s, w, pc)
  {
    assert s.workers[w := prev][w := pc] == s.workers[w := pc];
    var s1 := At(s, w, prev);
    assert Shared(s1, prev, step) == s1;
    assert NextPc(cfg, s1, prev, step) == NextPc(cfg, s, prev, step);
  }

  lemma FinishIdle(cfg: Setup, s: Sys, w: nat, allowed: bool)
    requires WellFormed(cfg, s) && w < cfg.workers && s.workers[w].Idle?
    ensures Finished(cfg, s, w, allowed) == s
  {
    NotEnabled(cfg, s, w, Acquire(allowed));
    NotEnabled(cfg, s, w, Insert);
    NotEnabled(cfg, s, w, Pair);
  }

  lemma FinishReserved(cfg: Setup, s: Sys, w: nat, id: Id, from: Endpoint, allowed: bool)
    requires WellFormed(cfg, s) && w < cfg.workers && s.workers[w].Idle?
    requires WellFormed(cfg, At(s, w, Reserved(id, from)))
    ensures Finished(cfg, At(s, w, Reserved(id, from)), w, allowed)
      == if !allowed then s
         else s.(heap := s.heap + [Client(Some(from), s.clock)], table := s.table[id := |s.heap|],
                 analyzers := s.analyzers + {id})
  {
    var s0 := At(s, w, Reserved(id, from));
    if allowed {
      var client := Client(Some(from), s.clock);
      var s1 := At(s, w, Built(id, client));
      Moves(cfg, s, w, Reserved(id, from), Acquire(true), Built(id, client));
      InsertStep(cfg, s1, w);
      var s2 := Do(cfg, s1, Work(w, Insert));
      PairStep(cfg, s2, w);
      assert Do(cfg, s2, Work(w, Pair)).workers == s.workers;
    } else {
      Moves(cfg, s, w, Reserved(id, from), Acquire(false), Idle);
      assert At(s, w, Idle) == s;
      NotEnabled(cfg, s, w, Insert);
      NotEnabled(cfg, s, w, Pair);
    }
  }

  lemma DecideAbsent(cfg: Setup, s: Sys, w: nat, id: Id, from: Endpoint)
    requires WellFormed(cfg, s) && w < cfg.workers && s.workers[w].Idle? && id !in s.table
    ensures Decided(cfg, s, w, id, from)
      == if |s.table| < cfg.maxClients then At(s, w, Reserved(id, from)) else s
  {
    assert At(s, w, Idle) == s;
    Moves(cfg, s, w, Idle, Arrive(id, from), Arrived(id, from, s.clock));
    Moves(cfg, s, w, Arrived(id, from, s.clock), Lookup, Absent(id, from));
    NotEnabled(cfg, At(s, w, Absent(id, from)), w, Compare);
    var next := if |s.table| < cfg.maxClients then Reserved(id, from) else Idle;
    Moves(cfg, s, w, Absent(id, from), Count, next);
  }

  lemma LookupMatched(cfg: Setup, s: Sys, w: nat, id: Id, from: Endpoint)
    requires WellFormed(cfg, s) && w < cfg.workers && s.workers[w].Idle? && id in s.table
    ensures WellFormed(cfg, At(s, w, Matched(id, from, s.clock, s.table[id])))
    ensures Do(cfg, Do(cfg, s, Work(w, Arrive(id, from))), Work(w, Lookup))
      == At(s, w, Matched(id, from, s.clock, s.table[id]))
  {
    assert At(s, w, Idle) == s;
    Moves(cfg, s, w, Idle, Arrive(id, from), Arrived(id, from, s.clock));
    Moves(cfg, s, w, Arrived(id, from, s.clock), Lookup, Matched(id, from, s.clock, s.table[id]));
  }

  lemma DecideSameEndpoint(cfg: Setup, s: Sys, w: nat, id: Id, from: Endpoint)
    requires WellFormed(cfg, s) && w < cfg.workers && s.workers[w].Idle?
    requires id in s.table && s.heap[s.table[id]].endpoint == Some(from)
    ensures Decided(cfg, s, w, id, from)
      == s.(heap := s.heap[s.table[id] := s.heap[s.table[id]].(lastReceive := s.clock)])
  {
    LookupMatched(cfg, s, w, id, from);
    var s2 := At(s, w, Matched(id, from, s.clock, s.table[id]));
    RefreshStep(cfg, s2, w);
    var s3 := Do(cfg, s2, Work(w, Compare));
    assert s3.workers == s.workers;
    NotEnabled(cfg, s3, w, Count);
  }

  lemma CompareOther(cfg: Setup, s: Sys, w: nat, id: Id, from: Endpoint)
    requires WellFormed(cfg, s) && w < cfg.workers && id in s.table && s.heap[s.table[id]].endpoint != Some(from)
    requires WellFormed(cfg, At(s, w, Matched(id, from, s.clock, s.table[id])))
    ensures var pc := Matched(id, from, s.clock, s.table[id]);
      Do(cfg, At(s, w, pc), Work(w, Compare)) == At(s, w, NextPc(cfg, s, pc, Compare))
  {
    var pc := Matched(id, from, s.clock, s.table[id]);
    Moves(cfg, s, w, pc, Compare, NextPc(cfg, s, pc, Compare));
  }

  lemma CountIdles(cfg: Setup, s: Sys, w: nat, pc: Pc)
    requires WellFormed(cfg, s) && w < cfg.workers && WellFormed(cfg, At(s, w, pc)) && (pc.Reserved? || pc.Idle?)
    ensures Do(cfg, At(s, w, pc), Work(w, Count)) == At(s, w, pc)
  {
    NotEnabled(cfg, At(s, w, pc), w, Count);
  }

  lemma DecideOtherEndpoint(cfg: Setup, s: Sys, w: nat, id: Id, from: Endpoint)
    requires WellFormed(cfg, s) && w < cfg.workers && s.workers[w].Idle?
    requires id in s.table && s.heap[s.table[id]].endpoint != Some(from)
    ensures var c := s.heap[s.table[id]];
      Decided(cfg, s, w, id, from)
      == if c.endpoint.Some? && TimedOut(c, s.clock) then At(s, w, Reserved(id, from)) else s
  {
    LookupMatched(cfg, s, w, id, from);
    CompareOther(cfg, s, w, id, from);
    var pc := NextPc(cfg, s, Matched(id, from, s.clock, s.table[id]), Compare);
    CountIdles(cfg, s, w, pc);
    assert At(s, w, Idle) == s;
  }

  /** The tables after an uninterrupted packet, by the outcome of the sender check. */
  function Effect(s: Sys, id: Id, from: Endpoint, a: V3.Admission): Sys
    requires a.Refreshed? ==> id in s.table && s.table[id] < |s.heap|
  {
    if a.Refreshed? then s.(heap := s.heap[s.table[id] := s.heap[s.table[id]].(lastReceive := s.clock)])
    else if V3.Accepts(a) then
      s.(heap := s.heap + [Client(Some(from), s.clock)], table := s.table[id := |s.heap|],
         analyzers := s.analyzers + {id})
    else s
  }

  lemma EffectAbsent(cfg: Setup, s: Sys, w: nat, id: Id, from: Endpoint, allowed: bool)
    requires WellFormed(cfg, s) && w < cfg.workers && s.workers[w].Idle? && id !in s.table
    ensures Uninterrupted(cfg, s, w, id, from, allowed)
      == Effect(s, id, from, if |s.table| >= cfg.maxClients then V3.Full
                             else if allowed then V3.Registered else V3.ConnectLimited)
  {
    DecideAbsent(cfg, s, w, id, from);
    if |s.table| < cfg.maxClients {
      FinishReserved(cfg, s, w, id, from, allowed);
    } else {
      FinishIdle(cfg, s, w, allowed);
    }
  }

  lemma EffectSameEndpoint(cfg: Setup, s: Sys, w: nat, id: Id, from: Endpoint, allowed: bool)
    requires WellFormed(cfg, s) && w < cfg.workers && s.workers[w].Idle?
    requires id in s.table && s.heap[s.table[id]].endpoint == Some(from)
    ensures Uninterrupted(cfg, s, w, id, from, allowed) == Effect(s, id, from, V3.Refreshed)
  {
    DecideSameEndpoint(cfg, s, w, id, from);
    FinishIdle(cfg, Decided(cfg, s, w, id, from), w, allowed);
  }

  lemma EffectOtherEndpoint(cfg: Setup, s: Sys, w: nat, id: Id, from: Endpoint, allowed: bool)
    requires WellFormed(cfg, s) && w < cfg.workers && s.workers[w].Idle?
    requires id in s.table && s.heap[s.table[id]].endpoint != Some(from)
    ensures var c := s.heap[s.table[id]];
      Uninterrupted(cfg, s, w, id, from, allowed)
      == Effect(s, id, from, if c.endpoint.None? then V3.Unbound
                             else if !TimedOut(c, s.clock) then V3.Mismatch
                             else if allowed then V3.Rebound else V3.RebindLimited)
  {
    DecideOtherEndpoint(cfg, s, w, id, from);
    if Decided(cfg, s, w, id, from).workers[w].Idle? {
      FinishIdle(cfg, s, w, allowed);
    } else {
      FinishReserved(cfg, s, w, id, from, allowed);
    }
  }

  lemma ViewKeys(s: Sys)
    requires forall id :: id in s.table ==> s.table[id] < |s.heap|
    ensures View(s.table, s.heap).Keys == s.table.Keys && |View(s.table, s.heap)| == |s.table|
  {
  }

  lemma ViewPut(table: map<Id, nat>, heap: seq<Client>, id: Id, c: Client)
    requires forall k :: k in table ==> table[k] < |heap|
    ensures View(table[id := |heap|], heap + [c]) == View(table, heap)[id := c]
  {
  }

  lemma ViewRefresh(table: map<Id, nat>, heap: seq<Client>, id: Id, c: Client)
    requires forall k :: k in table ==> table[k] < |heap|
    requires forall a, b :: a in table && b in table && table[a] == table[b] ==> a == b
    requires id in table
    ensures View(table, heap[table[id] := c]) == View(table, heap)[id := c]
  {
  }

  lemma EffectIsAdmit(cfg: Setup, s: Sys, id: Id, from: Endpoint, a: V3.Admission)
    requires WellFormed(cfg, s) && (a.Refreshed? ==> id in s.table)
    ensures var s' := Effect(s, id, from, a);
      && (forall k :: k in s'.table ==> s'.table[k] < |s'.heap|)
      && View(s'.table, s'.heap) == V3.Admit(AbsState(s), id, from, s.clock, a).mappings
      && s'.analyzers == V3.Admit(AbsState(s), id, from, s.clock, a).analyzers
  {
    if a.Refreshed? {
      ViewRefresh(s.table, s.heap, id, s.heap[s.table[id]].(lastReceive := s.clock));
    } else {
      ViewPut(s.table, s.heap, id, Client(Some(from), s.clock));
    }
  }

  /** A worker nobody interrupts changes the two tables exactly as the atomic
      sender check does, and is idle again. */
  lemma UninterruptedIsAtomic(cfg: Setup, s: Sys, w: nat, id: Id, d: V3.Datagram, config: V3.Config)
    requires WellFormed(cfg, s) && w < cfg.workers && s.workers[w].Idle? && config.maxClients == cfg.maxClients
    ensures var s' := Uninterrupted(cfg, s, w, id, d.from, d.connectAllowed);
      var atomic := V3.Admit(AbsState(s), id, d.from, s.clock, V3.Decide(config, AbsState(s), id, d, s.clock));
      && View(s'.table, s'.heap) == atomic.mappings
      && s'.analyzers == atomic.analyzers
      && s'.workers == s.workers && s'.clock == s.clock
  {
    ViewKeys(s);
    if id !in s.table {
      EffectAbsent(cfg, s, w, id, d.from, d.connectAllowed);
    } else if s.heap[s.table[id]].endpoint == Some(d.from) {
      EffectSameEndpoint(cfg, s, w, id, d.from, d.connectAllowed);
    } else {
      EffectOtherEndpoint(cfg, s, w, id, d.from, d.connectAllowed);
    }
    EffectIsAdmit(cfg, s, id, d.from, V3.Decide(config, AbsState(s), id, d, s.clock));
  }

  /** One cleaner visiting `ids` in turn with nobody else moving. */
  ghost function Swept(cfg: Setup, s: Sys, ids: seq<Id>): (s': Sys)
    requires WellFormed(cfg, s)
    ensures WellFormed(cfg, s')
    decreases |ids|
  {
    if ids == [] then s else Do(cfg, Swept(cfg, s, ids[..|ids| - 1]), Sweep(ids[|ids| - 1]))
  }

  lemma {:induction false} SweptSoFar(cfg: Setup, s: Sys, ids: seq<Id>)
    requires WellFormed(cfg, s)
    ensures var s' := Swept(cfg, s, ids);
      && s'.heap == s.heap && s'.clock == s.clock && s'.workers == s.workers
      && (forall k :: k in s'.table <==> k in s.table && !(k in ids && TimedOut(s.heap[s.table[k]], s.clock)))
      && (forall k :: k in s'.table ==> s'.table[k] == s.table[k])
      && (forall k :: k in s'.analyzers <==> k in s.analyzers && (k in s.table ==> k in s'.table))
    decreases |ids|
  {
    if ids != [] {
      var n := |ids| - 1;
      SweptSoFar(cfg, s, ids[..n]);
      assert ids == ids[..n] + [ids[n]];
    }
  }

  lemma RetainedView(table: map<Id, nat>, left: map<Id, nat>, heap: seq<Client>, now: nat)
    requires forall k :: k in table ==> table[k] < |heap|
    requires forall k :: k in left <==> k in table && !TimedOut(heap[table[k]], now)
    requires forall k :: k in left ==> left[k] == table[k]
    ensures View(left, heap) == Retained(View(table, heap), now)
    ensures left.Keys == Retained(View(table, heap), now).Keys
  {
  }

  /** A cleaner that visits every key uninterrupted performs the atomic cleanup. */
  lemma SweepIsCleanup(cfg: Setup, s: Sys, ids: seq<Id>)
    requires WellFormed(cfg, s) && forall k :: k in s.table ==> k in ids
    ensures var s', atomic := Swept(cfg, s, ids), V3.Cleanup(AbsState(s), s.clock);
      View(s'.table, s'.heap) == atomic.mappings && s'.analyzers == atomic.analyzers
  {
    SweptSoFar(cfg, s, ids);
    var s' := Swept(cfg, s, ids);
    RetainedView(s.table, s'.table, s.heap, s.clock);
    ViewKeys(s);
  }
}
