/** Where the two models of the V2 relay meet: a worker, a handler or a cleaner
    that nobody interrupts does what the atomic step does. */
module TunnelV2Uninterrupted {
  import opened Net
  import opened Clients
  import opened TunnelV2Workers
  import V2 = TunnelV2Spec

  /** No two entries share a record, so that refreshing one leaves the others. */
  ghost predicate Separate(s: Sys) {
    && (forall id :: id in s.table ==> s.table[id] < |s.heap|)
    && forall a, b :: a in s.table && b in s.table && s.table[a] == s.table[b] ==> a == b
  }

  lemma ServeKeepsSeparate(s: Sys, hd: Handler, step: HandlerStep)
    requires Separate(s)
    ensures Separate(ServeShared(s, hd, step))
  {
  }

  lemma WorkKeepsSeparate(s: Sys, wk: Worker, step: WorkerStep)
    requires Separate(s) && ValidWorker(s, wk)
    ensures Separate(WorkShared(s, wk, step))
  {
  }

  lemma StepKeepsSeparate(cfg: Setup, s: Sys, a: Action)
    requires WellFormed(cfg, s) && Separate(s)
    ensures Separate(Do(cfg, s, a))
  {
    match a
    case Tick =>
    case Sweep(_) =>
    case Serve(h, step) => if h < cfg.handlers { ServeKeepsSeparate(s, s.handlers[h], step); }
    case Work(w, step) => if w < cfg.workers { WorkKeepsSeparate(s, s.workers[w], step); }
  }

  /** In every interleaving each record belongs to one slot at most. */
  lemma {:induction false} RunsStaySeparate(cfg: Setup, acts: seq<Action>)
    ensures Separate(Run(cfg, acts))
    decreases |acts|
  {
    if acts != [] {
      var before := acts[..|acts| - 1];
      RunsStaySeparate(cfg, before);
      StepKeepsSeparate(cfg, Run(cfg, before), acts[|acts| - 1]);
    }
  }

  /** The slot table as the atomic steps see it. */
  function View(table: map<I16, nat>, heap: seq<Client>): (m: map<I16, Client>)
    requires forall id :: id in table ==> table[id] < |heap|
    ensures m.Keys == table.Keys && |m| == |table|
  {
    var m := map id | id in table :: heap[table[id]];
    assert m.Keys == table.Keys;
    m
  }

  ghost function AbsState(s: Sys): V2.State
    requires Separate(s)
  {
    V2.Init().(mappings := View(s.table, s.heap))
  }

  lemma ViewPut(table: map<I16, nat>, heap: seq<Client>, id: I16, c: Client)
    requires forall k :: k in table ==> table[k] < |heap|
    ensures View(table[id := |heap|], heap + [c]) == View(table, heap)[id := c]
  {
  }

  lemma ViewRefresh(s: Sys, id: I16, c: Client)
    requires Separate(s) && id in s.table
    ensures View(s.table, s.heap[s.table[id] := c]) == View(s.table, s.heap)[id := c]
  {
  }

  // ---- A UDP packet ----

  function At(s: Sys, w: nat, wk: Worker): Sys
    requires w < |s.workers|
  {
    s.(workers := s.workers[w := wk])
  }

  /** The steps of worker `w` on one packet with nobody else moving. */
  ghost function PacketSteps(cfg: Setup, s: Sys, w: nat, id: I16, from: Endpoint): (s': Sys)
    requires WellFormed(cfg, s) && w < cfg.workers
    ensures WellFormed(cfg, s')
  {
    var looked := Do(cfg, Do(cfg, s, Work(w, Arrive(id, from))), Work(w, Lookup));
    Do(cfg, Do(cfg, looked, Work(w, Compare)), Work(w, Bind))
  }

  lemma LookedUp(cfg: Setup, s: Sys, w: nat, id: I16, from: Endpoint)
    requires WellFormed(cfg, s) && w < cfg.workers && s.workers[w].Idle?
    ensures Do(cfg, Do(cfg, s, Work(w, Arrive(id, from))), Work(w, Lookup))
      == At(s, w, if id in s.table then Holding(id, from, s.clock, s.table[id]) else Idle)
  {
    var s1 := Do(cfg, s, Work(w, Arrive(id, from)));
    assert s1 == At(s, w, Arrived(id, from, s.clock));
    var wk := if id in s.table then Holding(id, from, s.clock, s.table[id]) else Idle;
    assert s1.workers[w := wk] == s.workers[w := wk];
  }

  /** The shared tables after an uninterrupted packet. */
  ghost function Effect(s: Sys, id: I16, from: Endpoint, b: V2.Binding): Sys
    requires Separate(s) && (b.Refreshed? ==> id in s.table)
  {
    if b.Refreshed? then s.(heap := s.heap[s.table[id] := s.heap[s.table[id]].(lastReceive := s.clock)])
    else if V2.Accepts(b) then s.(heap := s.heap + [Client(Some(from), s.clock)], table := s.table[id := |s.heap|])
    else s
  }

  lemma PacketUnknown(cfg: Setup, s: Sys, w: nat, id: I16, from: Endpoint)
    requires WellFormed(cfg, s) && w < cfg.workers && s.workers[w].Idle? && id !in s.table
    ensures PacketSteps(cfg, s, w, id, from) == s
  {
    LookedUp(cfg, s, w, id, from);
    assert At(s, w, Idle) == s;
    assert Do(cfg, s, Work(w, Compare)) == s;
  }

  /** What a worker decides on the record it holds. */
  function Judged(c: Client, from: Endpoint, now: nat): V2.Binding {
    if c.endpoint.None? then V2.Bound
    else if c.endpoint == Some(from) then V2.Refreshed
    else if TimedOut(c, now) then V2.Rebound
    else V2.Mismatch
  }

  lemma JudgedIsDecided(s: Sys, id: I16, from: Endpoint)
    requires Separate(s) && id in s.table
    ensures V2.Decide(AbsState(s), id, from, s.clock) == Judged(s.heap[s.table[id]], from, s.clock)
  {
  }

  lemma PacketBinds(cfg: Setup, s: Sys, w: nat, id: I16, from: Endpoint, b: V2.Binding)
    requires WellFormed(cfg, s) && Separate(s) && w < cfg.workers && s.workers[w].Idle? && id in s.table
    requires b == Judged(s.heap[s.table[id]], from, s.clock) && (b.Bound? || b.Rebound?)
    ensures PacketSteps(cfg, s, w, id, from) == Effect(s, id, from, b)
  {
    LookedUp(cfg, s, w, id, from);
    var s2 := At(s, w, Holding(id, from, s.clock, s.table[id]));
    var s3 := At(s, w, Binding(id, Client(Some(from), s.clock)));
    assert Do(cfg, s2, Work(w, Compare)) == s3 by {
      assert Do(cfg, s2, Work(w, Compare)).workers == s3.workers;
    }
    assert Do(cfg, s3, Work(w, Bind)).workers == s.workers;
  }

  lemma PacketStays(cfg: Setup, s: Sys, w: nat, id: I16, from: Endpoint, b: V2.Binding)
    requires WellFormed(cfg, s) && Separate(s) && w < cfg.workers && s.workers[w].Idle? && id in s.table
    requires b == Judged(s.heap[s.table[id]], from, s.clock) && (b.Refreshed? || b.Mismatch?)
    ensures PacketSteps(cfg, s, w, id, from) == Effect(s, id, from, b)
  {
    LookedUp(cfg, s, w, id, from);
    var s2 := At(s, w, Holding(id, from, s.clock, s.table[id]));
    assert Do(cfg, s2, Work(w, Compare)).workers == s.workers;
  }

  lemma EffectIsBind(s: Sys, id: I16, from: Endpoint, b: V2.Binding)
    requires Separate(s) && (V2.Accepts(b) ==> id in s.table)
    ensures Separate(Effect(s, id, from, b))
    ensures AbsState(Effect(s, id, from, b)) == V2.Bind(AbsState(s), id, from, s.clock, b)
  {
    if b.Refreshed? {
      ViewRefresh(s, id, s.heap[s.table[id]].(lastReceive := s.clock));
    } else if V2.Accepts(b) {
      ViewPut(s.table, s.heap, id, Client(Some(from), s.clock));
    }
  }

  /** An uninterrupted worker binds or refreshes exactly as the atomic step does. */
  lemma PacketIsAtomic(cfg: Setup, s: Sys, w: nat, id: I16, from: Endpoint)
    requires WellFormed(cfg, s) && Separate(s) && w < cfg.workers && s.workers[w].Idle?
    ensures var s', b := PacketSteps(cfg, s, w, id, from), V2.Decide(AbsState(s), id, from, s.clock);
      && Separate(s')
      && AbsState(s') == V2.Bind(AbsState(s), id, from, s.clock, b)
      && s'.workers == s.workers && s'.handlers == s.handlers && s'.clock == s.clock
  {
    var b := V2.Decide(AbsState(s), id, from, s.clock);
    EffectIsBind(s, id, from, b);
    if id in s.table {
      JudgedIsDecided(s, id, from);
      if b.Bound? || b.Rebound? {
        PacketBinds(cfg, s, w, id, from, b);
      } else {
        PacketStays(cfg, s, w, id, from, b);
      }
    } else {
      PacketUnknown(cfg, s, w, id, from);
    }
  }

  /** `n` seconds pass. */
  ghost function Waiting(cfg: Setup, s: Sys, n: nat): (s': Sys)
    requires WellFormed(cfg, s)
    ensures WellFormed(cfg, s') && s' == s.(clock := s.clock + n)
  {
    if n == 0 then s else Do(cfg, Waiting(cfg, s, n - 1), Tick)
  }

  /** A worker that is held up for `n` seconds after a packet arrived still
      records the time of arrival, not of the refresh. */
  lemma LateRefresh(cfg: Setup, s: Sys, w: nat, id: I16, from: Endpoint, n: nat)
    requires WellFormed(cfg, s) && w < cfg.workers && s.workers[w].Idle?
    requires id in s.table && s.heap[s.table[id]].endpoint == Some(from)
    ensures var waited := Waiting(cfg, Do(cfg, s, Work(w, Arrive(id, from))), n);
      var s' := Do(cfg, Do(cfg, waited, Work(w, Lookup)), Work(w, Compare));
      && s'.clock == s.clock + n && s'.table == s.table
      && s'.heap == s.heap[s.table[id] := Client(Some(from), s.clock)]
  {
    var waited := Waiting(cfg, Do(cfg, s, Work(w, Arrive(id, from))), n);
    var looked := Do(cfg, waited, Work(w, Lookup));
    assert looked.workers[w] == Holding(id, from, s.clock, s.table[id]);
  }

  // ---- A slot request ----

  /** `step` applied `n` times, with the number of the time. */
  ghost function Iterate(step: (nat, Sys) -> Sys, s: Sys, n: nat): Sys {
    if n == 0 then s else step(n - 1, Iterate(step, s, n - 1))
  }

  lemma {:induction false} IterateKeeps(step: (nat, Sys) -> Sys, inv: (nat, Sys) -> bool, s: Sys, n: nat)
    requires inv(0, s)
    requires forall k: nat, x :: k < n && inv(k, x) ==> inv(k + 1, step(k, x))
    ensures inv(n, Iterate(step, s, n))
  {
    if n > 0 {
      IterateKeeps(step, inv, s, n - 1);
    }
  }

  lemma {:induction false} IterateRests(step: (nat, Sys) -> Sys, s: Sys, n: nat)
    requires forall k: nat :: k < n ==> step(k, s) == s
    ensures Iterate(step, s, n) == s
  {
    if n > 0 {
      IterateRests(step, s, n - 1);
    }
  }

  /** One draw by handler `h`, with its insert if it has one. */
  ghost function OneDraw(cfg: Setup, s: Sys, h: nat, d: I16): (s': Sys)
    requires WellFormed(cfg, s) && h < cfg.handlers
    ensures WellFormed(cfg, s')
  {
    Do(cfg, Do(cfg, s, Serve(h, Draw(d))), Serve(h, Put))
  }

  ghost function DrawStep(cfg: Setup, h: nat, draws: seq<I16>, k: nat, s: Sys): Sys {
    if WellFormed(cfg, s) && h < cfg.handlers && k < |draws| then OneDraw(cfg, s, h, draws[k]) else s
  }

  ghost function Drawing(cfg: Setup, s: Sys, h: nat, draws: seq<I16>, n: nat): Sys {
    Iterate((k: nat, x: Sys) => DrawStep(cfg, h, draws, k, x), s, n)
  }

  ghost function ServeStep(cfg: Setup, h: nat, step: HandlerStep, s: Sys): Sys {
    if WellFormed(cfg, s) && h < cfg.handlers then Do(cfg, s, Serve(h, step)) else s
  }

  ghost function TakingBack(cfg: Setup, s: Sys, h: nat, n: nat): Sys {
    Iterate((_: nat, x: Sys) => ServeStep(cfg, h, TakeBack, x), s, n)
  }

  /** All steps of a request with nobody else moving. */
  ghost function RequestSteps(cfg: Setup, s: Sys, h: nat, clients: nat, draws: seq<I16>): Sys {
    var drawn := Drawing(cfg, ServeStep(cfg, h, Check(clients), s), h, draws, V2.MAX_ATTEMPTS);
    TakingBack(cfg, ServeStep(cfg, h, Exit, drawn), h, V2.MAX_REQUEST)
  }

  function Taken(draws: seq<I16>, n: nat, taken: set<I16>, clients: nat): (ids: seq<I16>)
    requires n <= |draws|
    ensures |ids| <= clients
  {
    var all := V2.Fresh(draws, n, taken);
    if |all| < clients then all else all[..clients]
  }

  /** The table reads `m`, entry by entry. */
  ghost predicate Shows(s: Sys, m: map<I16, Client>) {
    && s.table.Keys == m.Keys
    && forall k :: k in s.table ==> s.table[k] < |s.heap| && s.heap[s.table[k]] == m[k]
  }

  lemma ShownIsView(s: Sys, m: map<I16, Client>)
    requires forall id :: id in s.table ==> s.table[id] < |s.heap|
    ensures Shows(s, m) <==> View(s.table, s.heap) == m
  {
    var v := View(s.table, s.heap);
    if Shows(s, m) {
      assert v.Keys == m.Keys;
      assert forall k :: k in v ==> v[k] == m[k];
    }
  }

  /** `s'` is `s` with handler `h` at `hd` and the table reading `m`. */
  ghost predicate Reads(s: Sys, s': Sys, h: nat, hd: Handler, m: map<I16, Client>)
    requires h < |s.handlers|
  {
    && Shows(s', m)
    && s'.handlers == s.handlers[h := hd]
    && s'.workers == s.workers && s'.clock == s.clock
  }

  lemma ReadsOn(s: Sys, mid: Sys, s': Sys, h: nat, hd: Handler, hd': Handler, m: map<I16, Client>)
    requires h < |s.handlers| && Reads(s, mid, h, hd, m)
    requires s' == mid.(handlers := mid.handlers[h := hd'])
    ensures Reads(s, s', h, hd', m)
  {
    assert s.handlers[h := hd][h := hd'] == s.handlers[h := hd'];
  }

  lemma PutReads(s: Sys, mid: Sys, s': Sys, h: nat, hd: Handler, hd': Handler, m: map<I16, Client>, id: I16, c: Client)
    requires h < |s.handlers| && Reads(s, mid, h, hd, m)
    requires s' == mid.(heap := mid.heap + [c], table := mid.table[id := |mid.heap|],
                        handlers := mid.handlers[h := hd'])
    ensures Reads(s, s', h, hd', m[id := c])
  {
    assert s.handlers[h := hd][h := hd'] == s.handlers[h := hd'];
  }

  lemma RemoveReads(s: Sys, mid: Sys, s': Sys, h: nat, hd: Handler, hd': Handler, m: map<I16, Client>, id: I16)
    requires h < |s.handlers| && Reads(s, mid, h, hd, m)
    requires s' == mid.(table := mid.table - {id}, handlers := mid.handlers[h := hd'])
    ensures Reads(s, s', h, hd', m - {id})
  {
    assert s.handlers[h := hd][h := hd'] == s.handlers[h := hd'];
  }

  lemma DrawHit(cfg: Setup, s: Sys, mid: Sys, h: nat, clients: nat, ids: seq<I16>, attempts: nat, d: I16,
                m: map<I16, Client>)
    requires WellFormed(cfg, mid) && h < cfg.handlers == |s.handlers|
    requires Reads(s, mid, h, Allocating(clients, ids, attempts), m)
    requires |ids| < clients && attempts < V2.MAX_ATTEMPTS && d != 0 && d !in m
    ensures Reads(s, OneDraw(cfg, mid, h, d), h,
                  Allocating(clients, ids + [d], attempts + 1), m[d := Client(None, s.clock)])
  {
    var c := Client(None, s.clock);
    var drawn, put := Drawn(clients, ids, attempts + 1, d, c), Allocating(clients, ids + [d], attempts + 1);
    var s1 := Do(cfg, mid, Serve(h, Draw(d)));
    ReadsOn(s, mid, s1, h, mid.handlers[h], drawn, m);
    PutReads(s, s1, Do(cfg, s1, Serve(h, Put)), h, drawn, put, m, d, c);
  }

  lemma DrawMiss(cfg: Setup, s: Sys, mid: Sys, h: nat, clients: nat, ids: seq<I16>, attempts: nat, d: I16,
                 m: map<I16, Client>)
    requires WellFormed(cfg, mid) && h < cfg.handlers == |s.handlers|
    requires Reads(s, mid, h, Allocating(clients, ids, attempts), m)
    requires d == 0 || d in m || |ids| >= clients || attempts >= V2.MAX_ATTEMPTS
    ensures Reads(s, OneDraw(cfg, mid, h, d), h,
                  Allocating(clients, ids,
                             if |ids| < clients && attempts < V2.MAX_ATTEMPTS then attempts + 1 else attempts), m)
  {
    var s1 := Do(cfg, mid, Serve(h, Draw(d)));
    var hd := s1.handlers[h];
    ReadsOn(s, mid, s1, h, mid.handlers[h], hd, m);
    ReadsOn(s, s1, Do(cfg, s1, Serve(h, Put)), h, hd, hd, m);
  }

  /** The ids of a handler with `ids` after a draw of `d`. */
  function WithDraw(ids: seq<I16>, d: I16, taken: set<I16>, clients: nat): seq<I16> {
    if |ids| < clients && d != 0 && d !in taken && d !in ids then ids + [d] else ids
  }

  lemma DrawOne(cfg: Setup, s: Sys, mid: Sys, h: nat, clients: nat, ids: seq<I16>, attempts: nat, d: I16,
                before: map<I16, Client>, ids': seq<I16>)
    returns (attempts': nat)
    requires WellFormed(cfg, mid) && h < cfg.handlers == |s.handlers|
    requires Reads(s, mid, h, Allocating(clients, ids, attempts), V2.WithSlots(before, ids, s.clock))
    requires ids' == WithDraw(ids, d, before.Keys, clients) && (|ids| < clients ==> attempts < V2.MAX_ATTEMPTS)
    ensures Reads(s, OneDraw(cfg, mid, h, d), h, Allocating(clients, ids', attempts'),
                  V2.WithSlots(before, ids', s.clock))
    ensures attempts' == if |ids| < clients then attempts + 1 else attempts
  {
    var m := V2.WithSlots(before, ids, s.clock);
    if |ids| < clients && d != 0 && d !in m {
      DrawHit(cfg, s, mid, h, clients, ids, attempts, d, m);
      V2.WithSlotsAppend(before, ids, s.clock, d);
      attempts' := attempts + 1;
    } else {
      DrawMiss(cfg, s, mid, h, clients, ids, attempts, d, m);
      attempts' := if |ids| < clients then attempts + 1 else attempts;
    }
  }

  /** How the ids taken follow from those taken one draw earlier. */
  lemma TakenOneMore(draws: seq<I16>, n: nat, taken: set<I16>, clients: nat)
    requires n < |draws|
    ensures Taken(draws, n + 1, taken, clients) == WithDraw(Taken(draws, n, taken, clients), draws[n], taken, clients)
  {
  }

  /** After `n` draws, starting from a handler just past its check; `got(n)`
      stands for the ids taken by then. */
  ghost predicate DrawnSoFar(cfg: Setup, s: Sys, h: nat, clients: nat, got: nat -> seq<I16>,
                             before: map<I16, Client>, n: nat, x: Sys)
  {
    && WellFormed(cfg, x) && h < cfg.handlers == |s.handlers|
    && x.handlers[h].Allocating?
    && DrawnBy(s, h, clients, got(n), before, n, x, x.handlers[h].attempts)
  }

  ghost predicate DrawnBy(s: Sys, h: nat, clients: nat, ids: seq<I16>, before: map<I16, Client>,
                          n: nat, x: Sys, attempts: nat)
    requires h < |s.handlers|
  {
    && Reads(s, x, h, Allocating(clients, ids, attempts), V2.WithSlots(before, ids, s.clock))
    && attempts <= n && (|ids| < clients ==> attempts == n)
  }

  lemma DrawnOneMore(cfg: Setup, s: Sys, h: nat, clients: nat, draws: seq<I16>, got: nat -> seq<I16>,
                     before: map<I16, Client>, n: nat, x: Sys)
    requires DrawnSoFar(cfg, s, h, clients, got, before, n, x) && n < V2.MAX_ATTEMPTS <= |draws|
    requires got(n + 1) == WithDraw(got(n), draws[n], before.Keys, clients)
    ensures DrawnSoFar(cfg, s, h, clients, got, before, n + 1, DrawStep(cfg, h, draws, n, x))
  {
    var attempts := DrawOne(cfg, s, x, h, clients, got(n), x.handlers[h].attempts, draws[n], before, got(n + 1));
  }

  lemma DrawnAll(cfg: Setup, s: Sys, s1: Sys, h: nat, clients: nat, draws: seq<I16>, got: nat -> seq<I16>,
                 before: map<I16, Client>)
    requires V2.MAX_ATTEMPTS <= |draws| && DrawnSoFar(cfg, s, h, clients, got, before, 0, s1)
    requires forall n :: 0 <= n < V2.MAX_ATTEMPTS ==> got(n + 1) == WithDraw(got(n), draws[n], before.Keys, clients)
    ensures DrawnSoFar(cfg, s, h, clients, got, before, V2.MAX_ATTEMPTS, Drawing(cfg, s1, h, draws, V2.MAX_ATTEMPTS))
  {
    var step := (k: nat, x: Sys) => DrawStep(cfg, h, draws, k, x);
    var inv := (k: nat, x: Sys) => DrawnSoFar(cfg, s, h, clients, got, before, k, x);
    forall k: nat, x | k < V2.MAX_ATTEMPTS && inv(k, x) ensures inv(k + 1, step(k, x)) {
      DrawnOneMore(cfg, s, h, clients, draws, got, before, k, x);
    }
    IterateKeeps(step, inv, s1, V2.MAX_ATTEMPTS);
  }

  lemma NoSlots(m: map<I16, Client>, now: nat)
    ensures V2.WithSlots(m, [], now) == m
  {
  }

  lemma TakeOneBack(cfg: Setup, s: Sys, mid: Sys, h: nat, ids: seq<I16>, m: map<I16, Client>)
    requires WellFormed(cfg, mid) && h < cfg.handlers == |s.handlers| && ids != []
    requires Reads(s, mid, h, RollingBack(ids), m)
    ensures Reads(s, Do(cfg, mid, Serve(h, TakeBack)), h, RollingBack(ids[1..]), m - {ids[0]})
  {
    RemoveReads(s, mid, Do(cfg, mid, Serve(h, TakeBack)), h, RollingBack(ids), RollingBack(ids[1..]), m, ids[0]);
  }

  /** After `n` steps of the rollback: one for each id, and one that frees the handler. */
  ghost predicate TakenBackSoFar(cfg: Setup, s: Sys, h: nat, ids: seq<I16>, before: map<I16, Client>, n: nat, x: Sys) {
    && WellFormed(cfg, x) && h < cfg.handlers == |s.handlers|
    && if n <= |ids| then Reads(s, x, h, RollingBack(ids[n..]), V2.WithSlots(before, ids[n..], s.clock))
       else Reads(s, x, h, Free, before)
  }

  lemma TakenOneMoreBack(cfg: Setup, s: Sys, h: nat, ids: seq<I16>, before: map<I16, Client>, n: nat, x: Sys)
    requires TakenBackSoFar(cfg, s, h, ids, before, n, x)
    requires V2.Distinct(ids) && forall id :: id in ids ==> id !in before
    ensures TakenBackSoFar(cfg, s, h, ids, before, n + 1, ServeStep(cfg, h, TakeBack, x))
  {
    if n < |ids| {
      assert ids[n..][1..] == ids[n + 1..];
      V2.WithoutFirst(before, ids, n, s.clock);
      TakeOneBack(cfg, s, x, h, ids[n..], V2.WithSlots(before, ids[n..], s.clock));
    } else {
      NoSlots(before, s.clock);
      ReadsOn(s, x, Do(cfg, x, Serve(h, TakeBack)), h, x.handlers[h], Free, before);
    }
  }

  lemma TakenBackAll(cfg: Setup, s: Sys, mid: Sys, h: nat, ids: seq<I16>, before: map<I16, Client>)
    requires |ids| < V2.MAX_REQUEST && TakenBackSoFar(cfg, s, h, ids, before, 0, mid)
    requires V2.Distinct(ids) && forall id :: id in ids ==> id !in before
    ensures TakenBackSoFar(cfg, s, h, ids, before, V2.MAX_REQUEST, TakingBack(cfg, mid, h, V2.MAX_REQUEST))
  {
    var step := (_: nat, x: Sys) => ServeStep(cfg, h, TakeBack, x);
    var inv := (k: nat, x: Sys) => TakenBackSoFar(cfg, s, h, ids, before, k, x);
    forall k: nat, x | k < V2.MAX_REQUEST && inv(k, x) ensures inv(k + 1, step(k, x)) {
      TakenOneMoreBack(cfg, s, h, ids, before, k, x);
    }
    IterateKeeps(step, inv, mid, V2.MAX_REQUEST);
  }

  lemma FreeRests(cfg: Setup, s: Sys, h: nat, step: HandlerStep)
    requires WellFormed(cfg, s) && h < cfg.handlers && s.handlers[h].Free? && !step.Check?
    ensures Do(cfg, s, Serve(h, step)) == s
  {
  }

  lemma FreeDrawsNothing(cfg: Setup, s: Sys, h: nat, draws: seq<I16>, n: nat)
    requires WellFormed(cfg, s) && h < cfg.handlers && s.handlers[h].Free? && n <= |draws|
    ensures Drawing(cfg, s, h, draws, n) == s
  {
    forall k: nat | k < n ensures DrawStep(cfg, h, draws, k, s) == s {
      FreeRests(cfg, s, h, Draw(draws[k]));
      FreeRests(cfg, s, h, Put);
    }
    IterateRests((k: nat, x: Sys) => DrawStep(cfg, h, draws, k, x), s, n);
  }

  lemma FreeTakesNothingBack(cfg: Setup, s: Sys, h: nat, n: nat)
    requires WellFormed(cfg, s) && h < cfg.handlers && s.handlers[h].Free?
    ensures TakingBack(cfg, s, h, n) == s
  {
    FreeRests(cfg, s, h, TakeBack);
    IterateRests((_: nat, x: Sys) => ServeStep(cfg, h, TakeBack, x), s, n);
  }

  lemma RequestRefused(cfg: Setup, s: Sys, h: nat, clients: nat, draws: seq<I16>)
    requires WellFormed(cfg, s) && h < cfg.handlers && s.handlers[h].Free? && |draws| >= V2.MAX_ATTEMPTS
    requires !(V2.MIN_REQUEST <= clients <= V2.MAX_REQUEST && |s.table| + clients <= cfg.maxClients)
    ensures RequestSteps(cfg, s, h, clients, draws) == s
  {
    assert Do(cfg, s, Serve(h, Check(clients))) == s;
    FreeDrawsNothing(cfg, s, h, draws, V2.MAX_ATTEMPTS);
    FreeRests(cfg, s, h, Exit);
    FreeTakesNothingBack(cfg, s, h, V2.MAX_REQUEST);
  }

  lemma ExitReads(cfg: Setup, s: Sys, mid: Sys, h: nat, clients: nat, ids: seq<I16>, attempts: nat, m: map<I16, Client>)
    requires WellFormed(cfg, mid) && h < cfg.handlers == |s.handlers|
    requires Reads(s, mid, h, Allocating(clients, ids, attempts), m)
    requires |ids| <= clients && (|ids| < clients ==> attempts == V2.MAX_ATTEMPTS)
    ensures Reads(s, Do(cfg, mid, Serve(h, Exit)), h, if |ids| == clients then Free else RollingBack(ids), m)
  {
    var left := if |ids| == clients then Free else RollingBack(ids);
    ReadsOn(s, mid, Do(cfg, mid, Serve(h, Exit)), h, mid.handlers[h], left, m);
  }

  lemma CheckReads(cfg: Setup, s: Sys, h: nat, clients: nat, before: map<I16, Client>)
    requires WellFormed(cfg, s) && Shows(s, before) && h < cfg.handlers && s.handlers[h].Free?
    requires V2.MIN_REQUEST <= clients <= V2.MAX_REQUEST && |s.table| + clients <= cfg.maxClients
    ensures Reads(s, Do(cfg, s, Serve(h, Check(clients))), h, Allocating(clients, [], 0), before)
  {
    assert s.handlers[h := s.handlers[h]] == s.handlers;
    ReadsOn(s, s, Do(cfg, s, Serve(h, Check(clients))), h, s.handlers[h], Allocating(clients, [], 0), before);
  }

  /** From the drawing on. */
  lemma ServedFrom(cfg: Setup, s: Sys, drawn: Sys, h: nat, clients: nat, ids: seq<I16>, attempts: nat,
                   before: map<I16, Client>)
    requires WellFormed(cfg, drawn) && h < cfg.handlers == |s.handlers| && |ids| <= clients <= V2.MAX_REQUEST
    requires DrawnBy(s, h, clients, ids, before, V2.MAX_ATTEMPTS, drawn, attempts)
    requires V2.Distinct(ids) && forall id :: id in ids ==> id !in before
    ensures Reads(s, TakingBack(cfg, ServeStep(cfg, h, Exit, drawn), h, V2.MAX_REQUEST), h, Free,
                  if |ids| < clients then before else V2.WithSlots(before, ids, s.clock))
  {
    ExitReads(cfg, s, drawn, h, clients, ids, attempts, V2.WithSlots(before, ids, s.clock));
    var out := Do(cfg, drawn, Serve(h, Exit));
    if |ids| < clients {
      assert ids[0..] == ids;
      TakenBackAll(cfg, s, out, h, ids, before);
    } else {
      FreeTakesNothingBack(cfg, out, h, V2.MAX_REQUEST);
    }
  }

  lemma DrawnFor(cfg: Setup, s: Sys, s1: Sys, h: nat, clients: nat, draws: seq<I16>, before: map<I16, Client>)
    returns (attempts: nat)
    requires WellFormed(cfg, s1) && h < cfg.handlers == |s.handlers| && V2.MAX_ATTEMPTS <= |draws|
    requires Reads(s, s1, h, Allocating(clients, [], 0), before)
    ensures var drawn := Drawing(cfg, s1, h, draws, V2.MAX_ATTEMPTS);
      && WellFormed(cfg, drawn)
      && DrawnBy(s, h, clients, Taken(draws, V2.MAX_ATTEMPTS, before.Keys, clients), before,
                 V2.MAX_ATTEMPTS, drawn, attempts)
  {
    var got := (n: nat) => if n <= |draws| then Taken(draws, n, before.Keys, clients) else [];
    forall n | 0 <= n < V2.MAX_ATTEMPTS ensures got(n + 1) == WithDraw(got(n), draws[n], before.Keys, clients) {
      TakenOneMore(draws, n, before.Keys, clients);
    }
    NoSlots(before, s.clock);
    assert got(0) == [];
    DrawnAll(cfg, s, s1, h, clients, draws, got, before);
    attempts := Drawing(cfg, s1, h, draws, V2.MAX_ATTEMPTS).handlers[h].attempts;
  }

  lemma RequestServed(cfg: Setup, s: Sys, h: nat, clients: nat, draws: seq<I16>, before: map<I16, Client>)
    requires WellFormed(cfg, s) && h < cfg.handlers && s.handlers[h].Free? && |draws| >= V2.MAX_ATTEMPTS
    requires Shows(s, before)
    requires V2.MIN_REQUEST <= clients <= V2.MAX_REQUEST && |s.table| + clients <= cfg.maxClients
    ensures var ids := Taken(draws, V2.MAX_ATTEMPTS, before.Keys, clients);
      Reads(s, RequestSteps(cfg, s, h, clients, draws), h, Free,
            if |ids| < clients then before else V2.WithSlots(before, ids, s.clock))
  {
    var s1 := Do(cfg, s, Serve(h, Check(clients)));
    CheckReads(cfg, s, h, clients, before);
    var attempts := DrawnFor(cfg, s, s1, h, clients, draws, before);
    V2.FreshHolds(draws, V2.MAX_ATTEMPTS, before.Keys);
    ServedFrom(cfg, s, Drawing(cfg, s1, h, draws, V2.MAX_ATTEMPTS), h, clients,
               Taken(draws, V2.MAX_ATTEMPTS, before.Keys, clients), attempts, before);
  }

  lemma RequestReads(cfg: Setup, s: Sys, h: nat, clients: nat, draws: seq<I16>, config: V2.Config, state: V2.State)
    requires WellFormed(cfg, s) && h < cfg.handlers && s.handlers[h].Free? && |draws| >= V2.MAX_ATTEMPTS
    requires config.maxClients == cfg.maxClients && !state.maintenance
    requires Shows(s, state.mappings) && |state.mappings| == |s.table|
    ensures Reads(s, RequestSteps(cfg, s, h, clients, draws), h, Free,
                  V2.Request(config, state, s.clock, clients, draws).0.mappings)
  {
    if V2.MIN_REQUEST <= clients <= V2.MAX_REQUEST && |s.table| + clients <= cfg.maxClients {
      RequestServed(cfg, s, h, clients, draws, state.mappings);
    } else {
      RequestRefused(cfg, s, h, clients, draws);
      assert s.handlers[h := Free] == s.handlers;
    }
  }

  /** An uninterrupted handler leaves the table exactly as the atomic request
      does, whether it grants, refuses, or draws in vain and rolls back. */
  lemma RequestIsAtomic(cfg: Setup, s: Sys, h: nat, clients: nat, draws: seq<I16>, config: V2.Config)
    requires WellFormed(cfg, s) && Separate(s) && h < cfg.handlers && s.handlers[h].Free? && |draws| >= V2.MAX_ATTEMPTS
    requires config.maxClients == cfg.maxClients
    ensures var s' := RequestSteps(cfg, s, h, clients, draws);
      && Shows(s', V2.Request(config, AbsState(s), s.clock, clients, draws).0.mappings)
      && s'.handlers == s.handlers && s'.workers == s.workers && s'.clock == s.clock
  {
    ShownIsView(s, View(s.table, s.heap));
    RequestReads(cfg, s, h, clients, draws, config, AbsState(s));
    assert s.handlers[h := Free] == s.handlers;
  }

  // ---- Cleanup ----

  /** One cleaner visiting `ids` in turn with nobody else moving. */
  ghost function Swept(cfg: Setup, s: Sys, ids: seq<I16>): (s': Sys)
    requires WellFormed(cfg, s)
    ensures WellFormed(cfg, s')
    decreases |ids|
  {
    if ids == [] then s else Do(cfg, Swept(cfg, s, ids[..|ids| - 1]), Sweep(ids[|ids| - 1]))
  }

  lemma {:induction false} SweptSoFar(cfg: Setup, s: Sys, ids: seq<I16>)
    requires WellFormed(cfg, s)
    ensures var s' := Swept(cfg, s, ids);
      && s' == s.(table := s'.table)
      && (forall k :: k in s'.table <==> k in s.table && !(k in ids && TimedOut(s.heap[s.table[k]], s.clock)))
      && (forall k :: k in s'.table ==> s'.table[k] == s.table[k])
    decreases |ids|
  {
    if ids != [] {
      var n := |ids| - 1;
      SweptSoFar(cfg, s, ids[..n]);
      assert ids == ids[..n] + [ids[n]];
    }
  }

  lemma RetainedView(table: map<I16, nat>, left: map<I16, nat>, heap: seq<Client>, now: nat)
    requires forall k :: k in table ==> table[k] < |heap|
    requires forall k :: k in left <==> k in table && !TimedOut(heap[table[k]], now)
    requires forall k :: k in left ==> left[k] == table[k]
    ensures View(left, heap) == Retained(View(table, heap), now)
  {
  }

  /** A cleaner that visits every slot uninterrupted performs the atomic cleanup. */
  lemma SweepIsCleanup(cfg: Setup, s: Sys, ids: seq<I16>)
    requires WellFormed(cfg, s) && Separate(s) && forall k :: k in s.table ==> k in ids
    ensures var s' := Swept(cfg, s, ids);
      Separate(s') && View(s'.table, s'.heap) == V2.Cleanup(AbsState(s), s.clock).mappings
  {
    SweptSoFar(cfg, s, ids);
    RetainedView(s.table, Swept(cfg, s, ids).table, s.heap, s.clock);
  }
}
