/** The delta exporter. Each traffic counter is exported the same way and
    independently of the others: load the shared value, swap it into `last`,
    add the difference, floored at zero, to the exported counter. Any number of
    exports may run at once, each of the three accesses being one step. */
module Exporter {

  /** One counter: its shared value, the last value an export put aside, and
      the exported total. */
  class ExportedCounter {
    var shared: nat
    var last: nat
    var exported: nat

    constructor ()
      ensures shared == last == exported == 0
    {
      shared, last, exported := 0, 0, 0;
    }

    /** The whole export, uninterrupted. */
    method Update()
      modifies this
      ensures shared == old(shared) && last == shared
      ensures exported == old(exported) + Increment(old(last), shared)
      ensures old(exported) == old(last) <= shared ==> exported == last == shared
    {
      var sample := shared;
      var previous := last;
      last := sample;
      exported := exported + Increment(previous, sample);
    }
  }

  /** Saturating difference. */
  function Increment(previous: nat, sample: nat): nat {
    if sample >= previous then sample - previous else 0
  }

  datatype Export = Idle | Loaded(sample: nat) | Swapped(previous: nat, sample: nat)

  datatype Sys = Sys(shared: nat, last: nat, exported: nat, exports: seq<Export>)

  datatype Action = Count(n: nat) | Load(e: nat) | Swap(e: nat) | Inc(e: nat)

  function Init(exports: nat): Sys {
    Sys(0, 0, 0, seq(exports, _ => Idle))
  }

  function Do(s: Sys, a: Action): Sys {
    match a
    case Count(n) => s.(shared := s.shared + n)
    case Load(e) =>
      if Loads(s, a)
      then s.(exports := s.exports[e := Loaded(s.shared)]) else s
    case Swap(e) =>
      if Swaps(s, a)
      then s.(last := s.exports[e].sample, exports := s.exports[e := Swapped(s.last, s.exports[e].sample)]) else s
    case Inc(e) =>
      if e < |s.exports| && s.exports[e].Swapped?
      then s.(exported := s.exported + Increment(s.exports[e].previous, s.exports[e].sample),
              exports := s.exports[e := Idle]) else s
  }

  /** The system after any interleaving of steps. */
  function Run(exports: nat, acts: seq<Action>): Sys
    decreases |acts|
  {
    if acts == [] then Init(exports) else Do(Run(exports, acts[..|acts| - 1]), acts[|acts| - 1])
  }

  predicate Loads(s: Sys, a: Action) {
    a.Load? && a.e < |s.exports| && s.exports[a.e].Idle?
  }

  predicate Swaps(s: Sys, a: Action) {
    a.Swap? && a.e < |s.exports| && s.exports[a.e].Loaded?
  }

  /** How far a step moves `last` backwards; zero unless it is a swap. */
  function StepBack(s: Sys, a: Action): nat {
    if Swaps(s, a) then Increment(s.exports[a.e].sample, s.last) else 0
  }

  /** The sum over all swaps so far of how far they moved `last` backwards. */
  function Backwards(exports: nat, acts: seq<Action>): nat
    decreases |acts|
  {
    if acts == [] then 0
    else
      var before, a := acts[..|acts| - 1], acts[|acts| - 1];
      Backwards(exports, before) + StepBack(Run(exports, before), a)
  }

  /** The increment an export has still to add. */
  function Due(e: Export): nat {
    if e.Swapped? then Increment(e.previous, e.sample) else 0
  }

  /** Increments of all exports that have swapped but not yet added. */
  function InFlight(es: seq<Export>): nat {
    if es == [] then 0 else InFlight(es[..|es| - 1]) + Due(es[|es| - 1])
  }

  lemma {:induction false} InFlightUpdate(es: seq<Export>, i: nat, e: Export)
    requires i < |es|
    ensures InFlight(es[i := e]) == InFlight(es) - Due(es[i]) + Due(e)
  {
    var n := |es| - 1;
    if i == n {
      assert es[i := e][..n] == es[..n];
    } else {
      InFlightUpdate(es[..n], i, e);
      assert es[i := e][..n] == es[..n][i := e];
    }
  }

  lemma {:induction false} NothingInFlight(es: seq<Export>)
    requires forall i :: 0 <= i < |es| ==> !es[i].Swapped?
    ensures InFlight(es) == 0
  {
    if es != [] {
      NothingInFlight(es[..|es| - 1]);
    }
  }

  lemma StepIdentity(s: Sys, a: Action)
    ensures var s' := Do(s, a);
      s'.exported + InFlight(s'.exports) - s'.last == s.exported + InFlight(s.exports) - s.last + StepBack(s, a)
    ensures Do(s, a).exported + InFlight(Do(s, a).exports) >= s.exported + InFlight(s.exports)
  {
    if !a.Count? && a.e < |s.exports| {
      var s' := Do(s, a);
      InFlightUpdate(s.exports, a.e, s'.exports[a.e]);
      assert s'.exports == s.exports[a.e := s'.exports[a.e]];
    }
  }

  /** In every interleaving: exported plus in flight minus `last` is the sum of
      the backward moves of all swaps. */
  lemma {:induction false} Identity(exports: nat, acts: seq<Action>)
    ensures var s := Run(exports, acts);
      s.exported + InFlight(s.exports) - s.last == Backwards(exports, acts)
    decreases |acts|
  {
    if acts == [] {
      NothingInFlight(Init(exports).exports);
    } else {
      var before, a := acts[..|acts| - 1], acts[|acts| - 1];
      Identity(exports, before);
      StepIdentity(Run(exports, before), a);
    }
  }

  predicate Quiescent(s: Sys) {
    forall e :: 0 <= e < |s.exports| ==> s.exports[e].Idle?
  }

  /** The exported counter never decreases, step by step. */
  lemma StepMonotone(s: Sys, a: Action)
    ensures Do(s, a).exported >= s.exported
  {
  }

  lemma {:induction false} NeverDecreases(exports: nat, acts: seq<Action>, k: nat)
    requires k <= |acts|
    ensures var early, late := Run(exports, acts[..k]), Run(exports, acts);
      && late.exported >= early.exported
      && late.exported + InFlight(late.exports) >= early.exported + InFlight(early.exports)
    decreases |acts|
  {
    if k < |acts| {
      var before, a := acts[..|acts| - 1], acts[|acts| - 1];
      NeverDecreases(exports, before, k);
      assert before[..k] == acts[..k];
      StepIdentity(Run(exports, before), a);
      StepMonotone(Run(exports, before), a);
    } else {
      assert acts[..k] == acts;
    }
  }

  /** Once all exports are done, the exported counter is at least every value
      any swap ever sampled, and it is monotone at all times. */
  lemma CoversEverySample(exports: nat, acts: seq<Action>, k: nat)
    requires k < |acts| && Swaps(Run(exports, acts[..k]), acts[k])
    ensures var s := Run(exports, acts);
      && s.exported + InFlight(s.exports) >= Run(exports, acts[..k]).exports[acts[k].e].sample
      && (Quiescent(s) ==> s.exported >= Run(exports, acts[..k]).exports[acts[k].e].sample)
  {
    var s := Run(exports, acts);
    assert acts[..k + 1][..k] == acts[..k];
    Identity(exports, acts[..k + 1]);
    NeverDecreases(exports, acts, k + 1);
    if Quiescent(s) {
      NothingInFlight(s.exports);
    }
  }

  /** Action `k` does not move `last` backwards. */
  predicate ForwardAt(exports: nat, acts: seq<Action>, k: nat)
    requires k < |acts|
  {
    StepBack(Run(exports, acts[..k]), acts[k]) == 0
  }

  predicate NoSwapGoesBack(exports: nat, acts: seq<Action>) {
    forall k :: 0 <= k < |acts| ==> ForwardAt(exports, acts, k)
  }

  lemma ForwardPrefix(exports: nat, acts: seq<Action>, n: nat, k: nat)
    requires k < n <= |acts|
    ensures ForwardAt(exports, acts[..n], k) <==> ForwardAt(exports, acts, k)
  {
    assert acts[..n][..k] == acts[..k];
  }

  lemma {:induction false} BackwardsZero(exports: nat, acts: seq<Action>)
    ensures Backwards(exports, acts) == 0 <==> NoSwapGoesBack(exports, acts)
    decreases |acts|
  {
    if acts != [] {
      var n := |acts| - 1;
      BackwardsZero(exports, acts[..n]);
      forall k | 0 <= k < n ensures ForwardAt(exports, acts[..n], k) <==> ForwardAt(exports, acts, k) {
        ForwardPrefix(exports, acts, n, k);
      }
      assert Backwards(exports, acts) == 0 <==> Backwards(exports, acts[..n]) == 0 && ForwardAt(exports, acts, n);
    }
  }

  /** Once all exports are done, the exported counter equals the last sampled
      value exactly when no swap ever went backwards; otherwise it is too high. */
  lemma ExactWhenNoSwapGoesBack(exports: nat, acts: seq<Action>)
    requires Quiescent(Run(exports, acts))
    ensures Run(exports, acts).exported >= Run(exports, acts).last
    ensures Run(exports, acts).exported == Run(exports, acts).last <==> NoSwapGoesBack(exports, acts)
  {
    Identity(exports, acts);
    NothingInFlight(Run(exports, acts).exports);
    BackwardsZero(exports, acts);
  }

  // ---- Serial exports ----

  predicate LoadsAlone(exports: nat, acts: seq<Action>, k: nat)
    requires k < |acts|
  {
    Loads(Run(exports, acts[..k]), acts[k]) ==> Quiescent(Run(exports, acts[..k]))
  }

  /** An export only starts when no other is under way. */
  predicate Serial(exports: nat, acts: seq<Action>) {
    forall k :: 0 <= k < |acts| ==> LoadsAlone(exports, acts, k)
  }

  /** At most one export is under way, and nothing passed it. */
  predicate Alone(s: Sys) {
    && s.last <= s.shared
    && (forall e, f :: 0 <= e < f < |s.exports| ==> s.exports[e].Idle? || s.exports[f].Idle?)
    && (forall e :: 0 <= e < |s.exports| && s.exports[e].Loaded? ==> s.last <= s.exports[e].sample <= s.shared)
  }

  lemma SerialStep(s: Sys, a: Action)
    requires Alone(s) && (Loads(s, a) ==> Quiescent(s))
    ensures Alone(Do(s, a)) && StepBack(s, a) == 0
  {
  }

  lemma {:induction false} SerialStaysAlone(exports: nat, acts: seq<Action>)
    requires Serial(exports, acts)
    ensures Alone(Run(exports, acts)) && Backwards(exports, acts) == 0
    decreases |acts|
  {
    if acts != [] {
      var n := |acts| - 1;
      forall k | 0 <= k < n ensures LoadsAlone(exports, acts[..n], k) {
        assert acts[..n][..k] == acts[..k];
        assert LoadsAlone(exports, acts, k);
      }
      SerialStaysAlone(exports, acts[..n]);
      assert LoadsAlone(exports, acts, n);
      SerialStep(Run(exports, acts[..n]), acts[n]);
    }
  }

  /** With one export at a time the exported counter is exactly the last sample,
      never more than the shared counter. */
  lemma SerialIsExact(exports: nat, acts: seq<Action>)
    requires Serial(exports, acts)
    ensures var s := Run(exports, acts);
      s.exported + InFlight(s.exports) == s.last <= s.shared
  {
    SerialStaysAlone(exports, acts);
    Identity(exports, acts);
  }

  // ---- Two exports at once can count twice ----

  lemma RunThen(exports: nat, acts: seq<Action>, a: Action)
    ensures Run(exports, acts + [a]) == Do(Run(exports, acts), a)
  {
    assert (acts + [a])[..|acts|] == acts;
  }

  lemma Then(acts: seq<Action>, a: Action, s: Sys) returns (more: seq<Action>)
    requires FirstTwo(acts) && (a.Count? || a.e < 2) && Do(Run(2, acts), a) == s
    ensures FirstTwo(more) && Run(2, more) == s
  {
    more := acts + [a];
    RunThen(2, acts, a);
  }

  /** Only the first two exports are ever used. */
  predicate FirstTwo(acts: seq<Action>) {
    forall k :: 0 <= k < |acts| ==> acts[k].Count? || acts[k].e < 2
  }

  lemma SecondCompletes() returns (acts: seq<Action>)
    ensures FirstTwo(acts) && Run(2, acts) == Sys(5, 5, 5, [Loaded(0), Idle])
  {
    acts := [];
    assert Run(2, acts) == Sys(0, 0, 0, [Idle, Idle]);
    acts := Then(acts, Load(0), Sys(0, 0, 0, [Loaded(0), Idle]));
    acts := Then(acts, Count(5), Sys(5, 0, 0, [Loaded(0), Idle]));
    acts := Then(acts, Load(1), Sys(5, 0, 0, [Loaded(0), Loaded(5)]));
    acts := Then(acts, Swap(1), Sys(5, 5, 0, [Loaded(0), Swapped(0, 5)]));
    acts := Then(acts, Inc(1), Sys(5, 5, 5, [Loaded(0), Idle]));
  }

  /** One export sleeps between its load and its swap while another completes;
      the next export then exports the same five packets again. */
  lemma ConcurrentExportsOverCount() returns (acts: seq<Action>)
    ensures FirstTwo(acts) && Run(2, acts) == Sys(5, 5, 10, [Idle, Idle])
  {
    acts := SecondCompletes();
    acts := Then(acts, Swap(0), Sys(5, 0, 5, [Swapped(5, 0), Idle]));
    acts := Then(acts, Inc(0), Sys(5, 0, 5, [Idle, Idle]));
    acts := Then(acts, Load(0), Sys(5, 0, 5, [Loaded(5), Idle]));
    acts := Then(acts, Swap(0), Sys(5, 5, 5, [Swapped(0, 5), Idle]));
    acts := Then(acts, Inc(0), Sys(5, 5, 10, [Idle, Idle]));
  }

  // ---- One export is the exact limit ----

  /** `s`, a system of two exports, beside others that stay idle. */
  function Beside(exports: nat, s: Sys): Sys
    requires exports >= 2 && |s.exports| == 2
  {
    s.(exports := s.exports + seq(exports - 2, _ => Idle))
  }

  lemma DoBeside(exports: nat, s: Sys, a: Action)
    requires exports >= 2 && |s.exports| == 2 && (a.Count? || a.e < 2)
    ensures |Do(s, a).exports| == 2 && Do(Beside(exports, s), a) == Beside(exports, Do(s, a))
  {
    if !a.Count? {
      var after := Do(s, a).exports[a.e];
      assert Beside(exports, s).exports[a.e := after] == s.exports[a.e := after] + seq(exports - 2, _ => Idle);
    }
  }

  lemma {:induction false} RunBeside(exports: nat, acts: seq<Action>)
    requires exports >= 2 && FirstTwo(acts)
    ensures |Run(2, acts).exports| == 2 && Run(exports, acts) == Beside(exports, Run(2, acts))
    decreases |acts|
  {
    if acts == [] {
      assert Init(exports).exports == Init(2).exports + seq(exports - 2, _ => Idle);
    } else {
      var n := |acts| - 1;
      RunBeside(exports, acts[..n]);
      DoBeside(exports, Run(2, acts[..n]), acts[n]);
    }
  }

  lemma {:induction false} RunKeepsSlots(exports: nat, acts: seq<Action>)
    ensures |Run(exports, acts).exports| == exports
    decreases |acts|
  {
    if acts != [] {
      RunKeepsSlots(exports, acts[..|acts| - 1]);
    }
  }

  lemma OneIsSerial(exports: nat, acts: seq<Action>)
    requires exports <= 1
    ensures Serial(exports, acts)
  {
    forall k | 0 <= k < |acts| ensures LoadsAlone(exports, acts, k) {
      RunKeepsSlots(exports, acts[..k]);
    }
  }

  ghost predicate AlwaysExact(exports: nat) {
    forall acts :: Quiescent(Run(exports, acts)) ==> Run(exports, acts).exported == Run(exports, acts).last
  }

  /** The exported counter is exact whenever nothing is under way, in every
      interleaving, if and only if no two exports ever run at once. */
  lemma ExactForOneOnly(exports: nat)
    ensures AlwaysExact(exports) <==> exports <= 1
  {
    if exports <= 1 {
      forall acts | Quiescent(Run(exports, acts)) ensures Run(exports, acts).exported == Run(exports, acts).last {
        OneIsSerial(exports, acts);
        SerialIsExact(exports, acts);
        NothingInFlight(Run(exports, acts).exports);
      }
    } else {
      var acts := ConcurrentExportsOverCount();
      RunBeside(exports, acts);
      assert Quiescent(Run(exports, acts));
    }
  }
}
