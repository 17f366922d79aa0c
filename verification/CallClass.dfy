/** Which registers intervals over calls end up in (src/codegen/asm/RegisterAllocator.h:163-170): a steal does not look
    at the call class of the interval that it serves. */
module CallClass {
  import opened Registers
  import opened RegAlloc

  /** Every interval in a register is in one of its own save class. */
  ghost predicate ClassKept(s: ScanState) { KeptIn(s.ti, s.done, s.alloc) }

  ghost predicate KeptIn(ti: TargetInfo, done: set<LiveInterval>, alloc: map<Reg, Reg>) {
    forall i :: i in done && i.reg in alloc && IsPhysical(alloc[i.reg]) ==> InClass(ti, alloc[i.reg], i.usedAcrossCall)
  }

  /** The step takes a register from an interval of the other call class. */
  predicate Crosses(step: Step) { step.Evict? && step.x.usedAcrossCall != step.li.usedAcrossCall }

  /** No register is both caller- and callee-saved. */
  predicate ClassesApart(ti: TargetInfo) { ti.callerSaved !! ti.calleeSaved }

  lemma StolenClass(ti: TargetInfo, done: set<LiveInterval>, alloc: map<Reg, Reg>, slots: nat, li: LiveInterval, x: LiveInterval)
    requires ClassesApart(ti) && KeptIn(ti, done, alloc) && slots < 0x4000_0000
    requires x in done && li !in done && x.reg in alloc && IsPhysical(alloc[x.reg]) && li.reg != x.reg
    requires forall i :: i in done ==> i.reg != li.reg && (i.reg == x.reg ==> i == x)
    ensures KeptIn(ti, done + {li}, Spill(alloc, slots, li, x)) <==> x.usedAcrossCall == li.usedAcrossCall
  {
    var alloc' := Spill(alloc, slots, li, x);
    assert li in done + {li} && alloc'[li.reg] == alloc[x.reg];
    assert InClass(ti, alloc[x.reg], x.usedAcrossCall);
  }

  /** A steal keeps save classes if and only if it is between intervals of one call class. */
  lemma StealKeepsClass(s: ScanState, li: LiveInterval, x: LiveInterval)
    requires Inv(s) && Enabled(s, Evict(li, x)) && ClassKept(s) && x != li && ClassesApart(s.ti)
    ensures ClassKept(Apply(s, Evict(li, x))) <==> x.usedAcrossCall == li.usedAcrossCall
  {
    StolenClass(s.ti, s.done, s.alloc, s.slots, li, x);
  }

  lemma StepKeepsClass(s: ScanState, step: Step)
    requires Inv(s) && Enabled(s, step) && ClassKept(s) && ClassesApart(s.ti)
    ensures ClassKept(Apply(s, step)) <==> !Crosses(step)
  {
    if step.Evict? && step.x != step.li {
      StealKeepsClass(s, step.li, step.x);
    }
  }

  ghost predicate KeptAt(trace: Trace, k: nat) { k < |trace.states| && ClassKept(trace.states[k]) }

  lemma NextKeepsClass(s: ScanState, trace: Trace, t: ScanState, n: nat)
    requires Inv(s) && Run(s, trace, t) && n < |trace.steps| && KeptAt(trace, n) && ClassesApart(s.ti)
    ensures KeptAt(trace, n + 1) <==> !Crosses(trace.steps[n])
  {
    RunInv(s, trace, t, n);
    assert Linked(trace, n);
    StepKeepsClass(trace.states[n], trace.steps[n]);
  }

  /** Over whole runs: save classes are right in every state if and only if all steals are between intervals of one call
      class. */
  lemma {:induction false} RunKeepsClass(s: ScanState, trace: Trace, t: ScanState, n: nat)
    requires Inv(s) && Run(s, trace, t) && KeptAt(trace, 0) && n <= |trace.steps| && ClassesApart(s.ti)
    ensures (forall k: nat :: k <= n ==> KeptAt(trace, k)) <==> (forall k :: 0 <= k < n ==> !Crosses(trace.steps[k]))
  {
    if n > 0 {
      RunKeepsClass(s, trace, t, n - 1);
      if KeptAt(trace, n - 1) {
        NextKeepsClass(s, trace, t, n - 1);
      }
    }
  }

  /** What can be seen from the input: over separable intervals every run keeps save classes in all its states. */
  lemma SeparableKeepsClass(ti: TargetInfo, m: RangesMap, free0: set<Reg>, trace: Trace, t: ScanState, n: nat)
    requires IsRun(ti, m, free0, trace, t) && n <= |trace.steps| && Separable(ti, Intervals(m), free0, m.Keys)
    ensures ClassKept(trace.states[n])
  {
    IntervalsKeyed(m);
    StartFrugal(ti, Intervals(m), m.Keys, free0);
    RunInv(Start(ti, Intervals(m), m.Keys, free0), trace, t, n);
    var s := trace.states[n];
    forall i | i in s.done && i.reg in s.alloc && IsPhysical(s.alloc[i.reg])
      ensures InClass(ti, s.alloc[i.reg], i.usedAcrossCall)
    {
      assert FrugalClass(s, i.usedAcrossCall);
      assert s.alloc[i.reg] in HeldBy(OfClass(s.all, i.usedAcrossCall), s.alloc);
    }
  }

  const V: Reg := VIRTUAL_REG_FLAG
  const W: Reg := VIRTUAL_REG_FLAG + 1

  /** `V` lives long and over no call, `W` lives in its middle and over a call; there is one register, and it is
      caller-saved. */
  const RANGES: RangesMap := map[V := [LiveRange(0, 10, false)], W := [LiveRange(1, 5, true)]]
  const ONE: TargetInfo := TargetInfo({7}, {}, {7})

  lemma TwoIntervals(v: LiveInterval, w: LiveInterval)
    requires v == IntervalOf(RANGES, V) && w == IntervalOf(RANGES, W)
    ensures WellFormed(RANGES) && Intervals(RANGES) == {v, w} && RANGES.Keys == {V, W} && |RANGES| == 2
    ensures v == LiveInterval(0, 10, V, false) && w == LiveInterval(1, 5, W, true)
  {
    assert V in RANGES && W in RANGES;
    assert |RANGES.Keys| == |{V, W}|;
  }

  lemma FirstTakes(s0: ScanState, v: LiveInterval, w: LiveInterval) returns (s2: ScanState)
    requires v == LiveInterval(0, 10, V, false) && w == LiveInterval(1, 5, W, true)
    requires s0 == Start(ONE, {v, w}, {V, W}, {7})
    ensures Enabled(s0, Expire(v, {})) && Apply(s0, Expire(v, {})) == s0.(now := 0)
    ensures Enabled(s0.(now := 0), Take(v, 7)) && s2 == Apply(s0.(now := 0), Take(v, 7))
  {
    var s1 := s0.(now := 0);
    assert Locations(s1.act, s1.alloc) == {};
    s2 := Apply(s1, Take(v, 7));
  }

  lemma SecondSteals(s2: ScanState, v: LiveInterval, w: LiveInterval) returns (s: ScanState)
    requires v == LiveInterval(0, 10, V, false) && w == LiveInterval(1, 5, W, true)
    requires s2 == ScanState(ONE, {v, w}, {V, W}, {7}, {v}, 0, {v}, map[V := 7], 0)
    ensures Enabled(s2, Expire(w, {})) && Apply(s2, Expire(w, {})) == s2.(now := 1)
    ensures Enabled(s2.(now := 1), Evict(w, v)) && s == Apply(s2.(now := 1), Evict(w, v))
    ensures s.done == {v, w} && W in s.alloc && s.alloc[W] == 7
  {
    var s3 := s2.(now := 1);
    assert v in s3.act && 7 in Locations(s3.act, s3.alloc);
    assert s2.all - s2.done == {w} && s3.act + {w} == {v, w};
    s := Apply(s3, Evict(w, v));
  }

  lemma RunOfFour(s0: ScanState, t0: Step, s1: ScanState, t1: Step, s2: ScanState, t2: Step, s3: ScanState, t3: Step,
                  s4: ScanState) returns (trace: Trace)
    requires Enabled(s0, t0) && s1 == Apply(s0, t0) && Enabled(s1, t1) && s2 == Apply(s1, t1)
    requires Enabled(s2, t2) && s3 == Apply(s2, t2) && Enabled(s3, t3) && s4 == Apply(s3, t3)
    ensures Run(s0, trace, s4)
  {
    trace := Trace([s0, s1, s2, s3, s4], [t0, t1, t2, t3]);
    assert Linked(trace, 0) && Linked(trace, 1) && Linked(trace, 2) && Linked(trace, 3);
  }

  /** `W` gets the caller-saved register over its call. */
  lemma StealCrosses() returns (trace: Trace, s: ScanState)
    ensures IsRun(ONE, RANGES, ONE.freeRegs, trace, s) && s.done == Intervals(RANGES)
    ensures W in s.alloc && s.alloc[W] == 7 && 7 !in ONE.calleeSaved && IntervalOf(RANGES, W).usedAcrossCall
  {
    var v, w := IntervalOf(RANGES, V), IntervalOf(RANGES, W);
    TwoIntervals(v, w);
    var s0 := Start(ONE, {v, w}, {V, W}, {7});
    var s2 := FirstTakes(s0, v, w);
    s := SecondSteals(s2, v, w);
    var s1, s3 := s0.(now := 0), s2.(now := 1);
    trace := RunOfFour(s0, Expire(v, {}), s1, Take(v, 7), s2, Expire(w, {}), s3, Evict(w, v), s);
  }
}
