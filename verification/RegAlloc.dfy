/** Linear-scan register allocation (src/codegen/asm/RegisterAllocator.h).

    The allocator keeps its state in fields that the methods update in place. The properties that
    matter are stated about plain values (the ranges of one function and the map of locations that
    comes out), so that the rewriter can use them without knowing the allocator. */
module RegAlloc {
  import opened Registers
  import opened FiniteSets

  /** A live range together with the register it belongs to. */
  datatype LiveInterval = LiveInterval(start: nat, end: nat, reg: Reg, usedAcrossCall: bool)

  /** The part of the target description that the allocator reads. */
  datatype TargetInfo = TargetInfo(callerSaved: set<Reg>, calleeSaved: set<Reg>, freeRegs: set<Reg>)

  /** A register may hold an interval only if it belongs to the matching save class. */
  predicate InClass(ti: TargetInfo, r: Reg, usedAcrossCall: bool) {
    if usedAcrossCall then r in ti.calleeSaved else r in ti.callerSaved
  }

  /** Virtual registers have one range; should there be several, the last one is used. */
  function IntervalOf(m: RangesMap, v: Reg): LiveInterval
    requires v in m && m[v] != []
  {
    var last := m[v][|m[v]| - 1];
    LiveInterval(last.start, last.end, v, last.usedAcrossCall)
  }

  function Intervals(m: RangesMap): set<LiveInterval>
    requires WellFormed(m)
  {
    set v | v in m && IsVirtual(v) :: IntervalOf(m, v)
  }

  predicate Disjoint(a: LiveInterval, b: LiveInterval) { a.end <= b.start || b.end <= a.start }

  // ---------------------------------------------------------------------------------------------
  // What an allocation must satisfy
  // ---------------------------------------------------------------------------------------------

  /** Every virtual register has a physical register or a slot of its own; a physical register with
      a fixed range is never handed out; virtual registers that share one are never live together. */
  ghost predicate NonInterfering(m: RangesMap, alloc: map<Reg, Reg>)
    requires WellFormed(m)
  {
    && (forall v :: v in alloc <==> v in m && IsVirtual(v))
    && (forall v :: v in alloc ==> IsStackSlot(alloc[v]) || (IsPhysical(alloc[v]) && alloc[v] !in m))
    && (forall v, w :: v in alloc && w in alloc && v != w && alloc[v] == alloc[w] ==>
          IsPhysical(alloc[v]) && Disjoint(IntervalOf(m, v), IntervalOf(m, w)))
  }

  /** The registers that intervals of one call class can be given: initially free, of the right save
      class, and not named by any instruction of the function. */
  ghost function Eligible(ti: TargetInfo, free: set<Reg>, named: set<Reg>, across: bool): set<Reg> {
    set r | r in free && r !in named && InClass(ti, r, across)
  }

  ghost predicate UniformClass(all: set<LiveInterval>, across: bool) {
    forall i :: i in all ==> i.usedAcrossCall == across
  }

  ghost function OfClass(all: set<LiveInterval>, across: bool): set<LiveInterval> {
    set i | i in all && i.usedAcrossCall == across
  }

  /** Save classes share no register that could be given out, unless one of them is not in use; and where more
      intervals of one call class are alive than there are registers for them, only intervals of that class are. */
  ghost predicate Separable(ti: TargetInfo, all: set<LiveInterval>, free: set<Reg>, named: set<Reg>) {
    && (UniformClass(all, true) || UniformClass(all, false) ||
        Eligible(ti, free, named, true) !! Eligible(ti, free, named, false))
    && forall across, q: nat ::
         |AliveAt(OfClass(all, across), q)| > |Eligible(ti, free, named, across)| ==> AliveAt(all, q) <= OfClass(all, across)
  }

  /** Intervals alive at one point have one call class. */
  ghost predicate OverlapsShareClass(all: set<LiveInterval>) {
    forall i, j :: i in all && j in all && !Disjoint(i, j) ==> i.usedAcrossCall == j.usedAcrossCall
  }

  /** There is a register of its class for every interval alive at one point. */
  ghost predicate EnoughRegisters(ti: TargetInfo, all: set<LiveInterval>, free: set<Reg>, named: set<Reg>) {
    forall across, q: nat :: |AliveAt(OfClass(all, across), q)| <= |Eligible(ti, free, named, across)|
  }

  /** `f` keeps the intervals of `kept` in registers of `regs` without a conflict. */
  ghost predicate KeepsApart(kept: set<LiveInterval>, f: map<Reg, Reg>, regs: set<Reg>) {
    && (forall i :: i in kept ==> i.reg in f && f[i.reg] in regs)
    && (forall i, j :: i in kept && j in kept && i != j && !Disjoint(i, j) ==> f[i.reg] != f[j.reg])
  }

  ghost function SpilledBy(all: set<LiveInterval>, alloc: map<Reg, Reg>): set<LiveInterval> {
    set i | i in all && i.reg in alloc && IsStackSlot(alloc[i.reg])
  }

  /** No conflict-free assignment to the registers `regs` keeps more intervals out of memory. */
  ghost predicate FewestSpills(all: set<LiveInterval>, regs: set<Reg>, spills: nat) {
    forall kept, f :: kept <= all && KeepsApart(kept, f, regs) ==> |kept| + spills <= |all|
  }

  /** Ways to see that intervals are separable. */
  lemma SeparableWhen(ti: TargetInfo, all: set<LiveInterval>, free: set<Reg>, named: set<Reg>)
    requires forall i :: i in all ==> i.start < i.end
    ensures UniformClass(all, true) || UniformClass(all, false) ==> Separable(ti, all, free, named)
    ensures ti.callerSaved !! ti.calleeSaved && OverlapsShareClass(all) ==> Separable(ti, all, free, named)
    ensures ti.callerSaved !! ti.calleeSaved && EnoughRegisters(ti, all, free, named) ==> Separable(ti, all, free, named)
  {
    forall across, q: nat | |AliveAt(OfClass(all, across), q)| > |Eligible(ti, free, named, across)|
      ensures UniformClass(all, true) || UniformClass(all, false) || OverlapsShareClass(all) ==>
                AliveAt(all, q) <= OfClass(all, across)
    {
      var i :| i in AliveAt(OfClass(all, across), q);
      assert forall j :: j in AliveAt(all, q) ==> !Disjoint(i, j);
    }
  }

  // ---------------------------------------------------------------------------------------------
  // The exchange argument
  // ---------------------------------------------------------------------------------------------

  ghost function AliveAt(s: set<LiveInterval>, q: nat): set<LiveInterval> {
    set i | i in s && i.start <= q < i.end
  }

  /** At no point are more than `k` intervals of `s` alive. */
  ghost predicate Fits(s: set<LiveInterval>, k: nat) {
    forall q: nat :: |AliveAt(s, q)| <= k
  }

  /** For every choice that fits there is one as large that avoids `spilled`. */
  ghost predicate CanAvoid(all: set<LiveInterval>, spilled: set<LiveInterval>, k: nat) {
    forall s :: s <= all && Fits(s, k) ==> exists s' :: s' <= all - spilled && Fits(s', k) && |s| <= |s'|
  }

  lemma ApartFits(kept: set<LiveInterval>, f: map<Reg, Reg>, regs: set<Reg>)
    requires forall i :: i in kept ==> i.start < i.end
    requires KeepsApart(kept, f, regs)
    ensures Fits(kept, |regs|)
  {
    forall q: nat ensures |AliveAt(kept, q)| <= |regs| {
      var alive := AliveAt(kept, q);
      InjectionSize(alive, (i: LiveInterval) => if i.reg in f then f[i.reg] else 0, regs);
    }
  }

  /** Trading an interval that ends last for another one alive at the same point still fits. */
  lemma ExchangeFits(all: set<LiveInterval>, spilled: set<LiveInterval>, s: set<LiveInterval>,
                     x: LiveInterval, y: LiveInterval, p: nat, k: nat)
    requires s <= all - spilled && Fits(s, k)
    requires x in s && y in all - spilled && y !in s
    requires x.start <= p < x.end && y.start <= p < y.end && y.end <= x.end
    requires forall q: nat :: q < p ==> |AliveAt(all - spilled - {x}, q)| <= k
    ensures Fits(s - {x} + {y}, k)
  {
    var t := s - {x} + {y};
    forall q: nat ensures |AliveAt(t, q)| <= k {
      if q < p {
        SubsetSize(AliveAt(t, q), AliveAt(all - spilled - {x}, q));
      } else if q < y.end {
        assert AliveAt(t, q) == AliveAt(s, q) - {x} + {y};
        assert |AliveAt(s, q)| <= k;
      } else {
        SubsetSize(AliveAt(t, q), AliveAt(s, q));
      }
    }
  }

  /** A choice that avoids `spilled` can be turned into one that avoids `x` too. */
  lemma AvoidAlso(all: set<LiveInterval>, spilled: set<LiveInterval>, crowd: set<LiveInterval>,
                  x: LiveInterval, p: nat, k: nat, t: set<LiveInterval>)
    returns (u: set<LiveInterval>)
    requires t <= all - spilled && Fits(t, k)
    requires crowd <= all - spilled && x in crowd && k < |crowd|
    requires forall c :: c in crowd ==> c.start <= p < c.end && c.end <= x.end
    requires forall q: nat :: q < p ==> |AliveAt(all - spilled - {x}, q)| <= k
    ensures u <= all - (spilled + {x}) && Fits(u, k) && |u| == |t|
  {
    u := t;
    if x in t {
      if crowd <= t {
        SubsetSize(crowd, AliveAt(t, p));
        assert false;
      }
      var y :| y in crowd && y !in t;
      ExchangeFits(all, spilled, t, x, y, p, k);
      u := t - {x} + {y};
    }
  }

  /** Spilling the latest end among more than `k` intervals alive at one point loses nothing. */
  lemma SpillLatestEnd(all: set<LiveInterval>, spilled: set<LiveInterval>, crowd: set<LiveInterval>,
                       x: LiveInterval, p: nat, k: nat)
    requires CanAvoid(all, spilled, k)
    requires crowd <= all - spilled && x in crowd && k < |crowd|
    requires forall c :: c in crowd ==> c.start <= p < c.end && c.end <= x.end
    requires forall q: nat :: q < p ==> |AliveAt(all - spilled - {x}, q)| <= k
    ensures CanAvoid(all, spilled + {x}, k)
  {
    forall s | s <= all && Fits(s, k)
      ensures exists s' :: s' <= all - (spilled + {x}) && Fits(s', k) && |s| <= |s'|
    {
      var t :| t <= all - spilled && Fits(t, k) && |s| <= |t|;
      var u := AvoidAlso(all, spilled, crowd, x, p, k, t);
    }
  }

  lemma NothingSpilledYet(all: set<LiveInterval>, k: nat)
    ensures CanAvoid(all, {}, k)
  {
    forall s | s <= all && Fits(s, k) ensures exists s' :: s' <= all - {} && Fits(s', k) && |s| <= |s'| {
      assert s <= all - {};
    }
  }

  lemma AvoidanceIsOptimal(all: set<LiveInterval>, regs: set<Reg>, spilled: set<LiveInterval>)
    requires spilled <= all && forall i :: i in all ==> i.start < i.end
    requires CanAvoid(all, spilled, |regs|)
    ensures FewestSpills(all, regs, |spilled|)
  {
    forall kept, f | kept <= all && KeepsApart(kept, f, regs) ensures |kept| + |spilled| <= |all| {
      ApartFits(kept, f, regs);
      var t :| t <= all - spilled && Fits(t, |regs|) && |kept| <= |t|;
      SubsetSize(t, all - spilled);
      assert |all - spilled| == |all| - |spilled|;
    }
  }

  // ---------------------------------------------------------------------------------------------
  // The state of a scan
  // ---------------------------------------------------------------------------------------------

  /** One nonempty interval a virtual register. */
  ghost predicate Keyed(all: set<LiveInterval>) {
    && (forall i :: i in all ==> i.start < i.end && IsVirtual(i.reg))
    && (forall i, j :: i in all && j in all && i.reg == j.reg ==> i == j)
  }

  ghost function Locations(act: set<LiveInterval>, alloc: map<Reg, Reg>): set<Reg> {
    set a | a in act && a.reg in alloc :: alloc[a.reg]
  }

  /** The physical registers that the intervals of `done` were given. */
  ghost function HeldBy(done: set<LiveInterval>, alloc: map<Reg, Reg>): set<Reg> {
    set i | i in done && i.reg in alloc && IsPhysical(alloc[i.reg]) :: alloc[i.reg]
  }

  ghost predicate Injective(act: set<LiveInterval>, alloc: map<Reg, Reg>)
    requires forall i :: i in act ==> i.reg in alloc
  {
    forall i, j :: i in act && j in act && i != j ==> alloc[i.reg] != alloc[j.reg]
  }

  ghost predicate ConflictFree(done: set<LiveInterval>, alloc: map<Reg, Reg>)
    requires forall i :: i in done ==> i.reg in alloc
  {
    forall i, j :: i in done && j in done && i != j && alloc[i.reg] == alloc[j.reg] ==>
      IsPhysical(alloc[i.reg]) && Disjoint(i, j)
  }

  /** Where each processed interval is. */
  ghost predicate Located(all: set<LiveInterval>, named: set<Reg>, done: set<LiveInterval>, now: nat,
                          act: set<LiveInterval>, alloc: map<Reg, Reg>, slots: nat)
  {
    && act <= done <= all
    && (forall i :: i in all ==> (i.reg in alloc <==> i in done))
    && (forall i :: i in done ==> i.start <= now)
    && (forall i :: i in done ==> IsPhysical(alloc[i.reg]) || FIRST_STACK_SLOT <= alloc[i.reg] < FIRST_STACK_SLOT + slots)
    && (forall i :: i in act ==> IsPhysical(alloc[i.reg]))
    && (forall i :: i in done && IsPhysical(alloc[i.reg]) ==> alloc[i.reg] !in named && (i in act || i.end <= now))
  }

  /** What holds after the intervals `done` of `all` have been processed, when `act` are the ones
      among them that hold a register and have not ended by `now`. */
  ghost predicate ScanInv(all: set<LiveInterval>, named: set<Reg>, done: set<LiveInterval>, now: nat,
                          act: set<LiveInterval>, alloc: map<Reg, Reg>, slots: nat)
  {
    && Keyed(all) && Located(all, named, done, now, act, alloc, slots)
    && Injective(act, alloc) && ConflictFree(done, alloc)
  }

  /** The next interval and the state it meets: everything processed starts no later, and what has
      ended by its start is no longer active. */
  ghost predicate Meets(all: set<LiveInterval>, named: set<Reg>, done: set<LiveInterval>, act: set<LiveInterval>,
                        alloc: map<Reg, Reg>, slots: nat, li: LiveInterval)
  {
    && li in all - done
    && ScanInv(all, named, done, li.start, act, alloc, slots)
    && (forall a :: a in act ==> li.start < a.end)
  }

  lemma TakeFreeRegister(all: set<LiveInterval>, named: set<Reg>, done: set<LiveInterval>, act: set<LiveInterval>,
                         alloc: map<Reg, Reg>, slots: nat, li: LiveInterval, r: Reg)
    requires Meets(all, named, done, act, alloc, slots, li) && slots <= 0x4000_0000
    requires IsPhysical(r) && r !in named && r !in Locations(act, alloc)
    ensures ScanInv(all, named, done + {li}, li.start, act + {li}, alloc[li.reg := r], slots)
    ensures SpilledBy(all, alloc[li.reg := r]) == SpilledBy(all, alloc)
  {
  }

  lemma SpillTheNewOne(all: set<LiveInterval>, named: set<Reg>, done: set<LiveInterval>, act: set<LiveInterval>,
                       alloc: map<Reg, Reg>, slots: nat, li: LiveInterval)
    requires Meets(all, named, done, act, alloc, slots, li) && slots < 0x4000_0000
    ensures var alloc' := alloc[li.reg := Index2StackSlot(slots)];
            && ScanInv(all, named, done + {li}, li.start, act, alloc', slots + 1)
            && SpilledBy(all, alloc') == SpilledBy(all, alloc) + {li} && li !in SpilledBy(all, alloc)
  {
    NewSpilled(all, done, alloc, slots, li);
  }

  lemma NewSpilled(all: set<LiveInterval>, done: set<LiveInterval>, alloc: map<Reg, Reg>, slots: nat, li: LiveInterval)
    requires Keyed(all) && li in all - done && li.reg !in alloc && slots < 0x4000_0000
    ensures var alloc' := alloc[li.reg := Index2StackSlot(slots)];
            SpilledBy(all, alloc') == SpilledBy(all, alloc) + {li} && li !in SpilledBy(all, alloc)
  {
  }

  lemma StealKeepsLocated(all: set<LiveInterval>, named: set<Reg>, done: set<LiveInterval>, act: set<LiveInterval>,
                          alloc: map<Reg, Reg>, slots: nat, li: LiveInterval, b: LiveInterval, alloc': map<Reg, Reg>)
    requires Meets(all, named, done, act, alloc, slots, li) && slots < 0x4000_0000 && b in act
    requires alloc' == alloc[li.reg := alloc[b.reg]][b.reg := Index2StackSlot(slots)]
    ensures Located(all, named, done + {li}, li.start, act - {b} + {li}, alloc', slots + 1)
    ensures Injective(act - {b} + {li}, alloc')
  {
  }

  lemma StealKeepsApart(all: set<LiveInterval>, named: set<Reg>, done: set<LiveInterval>, act: set<LiveInterval>,
                        alloc: map<Reg, Reg>, slots: nat, li: LiveInterval, b: LiveInterval, alloc': map<Reg, Reg>)
    requires Meets(all, named, done, act, alloc, slots, li) && slots < 0x4000_0000 && b in act
    requires alloc' == alloc[li.reg := alloc[b.reg]][b.reg := Index2StackSlot(slots)]
    ensures forall i :: i in done + {li} ==> i.reg in alloc'
    ensures ConflictFree(done + {li}, alloc')
  {
    forall i | i in done && i != b && alloc[i.reg] == alloc[b.reg] ensures Disjoint(i, li) {
      assert i !in act;
    }
    assert forall i :: i in done - {b} ==> alloc'[i.reg] == alloc[i.reg];
  }

  lemma StealFrom(all: set<LiveInterval>, named: set<Reg>, done: set<LiveInterval>, act: set<LiveInterval>,
                  alloc: map<Reg, Reg>, slots: nat, li: LiveInterval, b: LiveInterval)
    requires Meets(all, named, done, act, alloc, slots, li) && slots < 0x4000_0000 && b in act
    ensures var alloc' := alloc[li.reg := alloc[b.reg]][b.reg := Index2StackSlot(slots)];
            && ScanInv(all, named, done + {li}, li.start, act - {b} + {li}, alloc', slots + 1)
            && SpilledBy(all, alloc') == SpilledBy(all, alloc) + {b} && b !in SpilledBy(all, alloc)
  {
    var alloc' := alloc[li.reg := alloc[b.reg]][b.reg := Index2StackSlot(slots)];
    StealKeepsLocated(all, named, done, act, alloc, slots, li, b, alloc');
    StealKeepsApart(all, named, done, act, alloc, slots, li, b, alloc');
  }

  /** Registers only come from `regs`, and nothing spilled so far was spilled in vain. */
  ghost predicate Frugal(all: set<LiveInterval>, regs: set<Reg>, alloc: map<Reg, Reg>) {
    && HeldBy(all, alloc) <= regs
    && CanAvoid(all, SpilledBy(all, alloc), |regs|)
  }

  lemma LocationsSize(act: set<LiveInterval>, alloc: map<Reg, Reg>)
    requires forall i :: i in act ==> i.reg in alloc
    ensures |Locations(act, alloc)| <= |act|
  {
    if act != {} {
      var a :| a in act;
      LocationsSize(act - {a}, alloc);
      assert Locations(act, alloc) == Locations(act - {a}, alloc) + {alloc[a.reg]};
    }
  }

  /** With no register left, spilling the latest end `x` of a crowd at `p` loses nothing, when what
      is kept of the intervals that start before `p` sits in registers. */
  lemma SpillIsForced(all: set<LiveInterval>, before: set<LiveInterval>, crowd: set<LiveInterval>, x: LiveInterval,
                      p: nat, kept: set<LiveInterval>, f: map<Reg, Reg>, regs: set<Reg>)
    requires CanAvoid(all, before, |regs|)
    requires crowd <= all - before && x in crowd && |regs| < |crowd|
    requires forall c :: c in crowd ==> c.start <= p < c.end && c.end <= x.end
    requires forall i :: i in all - before - {x} && i.start < p ==> i in kept
    requires KeepsApart(kept, f, regs) && forall i :: i in kept ==> i.start < i.end
    ensures CanAvoid(all, before + {x}, |regs|)
  {
    ApartFits(kept, f, regs);
    forall q: nat | q < p ensures |AliveAt(all - before - {x}, q)| <= |regs| {
      SubsetSize(AliveAt(all - before - {x}, q), AliveAt(kept, q));
      assert |AliveAt(kept, q)| <= |regs|;
    }
    SpillLatestEnd(all, before, crowd, x, p, |regs|);
  }

  lemma CrowdAtStart(all: set<LiveInterval>, named: set<Reg>, done: set<LiveInterval>, act: set<LiveInterval>,
                     alloc: map<Reg, Reg>, slots: nat, li: LiveInterval, regs: set<Reg>)
    requires Meets(all, named, done, act, alloc, slots, li) && regs <= Locations(act, alloc)
    ensures act + {li} <= all - SpilledBy(all, alloc)
    ensures forall c :: c in act + {li} ==> c.start <= li.start < c.end
    ensures |regs| < |act + {li}|
  {
    SubsetSize(regs, Locations(act, alloc));
    LocationsSize(act, alloc);
    assert |act + {li}| == |act| + 1;
  }

  lemma KeptApart(all: set<LiveInterval>, named: set<Reg>, done: set<LiveInterval>, now: nat, act: set<LiveInterval>,
                  alloc: map<Reg, Reg>, slots: nat, regs: set<Reg>)
    requires ScanInv(all, named, done, now, act, alloc, slots) && slots <= 0x4000_0000
    requires HeldBy(done, alloc) <= regs
    ensures KeepsApart(done - SpilledBy(all, alloc), alloc, regs)
  {
  }

  /** The step from `alloc` to `alloc'` that spills `x` because `regs` are all taken. */
  lemma SpillStep(all: set<LiveInterval>, regs: set<Reg>, done: set<LiveInterval>, crowd: set<LiveInterval>,
                  before: set<LiveInterval>, li: LiveInterval, x: LiveInterval, alloc': map<Reg, Reg>)
    requires CanAvoid(all, before, |regs|)
    requires forall i :: i in all - done ==> li.start <= i.start
    requires crowd <= all - before && x in crowd && |regs| < |crowd|
    requires forall c :: c in crowd ==> c.start <= li.start < c.end && c.end <= x.end
    requires SpilledBy(all, alloc') == before + {x}
    requires done + {li} <= all && forall i :: i in done + {li} ==> i.start < i.end
    requires KeepsApart(done + {li} - SpilledBy(all, alloc'), alloc', regs)
    ensures CanAvoid(all, SpilledBy(all, alloc'), |regs|)
  {
    SpillIsForced(all, before, crowd, x, li.start, done + {li} - SpilledBy(all, alloc'), alloc', regs);
  }

  lemma FrugalAfterSpill(all: set<LiveInterval>, named: set<Reg>, regs: set<Reg>, done: set<LiveInterval>,
                         act: set<LiveInterval>, alloc: map<Reg, Reg>, slots: nat, li: LiveInterval, x: LiveInterval,
                         act': set<LiveInterval>, alloc': map<Reg, Reg>)
    requires Meets(all, named, done, act, alloc, slots, li) && slots < 0x4000_0000
    requires ScanInv(all, named, done + {li}, li.start, act', alloc', slots + 1)
    requires SpilledBy(all, alloc') == SpilledBy(all, alloc) + {x}
    requires forall i :: i in all - done ==> li.start <= i.start
    requires x in act + {li} && forall c :: c in act + {li} ==> c.end <= x.end
    requires regs <= Locations(act, alloc) && CanAvoid(all, SpilledBy(all, alloc), |regs|)
    requires HeldBy(done + {li}, alloc') <= regs
    ensures Frugal(all, regs, alloc')
  {
    assert HeldBy(all, alloc') == HeldBy(done + {li}, alloc');
    CrowdAtStart(all, named, done, act, alloc, slots, li, regs);
    KeptApart(all, named, done + {li}, li.start, act', alloc', slots + 1, regs);
    SpillStep(all, regs, done, act + {li}, SpilledBy(all, alloc), li, x, alloc');
  }

  /** The two branches of a spill: the new interval goes to memory, or it takes the register of the
      active interval that ends last. */
  function Spill(alloc: map<Reg, Reg>, slots: nat, li: LiveInterval, victim: LiveInterval): map<Reg, Reg>
    requires slots < 0x4000_0000 && (victim != li ==> victim.reg in alloc)
  {
    if victim == li then alloc[li.reg := Index2StackSlot(slots)]
    else alloc[li.reg := alloc[victim.reg]][victim.reg := Index2StackSlot(slots)]
  }

  lemma SpillKeepsScan(all: set<LiveInterval>, named: set<Reg>, done: set<LiveInterval>, act: set<LiveInterval>,
                       alloc: map<Reg, Reg>, slots: nat, li: LiveInterval, x: LiveInterval)
    requires Meets(all, named, done, act, alloc, slots, li) && slots < 0x4000_0000 && x in act + {li}
    ensures x != li ==> x.reg in alloc
    ensures ScanInv(all, named, done + {li}, li.start, act + {li} - {x}, Spill(alloc, slots, li, x), slots + 1)
    ensures SpilledBy(all, Spill(alloc, slots, li, x)) == SpilledBy(all, alloc) + {x} && x !in SpilledBy(all, alloc)
  {
    if x == li {
      SpillTheNewOne(all, named, done, act, alloc, slots, li);
      assert act + {li} - {x} == act;
    } else {
      StealFrom(all, named, done, act, alloc, slots, li, x);
      assert act + {li} - {x} == act - {x} + {li};
    }
  }

  lemma SpillKeepsLocations(all: set<LiveInterval>, named: set<Reg>, done: set<LiveInterval>, act: set<LiveInterval>,
                            alloc: map<Reg, Reg>, slots: nat, li: LiveInterval, x: LiveInterval)
    requires Meets(all, named, done, act, alloc, slots, li) && slots < 0x4000_0000 && x in act + {li}
    ensures x != li ==> x.reg in alloc
    ensures Locations(act + {li} - {x}, Spill(alloc, slots, li, x)) == Locations(act, alloc)
    ensures HeldBy(done + {li}, Spill(alloc, slots, li, x)) <= HeldBy(done, alloc)
  {
    var alloc' := Spill(alloc, slots, li, x);
    var act' := act + {li} - {x};
    forall r | r in HeldBy(done + {li}, alloc') ensures r in HeldBy(done, alloc) {
      var i :| i in done + {li} && i.reg in alloc' && IsPhysical(alloc'[i.reg]) && alloc'[i.reg] == r;
      assert i != x;
      assert (if i == li then x else i) in done;
    }
    if x == li {
      assert act' == act;
      assert forall a :: a in act ==> alloc'[a.reg] == alloc[a.reg];
    } else {
      assert forall a :: a in act - {x} ==> alloc'[a.reg] == alloc[a.reg];
      assert alloc'[li.reg] == alloc[x.reg];
      assert act' == act - {x} + {li};
      forall r | r in Locations(act, alloc) ensures r in Locations(act', alloc') {
        var a :| a in act && a.reg in alloc && alloc[a.reg] == r;
        assert (if a == x then li else a) in act';
      }
    }
  }

  lemma SpillKeepsFrugal(all: set<LiveInterval>, named: set<Reg>, done: set<LiveInterval>, act: set<LiveInterval>,
                         alloc: map<Reg, Reg>, slots: nat, li: LiveInterval, x: LiveInterval, regs: set<Reg>)
    requires Meets(all, named, done, act, alloc, slots, li) && slots < 0x4000_0000
    requires forall i :: i in all - done ==> li.start <= i.start
    requires x in act + {li} && forall c :: c in act + {li} ==> c.end <= x.end
    requires Frugal(all, regs, alloc) && regs <= Locations(act, alloc)
    ensures x != li ==> x.reg in alloc
    ensures Frugal(all, regs, Spill(alloc, slots, li, x))
  {
    SpillKeepsScan(all, named, done, act, alloc, slots, li, x);
    SpillKeepsLocations(all, named, done, act, alloc, slots, li, x);
    assert HeldBy(done, alloc) <= HeldBy(all, alloc);
    FrugalAfterSpill(all, named, regs, done, act, alloc, slots, li, x, act + {li} - {x}, Spill(alloc, slots, li, x));
  }

  // ---------------------------------------------------------------------------------------------
  // The allocator
  // ---------------------------------------------------------------------------------------------

  ghost function Elems(s: seq<LiveInterval>): set<LiveInterval> { set x | x in s }

  ghost predicate NoDup(s: seq<LiveInterval>) { |Elems(s)| == |s| }

  ghost predicate SortedByEnd(s: seq<LiveInterval>) {
    forall j, k :: 0 <= j < k < |s| ==> s[j].end <= s[k].end
  }

  lemma {:induction false} ElemsSize(s: seq<LiveInterval>)
    ensures |Elems(s)| <= |s|
  {
    if s != [] {
      ElemsSize(s[1..]);
      assert Elems(s) == Elems(s[1..]) + {s[0]};
    }
  }

  lemma ElemsConcat(s: seq<LiveInterval>, t: seq<LiveInterval>)
    ensures Elems(s + t) == Elems(s) + Elems(t)
  {
  }

  lemma ElemsOne(x: LiveInterval)
    ensures Elems([x]) == {x}
  {
  }

  lemma InsertAt(s: seq<LiveInterval>, k: nat, x: LiveInterval)
    requires k <= |s|
    ensures Elems(s[..k] + [x] + s[k..]) == Elems(s) + {x}
  {
    ElemsConcat(s[..k] + [x], s[k..]);
    ElemsConcat(s[..k], [x]);
    ElemsConcat(s[..k], s[k..]);
    ElemsOne(x);
    assert s == s[..k] + s[k..];
  }

  lemma InsertKeepsOrder(s: seq<LiveInterval>, k: nat, x: LiveInterval)
    requires k <= |s| && SortedByEnd(s)
    requires forall j :: 0 <= j < k ==> s[j].end <= x.end
    requires forall j :: k <= j < |s| ==> x.end <= s[j].end
    ensures SortedByEnd(s[..k] + [x] + s[k..])
  {
    var t := s[..k] + [x] + s[k..];
    forall i, j | 0 <= i < j < |t| ensures t[i].end <= t[j].end {
      assert t[i] == (if i < k then s[i] else if i == k then x else s[i - 1]);
      assert t[j] == (if j < k then s[j] else if j == k then x else s[j - 1]);
    }
  }

  lemma DropFirst(s: seq<LiveInterval>)
    requires s != [] && NoDup(s)
    ensures NoDup(s[1..]) && Elems(s[1..]) == Elems(s) - {s[0]} && s[0] in Elems(s)
  {
    ElemsSize(s[1..]);
    ElemsConcat([s[0]], s[1..]);
    ElemsOne(s[0]);
    assert s == [s[0]] + s[1..];
  }

  lemma FirstEndsFirst(s: seq<LiveInterval>, p: nat)
    requires SortedByEnd(s)
    ensures s != [] ==> SortedByEnd(s[1..])
    ensures (s == [] || p < s[0].end) ==> forall a :: a in Elems(s) ==> p < a.end
  {
  }

  lemma LastEndsLast(s: seq<LiveInterval>, p: nat)
    requires SortedByEnd(s) && (s == [] || s[|s| - 1].end <= p)
    ensures forall a :: a in Elems(s) ==> a.end <= p
  {
  }

  lemma DropLast(s: seq<LiveInterval>)
    requires s != [] && NoDup(s)
    ensures NoDup(s[..|s| - 1]) && Elems(s[..|s| - 1]) == Elems(s) - {s[|s| - 1]} && s[|s| - 1] in Elems(s)
  {
    var last := s[|s| - 1];
    ElemsSize(s[..|s| - 1]);
    ElemsConcat(s[..|s| - 1], [last]);
    ElemsOne(last);
    assert s == s[..|s| - 1] + [last];
  }

  lemma AddLast(s: seq<LiveInterval>, x: LiveInterval)
    requires NoDup(s) && x !in Elems(s)
    ensures NoDup(s + [x]) && Elems(s + [x]) == Elems(s) + {x}
  {
    ElemsConcat(s, [x]);
    ElemsOne(x);
  }

  /** The last of a sorted list, replaced by an interval that ends earlier. */
  lemma ReplaceLast(s: seq<LiveInterval>, x: LiveInterval)
    requires s != [] && NoDup(s) && SortedByEnd(s) && x !in Elems(s) && x.end < s[|s| - 1].end
    ensures NoDup(s[..|s| - 1] + [x]) && Elems(s[..|s| - 1] + [x]) == Elems(s) + {x} - {s[|s| - 1]}
    ensures s[|s| - 1] in Elems(s) && forall c :: c in Elems(s) + {x} ==> c.end <= s[|s| - 1].end
  {
    DropLast(s);
    AddLast(s[..|s| - 1], x);
    ReplacedElems(Elems(s[..|s| - 1]), Elems(s), s[|s| - 1], x);
  }

  lemma ReplacedElems(rest: set<LiveInterval>, all: set<LiveInterval>, last: LiveInterval, x: LiveInterval)
    requires rest == all - {last} && x != last
    ensures rest + {x} == all + {x} - {last}
  {
  }

  function FreeIn(flags: map<Reg, bool>): set<Reg> { set r | r in flags && flags[r] }

  lemma FlagChange(flags: map<Reg, bool>, r: Reg)
    ensures FreeIn(flags[r := true]) == FreeIn(flags) + {r} && FreeIn(flags[r := false]) == FreeIn(flags) - {r}
  {
  }

  lemma IntervalsKeyed(m: RangesMap)
    requires WellFormed(m)
    ensures Keyed(Intervals(m)) && |Intervals(m)| <= |m|
    ensures forall v :: v in m && IsVirtual(v) ==> IntervalOf(m, v) in Intervals(m)
  {
    InjectionSize(Intervals(m), (i: LiveInterval) => i.reg, m.Keys);
    assert |m.Keys| == |m|;
  }

  /** The queue order: by start, then by end. */
  predicate Before(a: LiveInterval, b: LiveInterval) {
    a.start < b.start || (a.start == b.start && a.end <= b.end)
  }

  predicate IsFirst(x: LiveInterval, s: set<LiveInterval>) {
    x in s && forall y :: y in s ==> Before(x, y)
  }

  lemma {:induction false} FirstExists(s: set<LiveInterval>)
    requires s != {}
    ensures exists x :: IsFirst(x, s)
  {
    var x :| x in s;
    if s == {x} {
      assert IsFirst(x, s);
    } else {
      FirstExists(s - {x});
      var z :| IsFirst(z, s - {x});
      assert forall y :: y in s ==> y == x || y in s - {x};
      if Before(x, z) {
        assert IsFirst(x, s);
      } else {
        assert IsFirst(z, s);
      }
    }
  }

  lemma Retire(all: set<LiveInterval>, named: set<Reg>, done: set<LiveInterval>, now: nat, act: set<LiveInterval>,
               alloc: map<Reg, Reg>, slots: nat, li: LiveInterval, gone: set<LiveInterval>)
    requires ScanInv(all, named, done, now, act, alloc, slots) && li in all - done && now <= li.start
    requires gone <= act && (forall a :: a in gone ==> a.end <= li.start) && forall a :: a in act - gone ==> li.start < a.end
    ensures Meets(all, named, done, act - gone, alloc, slots, li)
    ensures Locations(act - gone, alloc) == Locations(act, alloc) - Locations(gone, alloc)
  {
  }

  lemma LocationsGrow(act: set<LiveInterval>, alloc: map<Reg, Reg>, a: LiveInterval)
    requires a.reg in alloc
    ensures Locations(act + {a}, alloc) == Locations(act, alloc) + {alloc[a.reg]}
  {
  }

  lemma SlotsLeft(all: set<LiveInterval>, done: set<LiveInterval>, alloc: map<Reg, Reg>, li: LiveInterval)
    requires li in all - done && done <= all && forall i :: i in all && i.reg in alloc ==> i in done
    ensures |SpilledBy(all, alloc)| < |all|
  {
    SubsetSize(SpilledBy(all, alloc), done);
    SubsetSize(done, all - {li});
  }

  // ---------------------------------------------------------------------------------------------
  // The scan as a transition system
  // ---------------------------------------------------------------------------------------------

  datatype ScanState = ScanState(ti: TargetInfo, all: set<LiveInterval>, named: set<Reg>, free0: set<Reg>,
                                 done: set<LiveInterval>, now: nat, act: set<LiveInterval>,
                                 alloc: map<Reg, Reg>, slots: nat)

  ghost function RegsOf(done: set<LiveInterval>): set<Reg> { set i | i in done :: i.reg }

  /** Registers come from the initial pool, and every spill is counted. */
  ghost predicate Accounted(s: ScanState)
    requires forall i :: i in s.done ==> i.reg in s.alloc
  {
    && s.alloc.Keys == RegsOf(s.done) && Locations(s.act, s.alloc) <= s.free0
    && HeldBy(s.done, s.alloc) <= s.free0
    && s.slots == |SpilledBy(s.all, s.alloc)| && |s.all| <= 0x4000_0000
  }

  /** If the call classes are separable, intervals of each class use eligible registers only, and no spill of a class is
      one too many. */
  ghost predicate FrugalIfSeparable(s: ScanState) {
    Separable(s.ti, s.all, s.free0, s.named) ==> forall across :: FrugalClass(s, across)
  }

  ghost predicate FrugalClass(s: ScanState, across: bool) {
    Frugal(OfClass(s.all, across), Eligible(s.ti, s.free0, s.named, across), s.alloc)
  }

  /** States of one run are about one function. */
  predicate SameRun(s: ScanState, u: ScanState) {
    u.ti == s.ti && u.all == s.all && u.named == s.named && u.free0 == s.free0
  }

  ghost predicate Inv(s: ScanState) {
    ScanInv(s.all, s.named, s.done, s.now, s.act, s.alloc, s.slots) && Accounted(s) && FrugalIfSeparable(s)
  }

  /** The registers that are free in a state. */
  ghost function Free(s: ScanState): set<Reg> { s.free0 - Locations(s.act, s.alloc) }

  ghost function Start(ti: TargetInfo, all: set<LiveInterval>, named: set<Reg>, free0: set<Reg>): ScanState {
    ScanState(ti, all, named, free0, {}, 0, {}, map[], 0)
  }

  lemma StartFrugal(ti: TargetInfo, all: set<LiveInterval>, named: set<Reg>, free0: set<Reg>)
    ensures SpilledBy(all, map[]) == {} && RegsOf({}) == {}
    ensures FrugalIfSeparable(ScanState(ti, all, named, free0, {}, 0, {}, map[], 0))
  {
    var s := ScanState(ti, all, named, free0, {}, 0, {}, map[], 0);
    assert SpilledBy(all, map[]) == {};
    forall across ensures FrugalClass(s, across) {
      assert SpilledBy(OfClass(all, across), map[]) == {};
      NothingSpilledYet(OfClass(all, across), |Eligible(ti, free0, named, across)|);
    }
  }

  /** The next interval of the queue. */
  ghost predicate IsNext(s: ScanState, li: LiveInterval) {
    li in s.all - s.done && s.now <= li.start && forall i :: i in s.all - s.done ==> li.start <= i.start
  }

  /** Like `IsNext`, with the active list brought up to date. */
  ghost predicate Ready(s: ScanState, li: LiveInterval) {
    IsNext(s, li) && s.now == li.start && forall a :: a in s.act ==> li.start < a.end
  }

  /** One step of the scan: the intervals of `gone` end before the next one starts, the next one takes
      a free register, or the one that ends last is spilled. */
  datatype Step =
    | Expire(li: LiveInterval, gone: set<LiveInterval>)
    | Take(li: LiveInterval, r: Reg)
    | Evict(li: LiveInterval, x: LiveInterval)

  ghost predicate Enabled(s: ScanState, step: Step) {
    match step
    case Expire(li, gone) =>
      && IsNext(s, li) && gone <= s.act
      && (forall a :: a in gone ==> a.end <= li.start) && forall a :: a in s.act - gone ==> li.start < a.end
    case Take(li, r) =>
      Ready(s, li) && r in Free(s) && r !in s.named && IsPhysical(r) && InClass(s.ti, r, li.usedAcrossCall)
    case Evict(li, x) =>
      && Ready(s, li) && NoneLeft(s, li) && s.slots < 0x4000_0000 && (x != li ==> x.reg in s.alloc)
      && x in s.act + {li} && forall c :: c in s.act + {li} ==> c.end <= x.end
  }

  ghost function Apply(s: ScanState, step: Step): ScanState
    requires Enabled(s, step)
  {
    match step
    case Expire(li, gone) => s.(act := s.act - gone, now := li.start)
    case Take(li, r) => s.(done := s.done + {li}, act := s.act + {li}, alloc := s.alloc[li.reg := r])
    case Evict(li, x) =>
      s.(done := s.done + {li}, act := s.act + {li} - {x}, alloc := Spill(s.alloc, s.slots, li, x), slots := s.slots + 1)
  }

  /** The states of a run and the steps between them. */
  datatype Trace = Trace(states: seq<ScanState>, steps: seq<Step>)

  ghost predicate Linked(trace: Trace, k: nat)
    requires k < |trace.steps| && k + 1 < |trace.states|
  {
    Enabled(trace.states[k], trace.steps[k]) && trace.states[k + 1] == Apply(trace.states[k], trace.steps[k])
  }

  /** `trace` leads from `s` to `t`. */
  ghost predicate Run(s: ScanState, trace: Trace, t: ScanState) {
    && |trace.states| == |trace.steps| + 1 && trace.states[0] == s && trace.states[|trace.steps|] == t
    && forall k :: 0 <= k < |trace.steps| ==> Linked(trace, k)
  }

  ghost function Extended(trace: Trace, step: Step, t: ScanState): Trace {
    Trace(trace.states + [t], trace.steps + [step])
  }

  lemma Extend(s: ScanState, trace: Trace, u: ScanState, step: Step)
    requires Run(s, trace, u) && Enabled(u, step)
    ensures Run(s, Extended(trace, step, Apply(u, step)), Apply(u, step))
  {
    var longer := Extended(trace, step, Apply(u, step));
    forall k | 0 <= k < |longer.steps| ensures Linked(longer, k) {
      if k < |trace.steps| {
        assert Linked(trace, k);
      }
    }
  }

  lemma TakenAccounted(s: ScanState, li: LiveInterval, r: Reg, t: ScanState)
    requires (forall i :: i in s.done ==> i.reg in s.alloc) && Accounted(s) && s.act <= s.done
    requires li.reg !in s.alloc && r in s.free0 && IsPhysical(r)
    requires t == s.(done := s.done + {li}, act := s.act + {li}, alloc := s.alloc[li.reg := r])
    requires SpilledBy(t.all, t.alloc) == SpilledBy(s.all, s.alloc)
    ensures (forall i :: i in t.done ==> i.reg in t.alloc) && Accounted(t)
    ensures Locations(t.act, t.alloc) == Locations(s.act, s.alloc) + {r}
  {
    assert Locations(s.act, t.alloc) == Locations(s.act, s.alloc);
    LocationsGrow(s.act, t.alloc, li);
    assert RegsOf(t.done) == RegsOf(s.done) + {li.reg};
    assert HeldBy(t.done, t.alloc) == HeldBy(s.done, s.alloc) + {r};
  }

  /** One class alone: what the scan has done about it. */
  lemma MeetsOfClass(all: set<LiveInterval>, named: set<Reg>, done: set<LiveInterval>, act: set<LiveInterval>,
                     alloc: map<Reg, Reg>, slots: nat, li: LiveInterval, across: bool)
    requires Meets(all, named, done, act, alloc, slots, li) && li.usedAcrossCall == across
    ensures Meets(OfClass(all, across), named, OfClass(done, across), OfClass(act, across), alloc, slots, li)
  {
  }

  lemma TakenFrugal(s: ScanState, li: LiveInterval, r: Reg, t: ScanState)
    requires Inv(s) && Enabled(s, Take(li, r))
    requires t == s.(done := s.done + {li}, act := s.act + {li}, alloc := s.alloc[li.reg := r])
    ensures FrugalIfSeparable(t)
  {
    if Separable(s.ti, s.all, s.free0, s.named) {
      forall across ensures FrugalClass(t, across) {
        assert FrugalClass(s, across);
        TakenClass(OfClass(s.all, across), Eligible(s.ti, s.free0, s.named, across), s.alloc, li, r);
      }
    }
  }

  lemma TakenClass(all: set<LiveInterval>, regs: set<Reg>, alloc: map<Reg, Reg>, li: LiveInterval, r: Reg)
    requires Frugal(all, regs, alloc) && li.reg !in alloc && IsPhysical(r)
    requires forall i :: i in all && i.reg == li.reg ==> i == li
    requires li in all ==> r in regs
    ensures Frugal(all, regs, alloc[li.reg := r])
  {
    assert SpilledBy(all, alloc[li.reg := r]) == SpilledBy(all, alloc);
    assert HeldBy(all, alloc[li.reg := r]) <= HeldBy(all, alloc) + (if li in all then {r} else {});
  }

  lemma TakenInv(s: ScanState, li: LiveInterval, r: Reg)
    requires Inv(s) && Enabled(s, Take(li, r))
    ensures Inv(Apply(s, Take(li, r))) && Free(Apply(s, Take(li, r))) == Free(s) - {r}
  {
    var t := Apply(s, Take(li, r));
    SlotsLeft(s.all, s.done, s.alloc, li);
    TakeFreeRegister(s.all, s.named, s.done, s.act, s.alloc, s.slots, li, r);
    TakenAccounted(s, li, r, t);
    TakenFrugal(s, li, r, t);
  }

  /** No register of its class is left for `li`. */
  ghost predicate NoneLeft(s: ScanState, li: LiveInterval) {
    forall q :: q in Free(s) && InClass(s.ti, q, li.usedAcrossCall) ==> q in s.named
  }

  /** With no register left for `li`, all the registers of its class are held by intervals of its class. */
  lemma HeldByOwnClass(s: ScanState, li: LiveInterval)
    requires Inv(s) && Ready(s, li) && NoneLeft(s, li) && Separable(s.ti, s.all, s.free0, s.named)
    ensures Eligible(s.ti, s.free0, s.named, li.usedAcrossCall) <= Locations(OfClass(s.act, li.usedAcrossCall), s.alloc)
  {
    var across := li.usedAcrossCall;
    forall r | r in Eligible(s.ti, s.free0, s.named, across) ensures r in Locations(OfClass(s.act, across), s.alloc) {
      assert r in Locations(s.act, s.alloc);
      var a :| a in s.act && a.reg in s.alloc && s.alloc[a.reg] == r;
      assert FrugalClass(s, a.usedAcrossCall);
      assert r in HeldBy(OfClass(s.all, a.usedAcrossCall), s.alloc);
      assert a.usedAcrossCall == across;
    }
  }

  /** So what is spilled then is of that class too. */
  lemma SpillsOwnClass(s: ScanState, li: LiveInterval, x: LiveInterval)
    requires Inv(s) && Enabled(s, Evict(li, x)) && Separable(s.ti, s.all, s.free0, s.named)
    ensures x.usedAcrossCall == li.usedAcrossCall
  {
    var across := li.usedAcrossCall;
    var mine := OfClass(s.act, across);
    HeldByOwnClass(s, li);
    ActiveAreAlive(s, li);
    CrowdedOut(mine, s.alloc, li, Eligible(s.ti, s.free0, s.named, across), AliveAt(OfClass(s.all, across), li.start));
    assert x in AliveAt(s.all, li.start);
  }

  lemma ActiveAreAlive(s: ScanState, li: LiveInterval)
    requires Inv(s) && Ready(s, li)
    ensures s.act + {li} <= AliveAt(s.all, li.start) && li !in s.act && forall a :: a in s.act ==> a.reg in s.alloc
    ensures OfClass(s.act, li.usedAcrossCall) + {li} <= AliveAt(OfClass(s.all, li.usedAcrossCall), li.start)
  {
  }

  lemma CrowdedOut(act: set<LiveInterval>, alloc: map<Reg, Reg>, li: LiveInterval, regs: set<Reg>, alive: set<LiveInterval>)
    requires regs <= Locations(act, alloc) && li !in act && act + {li} <= alive
    requires forall a :: a in act ==> a.reg in alloc
    ensures |regs| < |alive|
  {
    SubsetSize(regs, Locations(act, alloc));
    LocationsSize(act, alloc);
    assert |act + {li}| == |act| + 1;
    SubsetSize(act + {li}, alive);
  }

  lemma SpilledFrugal(s: ScanState, li: LiveInterval, x: LiveInterval, t: ScanState)
    requires Inv(s) && Enabled(s, Evict(li, x))
    requires t.ti == s.ti && t.all == s.all && t.named == s.named && t.free0 == s.free0
    requires t.alloc == Spill(s.alloc, s.slots, li, x)
    ensures FrugalIfSeparable(t)
  {
    if Separable(s.ti, s.all, s.free0, s.named) {
      SpillsOwnClass(s, li, x);
      forall across ensures FrugalClass(t, across) {
        assert FrugalClass(s, across);
        if across == li.usedAcrossCall {
          SpilledOwnClass(s, li, x, t);
        } else {
          OtherClass(OfClass(s.all, across), Eligible(s.ti, s.free0, s.named, across), s.alloc, t.alloc);
        }
      }
    }
  }

  lemma SpilledOwnClass(s: ScanState, li: LiveInterval, x: LiveInterval, t: ScanState)
    requires Inv(s) && Enabled(s, Evict(li, x)) && Separable(s.ti, s.all, s.free0, s.named)
    requires t.ti == s.ti && t.all == s.all && t.named == s.named && t.free0 == s.free0
    requires t.alloc == Spill(s.alloc, s.slots, li, x) && x.usedAcrossCall == li.usedAcrossCall
    requires FrugalClass(s, li.usedAcrossCall)
    ensures FrugalClass(t, li.usedAcrossCall)
  {
    var across := li.usedAcrossCall;
    HeldByOwnClass(s, li);
    MeetsOfClass(s.all, s.named, s.done, s.act, s.alloc, s.slots, li, across);
    SpillKeepsFrugal(OfClass(s.all, across), s.named, OfClass(s.done, across), OfClass(s.act, across), s.alloc, s.slots,
                     li, x, Eligible(s.ti, s.free0, s.named, across));
  }

  lemma OtherClass(all: set<LiveInterval>, regs: set<Reg>, alloc: map<Reg, Reg>, alloc': map<Reg, Reg>)
    requires Frugal(all, regs, alloc)
    requires forall i :: i in all ==> (i.reg in alloc <==> i.reg in alloc') && (i.reg in alloc ==> alloc[i.reg] == alloc'[i.reg])
    ensures Frugal(all, regs, alloc')
  {
    assert SpilledBy(all, alloc') == SpilledBy(all, alloc);
    assert HeldBy(all, alloc') == HeldBy(all, alloc);
  }

  lemma SpilledAccounted(s: ScanState, li: LiveInterval, x: LiveInterval, t: ScanState)
    requires (forall i :: i in s.done ==> i.reg in s.alloc) && Accounted(s) && s.slots < 0x4000_0000
    requires x != li ==> x.reg in s.alloc
    requires t == s.(done := s.done + {li}, act := s.act + {li} - {x},
                     alloc := Spill(s.alloc, s.slots, li, x), slots := s.slots + 1)
    requires SpilledBy(t.all, t.alloc) == SpilledBy(s.all, s.alloc) + {x} && x !in SpilledBy(s.all, s.alloc)
    requires Locations(t.act, t.alloc) == Locations(s.act, s.alloc) && HeldBy(t.done, t.alloc) <= HeldBy(s.done, s.alloc)
    ensures (forall i :: i in t.done ==> i.reg in t.alloc) && Accounted(t)
  {
    assert RegsOf(t.done) == RegsOf(s.done) + {li.reg};
  }

  lemma EvictedScan(s: ScanState, li: LiveInterval, x: LiveInterval)
    requires Inv(s) && Enabled(s, Evict(li, x))
    ensures var t := Apply(s, Evict(li, x));
            && ScanInv(t.all, t.named, t.done, t.now, t.act, t.alloc, t.slots)
            && SpilledBy(t.all, t.alloc) == SpilledBy(s.all, s.alloc) + {x} && x !in SpilledBy(s.all, s.alloc)
  {
    SpillKeepsScan(s.all, s.named, s.done, s.act, s.alloc, s.slots, li, x);
  }

  lemma EvictedLocations(s: ScanState, li: LiveInterval, x: LiveInterval)
    requires Inv(s) && Enabled(s, Evict(li, x))
    ensures var t := Apply(s, Evict(li, x));
            && Locations(t.act, t.alloc) == Locations(s.act, s.alloc) && HeldBy(t.done, t.alloc) <= HeldBy(s.done, s.alloc)
  {
    SpillKeepsLocations(s.all, s.named, s.done, s.act, s.alloc, s.slots, li, x);
  }

  lemma EvictedAccounted(s: ScanState, li: LiveInterval, x: LiveInterval, t: ScanState)
    requires Inv(s) && Enabled(s, Evict(li, x)) && t == Apply(s, Evict(li, x))
    ensures Accounted(t) && Free(t) == Free(s)
  {
    EvictedScan(s, li, x);
    EvictedLocations(s, li, x);
    SpilledAccounted(s, li, x, t);
  }

  lemma EvictedInv(s: ScanState, li: LiveInterval, x: LiveInterval)
    requires Inv(s) && Enabled(s, Evict(li, x))
    ensures Inv(Apply(s, Evict(li, x))) && Free(Apply(s, Evict(li, x))) == Free(s)
  {
    var t := Apply(s, Evict(li, x));
    EvictedScan(s, li, x);
    EvictedAccounted(s, li, x, t);
    SpilledFrugal(s, li, x, t);
  }

  lemma ExpiredInv(s: ScanState, li: LiveInterval, gone: set<LiveInterval>)
    requires Inv(s) && Enabled(s, Expire(li, gone))
    ensures Inv(Apply(s, Expire(li, gone))) && Free(Apply(s, Expire(li, gone))) == Free(s) + Locations(gone, s.alloc)
  {
    Retire(s.all, s.named, s.done, s.now, s.act, s.alloc, s.slots, li, gone);
    SameFrugal(s, Apply(s, Expire(li, gone)));
  }

  lemma SameFrugal(s: ScanState, t: ScanState)
    requires FrugalIfSeparable(s) && SameRun(s, t) && t.alloc == s.alloc
    ensures FrugalIfSeparable(t)
  {
    forall across ensures FrugalClass(s, across) == FrugalClass(t, across) {
    }
  }

  lemma StepInv(s: ScanState, step: Step)
    requires Inv(s) && Enabled(s, step)
    ensures Inv(Apply(s, step))
  {
    match step
    case Expire(li, gone) => ExpiredInv(s, li, gone);
    case Take(li, r) => TakenInv(s, li, r);
    case Evict(li, x) => EvictedInv(s, li, x);
  }

  /** One more state of a run. */
  lemma NextInv(s: ScanState, trace: Trace, k: nat)
    requires k < |trace.steps| && k + 1 < |trace.states| && Linked(trace, k)
    requires InvOf(s, trace.states[k])
    ensures InvOf(s, trace.states[k + 1])
  {
    StepInv(trace.states[k], trace.steps[k]);
  }

  ghost predicate InvOf(s: ScanState, u: ScanState) { Inv(u) && SameRun(s, u) }

  /** The invariant holds in every state that a run reaches. */
  lemma {:induction false} RunInv(s: ScanState, trace: Trace, t: ScanState, k: nat)
    requires Inv(s) && Run(s, trace, t) && k <= |trace.steps|
    ensures InvOf(s, trace.states[k])
  {
    if k > 0 {
      RunInv(s, trace, t, k - 1);
      NextInv(s, trace, k - 1);
    }
  }

  lemma DoneIsNonInterfering(m: RangesMap, all: set<LiveInterval>, now: nat, act: set<LiveInterval>,
                             alloc: map<Reg, Reg>, slots: nat)
    requires WellFormed(m) && slots <= 0x4000_0000
    requires forall i :: i in all ==> i.reg in m && IsVirtual(i.reg)
    requires forall v :: v in m && IsVirtual(v) ==> IntervalOf(m, v) in all
    requires ScanInv(all, m.Keys, all, now, act, alloc, slots) && alloc.Keys == RegsOf(all)
    ensures NonInterfering(m, alloc)
    ensures forall v :: v in alloc && IsStackSlot(alloc[v]) ==> StackSlot2Index(alloc[v]) < slots
    ensures forall v :: v in alloc && IsPhysical(alloc[v]) ==> alloc[v] in HeldBy(all, alloc)
  {
    forall v | v in alloc ensures v in m && IsVirtual(v) && IntervalOf(m, v) in all {
      var i :| i in all && i.reg == v;
    }
    forall v, w | v in alloc && w in alloc && v != w && alloc[v] == alloc[w]
      ensures IsPhysical(alloc[v]) && Disjoint(IntervalOf(m, v), IntervalOf(m, w))
    {
      assert IntervalOf(m, v) in all && IntervalOf(m, w) in all;
    }
  }

  /** The spills of a class are as few as can be. */
  ghost predicate FewestOfClass(ti: TargetInfo, all: set<LiveInterval>, free: set<Reg>, named: set<Reg>, alloc: map<Reg, Reg>,
                                across: bool) {
    && HeldBy(OfClass(all, across), alloc) <= Eligible(ti, free, named, across)
    && FewestSpills(OfClass(all, across), Eligible(ti, free, named, across), |SpilledBy(OfClass(all, across), alloc)|)
  }

  lemma DoneIsFrugal(s: ScanState)
    requires Keyed(s.all) && FrugalIfSeparable(s)
    ensures Separable(s.ti, s.all, s.free0, s.named) ==>
              forall across :: FewestOfClass(s.ti, s.all, s.free0, s.named, s.alloc, across)
  {
    if Separable(s.ti, s.all, s.free0, s.named) {
      forall across ensures FewestOfClass(s.ti, s.all, s.free0, s.named, s.alloc, across) {
        assert FrugalClass(s, across);
        var part := OfClass(s.all, across);
        AvoidanceIsOptimal(part, Eligible(s.ti, s.free0, s.named, across), SpilledBy(part, s.alloc));
      }
    }
  }

  /** With one call class for all: no assignment at all keeps more. */
  lemma UniformIsFewest(ti: TargetInfo, all: set<LiveInterval>, free: set<Reg>, named: set<Reg>, alloc: map<Reg, Reg>,
                        across: bool)
    requires UniformClass(all, across) && FewestOfClass(ti, all, free, named, alloc, across)
    ensures HeldBy(all, alloc) <= Eligible(ti, free, named, across)
    ensures FewestSpills(all, Eligible(ti, free, named, across), |SpilledBy(all, alloc)|)
  {
    assert OfClass(all, across) == all;
  }

  lemma FinalState(m: RangesMap, s: ScanState)
    requires WellFormed(m) && Inv(s) && s.all <= s.done && s.named == m.Keys
    requires forall i :: i in s.all ==> i.reg in m && IsVirtual(i.reg)
    requires forall v :: v in m && IsVirtual(v) ==> IntervalOf(m, v) in s.all
    ensures NonInterfering(m, s.alloc)
    ensures forall v :: v in s.alloc && IsPhysical(s.alloc[v]) ==> s.alloc[v] in s.free0
    ensures forall v :: v in s.alloc && IsStackSlot(s.alloc[v]) ==> StackSlot2Index(s.alloc[v]) < s.slots
    ensures s.slots == |SpilledBy(s.all, s.alloc)|
    ensures forall across :: UniformClass(s.all, across) ==>
      && (forall v :: v in s.alloc && IsPhysical(s.alloc[v]) ==> InClass(s.ti, s.alloc[v], across))
      && FewestSpills(s.all, Eligible(s.ti, s.free0, s.named, across), s.slots)
    ensures Separable(s.ti, s.all, s.free0, s.named) ==>
              forall across :: FewestOfClass(s.ti, s.all, s.free0, s.named, s.alloc, across)
  {
    assert s.done == s.all;
    SubsetSize(SpilledBy(s.all, s.alloc), s.all);
    DoneIsNonInterfering(m, s.all, s.now, s.act, s.alloc, s.slots);
    DoneIsFrugal(s);
    SeparableWhen(s.ti, s.all, s.free0, s.named);
    forall across | UniformClass(s.all, across)
      ensures HeldBy(s.all, s.alloc) <= Eligible(s.ti, s.free0, s.named, across)
      ensures FewestSpills(s.all, Eligible(s.ti, s.free0, s.named, across), s.slots)
    {
      assert UniformClass(s.all, true) || UniformClass(s.all, false);
      UniformIsFewest(s.ti, s.all, s.free0, s.named, s.alloc, across);
    }
  }

  /** What a finished scan has achieved. */
  lemma EndOfScan(ti: TargetInfo, m: RangesMap, free0: set<Reg>, trace: Trace, s: ScanState, all: set<LiveInterval>)
    requires WellFormed(m) && |m| <= 0x4000_0000 && all == Intervals(m) <= s.done
    requires Run(Start(ti, all, m.Keys, free0), trace, s)
    ensures NonInterfering(m, s.alloc)
    ensures forall v :: v in s.alloc && IsPhysical(s.alloc[v]) ==> s.alloc[v] in free0
    ensures forall v :: v in s.alloc && IsStackSlot(s.alloc[v]) ==> StackSlot2Index(s.alloc[v]) < s.slots
    ensures s.slots == |SpilledBy(all, s.alloc)|
    ensures forall across :: UniformClass(all, across) ==>
      && (forall v :: v in s.alloc && IsPhysical(s.alloc[v]) ==> InClass(ti, s.alloc[v], across))
      && FewestSpills(all, Eligible(ti, free0, m.Keys, across), s.slots)
    ensures Separable(ti, all, free0, m.Keys) ==> forall across :: FewestOfClass(ti, all, free0, m.Keys, s.alloc, across)
  {
    IntervalsKeyed(m);
    StartFrugal(ti, all, m.Keys, free0);
    RunInv(Start(ti, all, m.Keys, free0), trace, s, |trace.steps|);
    FinalState(m, s);
  }

  /** A run over the intervals of one function. */
  ghost predicate IsRun(ti: TargetInfo, m: RangesMap, free0: set<Reg>, trace: Trace, s: ScanState) {
    WellFormed(m) && |m| <= 0x4000_0000 && Run(Start(ti, Intervals(m), m.Keys, free0), trace, s)
  }

  lemma IsRunInv(ti: TargetInfo, m: RangesMap, free0: set<Reg>, trace: Trace, s: ScanState)
    requires IsRun(ti, m, free0, trace, s)
    ensures Inv(s) && s.ti == ti && s.all == Intervals(m) && s.named == m.Keys && s.free0 == free0
  {
    IntervalsKeyed(m);
    StartFrugal(ti, Intervals(m), m.Keys, free0);
    RunInv(Start(ti, Intervals(m), m.Keys, free0), trace, s, |trace.steps|);
  }

  lemma SameFunction(ti: TargetInfo, m: RangesMap, free0: set<Reg>, trace: Trace, s: ScanState)
    requires IsRun(ti, m, free0, trace, s)
    ensures s.ti == ti && s.all == Intervals(m) && s.named == m.Keys && s.free0 == free0
    ensures forall i :: i in Intervals(m) ==> i.start < i.end
  {
    IsRunInv(ti, m, free0, trace, s);
  }

  lemma ActiveHasRegisters(ti: TargetInfo, m: RangesMap, free0: set<Reg>, trace: Trace, s: ScanState)
    requires IsRun(ti, m, free0, trace, s)
    ensures s.act <= s.done && forall a :: a in s.act ==> a.reg in s.alloc && IsPhysical(s.alloc[a.reg])
  {
    IsRunInv(ti, m, free0, trace, s);
  }

  lemma ExpireStep(ti: TargetInfo, m: RangesMap, free0: set<Reg>, trace: Trace, s: ScanState, li: LiveInterval,
                   gone: set<LiveInterval>)
    requires IsRun(ti, m, free0, trace, s) && Enabled(s, Expire(li, gone))
    ensures var t := Apply(s, Expire(li, gone));
            && IsRun(ti, m, free0, Extended(trace, Expire(li, gone), t), t)
            && Free(t) == Free(s) + Locations(gone, s.alloc)
  {
    IsRunInv(ti, m, free0, trace, s);
    ExpiredInv(s, li, gone);
    Extend(Start(ti, Intervals(m), m.Keys, free0), trace, s, Expire(li, gone));
  }

  lemma TakeStep(ti: TargetInfo, m: RangesMap, free0: set<Reg>, trace: Trace, s: ScanState, li: LiveInterval, r: Reg)
    requires IsRun(ti, m, free0, trace, s) && Enabled(s, Take(li, r))
    ensures var t := Apply(s, Take(li, r)); IsRun(ti, m, free0, Extended(trace, Take(li, r), t), t) && Free(t) == Free(s) - {r}
  {
    IsRunInv(ti, m, free0, trace, s);
    TakenInv(s, li, r);
    Extend(Start(ti, Intervals(m), m.Keys, free0), trace, s, Take(li, r));
  }

  lemma EvictStep(ti: TargetInfo, m: RangesMap, free0: set<Reg>, trace: Trace, s: ScanState, li: LiveInterval, x: LiveInterval)
    requires IsRun(ti, m, free0, trace, s) && Ready(s, li) && NoneLeft(s, li)
    requires x in s.act + {li} && forall c :: c in s.act + {li} ==> c.end <= x.end
    ensures Enabled(s, Evict(li, x))
    ensures var t := Apply(s, Evict(li, x)); IsRun(ti, m, free0, Extended(trace, Evict(li, x), t), t) && Free(t) == Free(s)
  {
    IsRunInv(ti, m, free0, trace, s);
    SlotsLeft(s.all, s.done, s.alloc, li);
    EvictedInv(s, li, x);
    Extend(Start(ti, Intervals(m), m.Keys, free0), trace, s, Evict(li, x));
  }

  lemma SlotsLeftIn(ti: TargetInfo, m: RangesMap, free0: set<Reg>, trace: Trace, s: ScanState, li: LiveInterval)
    requires IsRun(ti, m, free0, trace, s) && li in s.all - s.done
    ensures s.slots < 0x4000_0000 && li !in s.act && forall a :: a in s.act ==> a.reg in s.alloc
  {
    IsRunInv(ti, m, free0, trace, s);
    SlotsLeft(s.all, s.done, s.alloc, li);
  }

  /** The part of the active list that has not ended by `p`, when `gone` has been taken off `act`. */
  ghost predicate Expiring(s: seq<LiveInterval>, act: set<LiveInterval>, gone: set<LiveInterval>, p: nat) {
    SortedByEnd(s) && NoDup(s) && gone <= act && Elems(s) == act - gone && forall a :: a in gone ==> a.end <= p
  }

  lemma ExpireFirst(s: seq<LiveInterval>, act: set<LiveInterval>, gone: set<LiveInterval>, p: nat)
    requires Expiring(s, act, gone, p) && s != [] && s[0].end <= p
    ensures Expiring(s[1..], act, gone + {s[0]}, p) && s[0] in act
  {
    DropFirst(s);
    FirstEndsFirst(s, p);
    assert act - (gone + {s[0]}) == (act - gone) - {s[0]};
  }

  lemma GiveBack(flags: map<Reg, bool>, free: set<Reg>, gone: set<LiveInterval>, alloc: map<Reg, Reg>, a: LiveInterval)
    requires a.reg in alloc && FreeIn(flags) == free + Locations(gone, alloc)
    ensures FreeIn(flags[alloc[a.reg] := true]) == free + Locations(gone + {a}, alloc)
  {
    FlagChange(flags, alloc[a.reg]);
    LocationsGrow(gone, alloc, a);
  }

  /** The fixed list holds the ranges of the physical registers that `m` names. */
  ghost predicate Covers(fixed: seq<LiveInterval>, m: RangesMap) {
    && (forall k :: 0 <= k < |fixed| ==> fixed[k].start < fixed[k].end && fixed[k].reg in m)
    && (forall r :: r in m && IsPhysical(r) ==> exists k :: 0 <= k < |fixed| && fixed[k].reg == r)
  }

  /** `after` is `before` with `li` added and the interval that ends last taken out again. */
  ghost predicate EvictsLatest(before: seq<LiveInterval>, li: LiveInterval, victim: LiveInterval, after: seq<LiveInterval>) {
    && victim in Elems(before) + {li} && (forall c :: c in Elems(before) + {li} ==> c.end <= victim.end)
    && NoDup(after) && Elems(after) == Elems(before) + {li} - {victim}
  }

  lemma EvictLast(s: seq<LiveInterval>, li: LiveInterval)
    requires s != [] && NoDup(s) && SortedByEnd(s) && li !in Elems(s) && li.end < s[|s| - 1].end
    ensures EvictsLatest(s, li, s[|s| - 1], s[..|s| - 1] + [li]) && s[|s| - 1] in Elems(s)
  {
    ReplaceLast(s, li);
  }

  lemma EvictNew(s: seq<LiveInterval>, li: LiveInterval)
    requires NoDup(s) && SortedByEnd(s) && li !in Elems(s) && (s == [] || s[|s| - 1].end <= li.end)
    ensures EvictsLatest(s, li, li, s)
  {
    LastEndsLast(s, li.end);
    assert Elems(s) + {li} - {li} == Elems(s);
  }

  class LinearScanRegisterAllocator {
    const ti: TargetInfo
    var unhandled: set<LiveInterval>
    var fixed: seq<LiveInterval>
    var active: seq<LiveInterval>
    var spilled: seq<LiveInterval>
    var freeRegisters: map<Reg, bool>
    var virtToAlloc: map<Reg, Reg>
    var stackSlotIndex: nat

    ghost predicate PhysicalPool()
      reads this
    {
      forall r :: r in freeRegisters ==> IsPhysical(r)
    }

    /** Between two functions the queue is empty. */
    ghost predicate Valid()
      reads this
    {
      unhandled == {} && PhysicalPool()
    }

    ghost function FreeSet(): set<Reg>
      reads this
    {
      FreeIn(freeRegisters)
    }

    constructor (ti: TargetInfo)
      requires forall r :: r in ti.freeRegs ==> IsPhysical(r)
      ensures this.ti == ti && Valid() && FreeSet() == ti.freeRegs
    {
      this.ti := ti;
      freeRegisters := map r | r in ti.freeRegs :: true;
      unhandled, fixed, active, spilled, virtToAlloc, stackSlotIndex := {}, [], [], [], map[], 0;
    }

    method InitIntervalSets(m: RangesMap)
      requires unhandled == {} && fixed == [] && WellFormed(m)
      modifies this`unhandled, this`fixed
      ensures unhandled == Intervals(m) && Covers(fixed, m)
    {
      var todo := m.Keys;
      while todo != {}
        invariant todo <= m.Keys
        invariant unhandled == set v | v in m.Keys - todo && IsVirtual(v) :: IntervalOf(m, v)
        invariant forall k :: 0 <= k < |fixed| ==> fixed[k].start < fixed[k].end && fixed[k].reg in m
        invariant forall r :: r in m.Keys - todo && IsPhysical(r) ==> exists k :: 0 <= k < |fixed| && fixed[k].reg == r
        decreases todo
      {
        var r :| r in todo;
        if IsVirtual(r) {
          unhandled := unhandled + {IntervalOf(m, r)};
        }
        if IsPhysical(r) {
          PushFixed(r, m[r]);
        }
        todo := todo - {r};
      }
    }

    method PushFixed(r: Reg, ranges: seq<LiveRange>)
      requires ranges != [] && forall k :: 0 <= k < |ranges| ==> ranges[k].start < ranges[k].end
      modifies this`fixed
      ensures |fixed| == |old(fixed)| + |ranges| && fixed[..|old(fixed)|] == old(fixed)
      ensures forall k :: |old(fixed)| <= k < |fixed| ==>
                var range := ranges[k - |old(fixed)|];
                fixed[k] == LiveInterval(range.start, range.end, r, range.usedAcrossCall)
      ensures exists k :: 0 <= k < |fixed| && fixed[k].reg == r
      ensures forall k :: 0 <= k < |old(fixed)| ==> fixed[k] == old(fixed)[k]
    {
      for n := 0 to |ranges|
        invariant |fixed| == |old(fixed)| + n && fixed[..|old(fixed)|] == old(fixed)
        invariant forall k :: |old(fixed)| <= k < |fixed| ==>
                    var range := ranges[k - |old(fixed)|];
                    fixed[k] == LiveInterval(range.start, range.end, r, range.usedAcrossCall)
      {
        fixed := fixed + [LiveInterval(ranges[n].start, ranges[n].end, r, ranges[n].usedAcrossCall)];
      }
      assert fixed[|old(fixed)|].reg == r;
      assert forall k :: 0 <= k < |old(fixed)| ==> fixed[k] == fixed[..|old(fixed)|][k];
    }

    method Top() returns (li: LiveInterval)
      requires unhandled != {}
      ensures IsFirst(li, unhandled)
    {
      FirstExists(unhandled);
      li :| li in unhandled && IsFirst(li, unhandled);
    }

    /** Some permutation ordered by end; nothing else is known about ties. */
    method SortActive()
      requires NoDup(active)
      modifies this`active
      ensures SortedByEnd(active) && NoDup(active) && Elems(active) == old(Elems(active))
    {
      var rest, sorted := active, [];
      ghost var all := Elems(active);
      while rest != []
        invariant SortedByEnd(sorted) && active == old(active)
        invariant Elems(sorted) + Elems(rest) == all && |sorted| + |rest| == |active|
      {
        assert rest == [rest[0]] + rest[1..];
        ElemsConcat([rest[0]], rest[1..]);
        ElemsOne(rest[0]);
        sorted := Inserted(sorted, rest[0]);
        rest := rest[1..];
      }
      assert Elems(rest) == {};
      assert Elems(sorted) == all;
      active := sorted;
    }

    static method Inserted(s: seq<LiveInterval>, x: LiveInterval) returns (t: seq<LiveInterval>)
      requires SortedByEnd(s)
      ensures SortedByEnd(t) && Elems(t) == Elems(s) + {x} && |t| == |s| + 1
    {
      var k := |s|;
      while k > 0 && x.end < s[k - 1].end
        invariant 0 <= k <= |s|
        invariant forall j :: k <= j < |s| ==> x.end < s[j].end
      {
        k := k - 1;
      }
      InsertAt(s, k, x);
      InsertKeepsOrder(s, k, x);
      t := s[..k] + [x] + s[k..];
    }

    method ExpireOldIntervals(li: LiveInterval) returns (ghost gone: set<LiveInterval>)
      requires PhysicalPool() && SortedByEnd(active) && NoDup(active)
      requires forall a :: a in Elems(active) ==> a.reg in virtToAlloc && IsPhysical(virtToAlloc[a.reg])
      modifies this`active, this`freeRegisters
      ensures PhysicalPool() && SortedByEnd(active) && NoDup(active)
      ensures gone <= old(Elems(active)) && Elems(active) == old(Elems(active)) - gone
      ensures (forall a :: a in gone ==> a.end <= li.start) && forall a :: a in Elems(active) ==> li.start < a.end
      ensures FreeSet() == old(FreeSet()) + Locations(gone, virtToAlloc)
    {
      gone := {};
      ghost var alloc, act, free := virtToAlloc, Elems(active), FreeSet();
      while active != [] && active[0].end <= li.start
        invariant Expiring(active, act, gone, li.start) && PhysicalPool()
        invariant FreeIn(freeRegisters) == free + Locations(gone, alloc)
      {
        var a := active[0];
        ExpireFirst(active, act, gone, li.start);
        GiveBack(freeRegisters, free, gone, alloc, a);
        freeRegisters := freeRegisters[virtToAlloc[a.reg] := true];
        active := active[1..];
        gone := gone + {a};
      }
      FirstEndsFirst(active, li.start);
    }

    /** Any free register of the right class without a fixed range; the order of the search is
        unknown. The overlap test holds of every two nonempty ranges, so one fixed range anywhere
        in the function rules a register out. */
    method GetFreePhysReg(li: LiveInterval, ghost m: RangesMap) returns (r: Reg)
      requires Covers(fixed, m) && li.start < li.end && PhysicalPool()
      ensures r != NO_REGISTER ==> r in FreeIn(freeRegisters) && InClass(ti, r, li.usedAcrossCall) && r !in m
      ensures r == NO_REGISTER ==> forall q :: q in FreeIn(freeRegisters) && InClass(ti, q, li.usedAcrossCall) ==> q in m
    {
      var todo := freeRegisters.Keys;
      while todo != {}
        invariant todo <= freeRegisters.Keys
        invariant forall q :: q in FreeIn(freeRegisters) - todo && InClass(ti, q, li.usedAcrossCall) ==> q in m
        decreases todo
      {
        var reg :| reg in todo;
        todo := todo - {reg};
        if !freeRegisters[reg] { continue; }
        var conflict := false;
        for n := 0 to |fixed|
          invariant !conflict && forall k :: 0 <= k < n ==> fixed[k].reg != reg
        {
          if fixed[n].reg != reg { continue; }
          if fixed[n].end > li.start || fixed[n].start < li.end {
            conflict := true;
            break;
          }
        }
        if conflict { continue; }
        if li.usedAcrossCall && reg !in ti.calleeSaved { continue; }
        if !li.usedAcrossCall && reg !in ti.callerSaved { continue; }
        return reg;
      }
      return NO_REGISTER;
    }

    /** The active interval that ends last gives up its register if it ends after `li`; its call
        class is not looked at. */
    method SpillAtInterval(li: LiveInterval) returns (ghost victim: LiveInterval)
      requires SortedByEnd(active) && NoDup(active) && li !in Elems(active) && stackSlotIndex < 0x4000_0000
      requires forall a :: a in Elems(active) ==> a.reg in virtToAlloc
      modifies this`active, this`virtToAlloc, this`spilled, this`stackSlotIndex
      ensures stackSlotIndex == old(stackSlotIndex) + 1 && |spilled| == |old(spilled)| + 1
      ensures EvictsLatest(old(active), li, victim, active) && (victim != li ==> victim.reg in old(virtToAlloc))
      ensures virtToAlloc == Spill(old(virtToAlloc), old(stackSlotIndex), li, victim)
    {
      if active != [] && active[|active| - 1].end > li.end {
        victim := StealLast(li);
      } else {
        EvictNew(active, li);
        victim := li;
        MoveToSlot(li);
      }
    }

    /** The interval that ends last goes to a stack slot, and `li` takes its register and its place. */
    method StealLast(li: LiveInterval) returns (ghost victim: LiveInterval)
      requires SortedByEnd(active) && NoDup(active) && li !in Elems(active) && stackSlotIndex < 0x4000_0000
      requires active != [] && active[|active| - 1].end > li.end && active[|active| - 1].reg in virtToAlloc
      modifies this`active, this`virtToAlloc, this`spilled, this`stackSlotIndex
      ensures stackSlotIndex == old(stackSlotIndex) + 1 && |spilled| == |old(spilled)| + 1
      ensures EvictsLatest(old(active), li, victim, active) && victim != li && victim.reg in old(virtToAlloc)
      ensures virtToAlloc == Spill(old(virtToAlloc), old(stackSlotIndex), li, victim)
    {
      EvictLast(active, li);
      var back := active[|active| - 1];
      victim := back;
      virtToAlloc := virtToAlloc[li.reg := virtToAlloc[back.reg]];
      MoveToSlot(back);
      active := active[..|active| - 1] + [li];
    }

    method MoveToSlot(x: LiveInterval)
      requires stackSlotIndex < 0x4000_0000
      modifies this`virtToAlloc, this`spilled, this`stackSlotIndex
      ensures virtToAlloc == old(virtToAlloc)[x.reg := Index2StackSlot(old(stackSlotIndex))]
      ensures stackSlotIndex == old(stackSlotIndex) + 1 && spilled == old(spilled) + [x]
    {
      virtToAlloc := virtToAlloc[x.reg := Index2StackSlot(stackSlotIndex)];
      stackSlotIndex := stackSlotIndex + 1;
      spilled := spilled + [x];
    }

    method TakeRegister(li: LiveInterval, physReg: Reg)
      requires PhysicalPool() && NoDup(active) && li !in Elems(active) && IsPhysical(physReg)
      modifies this`active, this`freeRegisters, this`virtToAlloc
      ensures PhysicalPool() && NoDup(active) && Elems(active) == old(Elems(active)) + {li}
      ensures virtToAlloc == old(virtToAlloc)[li.reg := physReg] && FreeSet() == old(FreeSet()) - {physReg}
    {
      FlagChange(freeRegisters, physReg);
      AddLast(active, li);
      freeRegisters := freeRegisters[physReg := false];
      virtToAlloc := virtToAlloc[li.reg := physReg];
      active := active + [li];
    }

    /** The fields implement the abstract state `s`. */
    ghost predicate Implements(s: ScanState)
      reads this
    {
      && Elems(active) == s.act && NoDup(active) && virtToAlloc == s.alloc && FreeSet() == Free(s)
      && stackSlotIndex == |spilled| == s.slots && PhysicalPool()
    }

    /** Brings the active list up to the start of the next interval. */
    method Advance(li: LiveInterval, ghost m: RangesMap, ghost free0: set<Reg>, ghost trace: Trace, ghost s: ScanState)
      returns (ghost trace': Trace, ghost t: ScanState)
      requires Implements(s) && IsRun(ti, m, free0, trace, s) && IsNext(s, li)
      modifies this`active, this`freeRegisters
      ensures Implements(t) && SortedByEnd(active) && IsRun(ti, m, free0, trace', t)
      ensures Ready(t, li) && t.done == s.done
    {
      ActiveHasRegisters(ti, m, free0, trace, s);
      SortActive();
      ghost var gone := ExpireOldIntervals(li);
      ExpireStep(ti, m, free0, trace, s, li, gone);
      t := Apply(s, Expire(li, gone));
      trace' := Extended(trace, Expire(li, gone), t);
    }

    /** Finds a register or a slot for the next interval. */
    method Settle(li: LiveInterval, ghost m: RangesMap, ghost free0: set<Reg>, ghost trace: Trace, ghost s: ScanState)
      returns (ghost trace': Trace, ghost t: ScanState)
      requires Implements(s) && SortedByEnd(active) && IsRun(ti, m, free0, trace, s) && Ready(s, li) && Covers(fixed, m)
      modifies this`active, this`freeRegisters, this`virtToAlloc, this`spilled, this`stackSlotIndex
      ensures Implements(t) && IsRun(ti, m, free0, trace', t)
      ensures t.now == li.start && t.done == s.done + {li}
    {
      SameFunction(ti, m, free0, trace, s);
      SlotsLeftIn(ti, m, free0, trace, s, li);
      var physReg := GetFreePhysReg(li, m);
      if physReg != NO_REGISTER {
        TakeStep(ti, m, free0, trace, s, li, physReg);
        TakeRegister(li, physReg);
        t := Apply(s, Take(li, physReg));
        trace' := Extended(trace, Take(li, physReg), t);
      } else {
        ghost var victim := SpillAtInterval(li);
        EvictStep(ti, m, free0, trace, s, li, victim);
        t := Apply(s, Evict(li, victim));
        trace' := Extended(trace, Evict(li, victim), t);
      }
    }

    /** Empties what is left from the function before, the free set apart, and fills the queue. */
    method Begin(m: RangesMap) returns (ghost trace: Trace, ghost s: ScanState)
      requires Valid() && WellFormed(m) && |m| <= 0x4000_0000
      modifies this
      ensures Implements(s) && IsRun(ti, m, old(FreeSet()), trace, s) && Covers(fixed, m)
      ensures unhandled == Intervals(m) && s.done == {} && s.now == 0
    {
      fixed, active, spilled, virtToAlloc, stackSlotIndex := [], [], [], map[], 0;
      InitIntervalSets(m);
      s := Start(ti, Intervals(m), m.Keys, FreeSet());
      trace := Trace([s], []);
    }

    /** Allocates one function. The free set is the only state that survives from the function
        before: the registers still held when a scan ends are not given back. */
    method DoRegAlloc(m: RangesMap)
      requires Valid() && WellFormed(m) && |m| <= 0x4000_0000
      modifies this
      ensures Valid()
      ensures NonInterfering(m, virtToAlloc)
      ensures forall v :: v in virtToAlloc && IsPhysical(virtToAlloc[v]) ==> virtToAlloc[v] in old(FreeSet())
      ensures FreeSet() == old(FreeSet()) - Locations(Elems(active), virtToAlloc)
      ensures |spilled| == |SpilledBy(Intervals(m), virtToAlloc)|
      ensures forall v :: v in virtToAlloc && IsStackSlot(virtToAlloc[v]) ==> StackSlot2Index(virtToAlloc[v]) < |spilled|
      ensures forall across :: UniformClass(Intervals(m), across) ==>
        && (forall v :: v in virtToAlloc && IsPhysical(virtToAlloc[v]) ==> InClass(ti, virtToAlloc[v], across))
        && FewestSpills(Intervals(m), Eligible(ti, old(FreeSet()), m.Keys, across), |spilled|)
      ensures Separable(ti, Intervals(m), old(FreeSet()), m.Keys) ==>
                forall across :: FewestOfClass(ti, Intervals(m), old(FreeSet()), m.Keys, virtToAlloc, across)
    {
      ghost var free0 := FreeSet();
      ghost var trace, s := Begin(m);
      while unhandled != {}
        invariant Implements(s) && IsRun(ti, m, free0, trace, s) && Covers(fixed, m)
        invariant unhandled == Intervals(m) - s.done && forall i :: i in unhandled ==> s.now <= i.start
        decreases unhandled
      {
        var li := Top();
        SameFunction(ti, m, free0, trace, s);
        assert IsNext(s, li);
        trace, s := Advance(li, m, free0, trace, s);
        trace, s := Settle(li, m, free0, trace, s);
        unhandled := unhandled - {li};
      }
      SameFunction(ti, m, free0, trace, s);
      EndOfScan(ti, m, free0, trace, s, Intervals(m));
    }
  }
}
