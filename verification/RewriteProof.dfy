/** Whole instruction lists: the rewritten list does what the list over virtual registers does. */
module RewriteProof {
  import opened Options
  import opened Registers
  import opened RegAlloc
  import opened RiscV
  import opened SpillCode

  /** One instruction after both passes. */
  function Rewritten(lay: Layout, alloc: Allocation, i: Instr): Expansion {
    var p := ToPhys(alloc, i);
    Expand(lay, alloc, p, 0, UsedRegs(p.ops), 0)
  }

  function RewrittenAll(lay: Layout, alloc: Allocation, code: seq<Instr>): seq<Instr> {
    if code == [] then [] else Code(Rewritten(lay, alloc, code[0])) + RewrittenAll(lay, alloc, code[1..])
  }

  /** The reserved cells that the frame needs: as many as the instruction that displaces most. */
  function MaxReserved(lay: Layout, alloc: Allocation, code: seq<Instr>): nat {
    if code == [] then 0 else
    var n, rest := Rewritten(lay, alloc, code[0]).reserved, MaxReserved(lay, alloc, code[1..]);
    if n > rest then n else rest
  }

  // ---------------------------------------------------------------------------------------------
  // Which lists
  // ---------------------------------------------------------------------------------------------

  ghost predicate InInterval(m: RangesMap, v: Reg, at: nat)
    requires WellFormed(m)
  {
    v in m && IntervalOf(m, v).start <= at < IntervalOf(m, v).end
  }

  /** The instruction at `at` names registers whose ranges cover `at`, no stack slots, and does not write the
      frame pointer. */
  ghost predicate InstrOk(m: RangesMap, i: Instr, at: nat)
    requires WellFormed(m)
  {
    && Shaped(i)
    && (forall k :: 0 <= k < |i.ops| && !i.ops[k].ImmOp? ==> RegOk(m, RegIn(i.ops[k]), at))
    && (WritesReg(i) ==> RegIn(i.ops[0]) != FP)
  }

  ghost predicate RegOk(m: RangesMap, r: Reg, at: nat)
    requires WellFormed(m)
  {
    if IsVirtual(r) then InInterval(m, r, at) else IsPhysical(r) && r in m
  }

  ghost predicate CodeOk(m: RangesMap, code: seq<Instr>, at: nat)
    requires WellFormed(m)
  {
    forall k :: 0 <= k < |code| ==> InstrOk(m, code[k], at + k)
  }

  /** What register allocation gives, on a frame with a slot for every spilled register. */
  ghost predicate Allocated(fr: Frame, m: RangesMap, alloc: Allocation) {
    WellFormed(m) && NonInterfering(m, alloc) && AllocOk(fr, alloc)
  }

  // ---------------------------------------------------------------------------------------------
  // Before and after an instruction
  // ---------------------------------------------------------------------------------------------

  /** The register has occurred before `at`, and may occur at `at` or later. */
  ghost predicate Active(m: RangesMap, v: Reg, at: nat)
    requires WellFormed(m)
  {
    IsVirtual(v) && v in m && IntervalOf(m, v).start < at < IntervalOf(m, v).end
  }

  /** Memory outside the frame is the same. */
  ghost predicate SameMemory(fr: Frame, src: Machine, t: Machine) {
    forall a :: a in src.mem ==> a in t.mem && t.mem[a] == src.mem[a] && !InFrame(fr, a)
  }

  /** Every active virtual register's value is where the allocation has put it. */
  ghost predicate ValuesInPlace(fr: Frame, m: RangesMap, alloc: Allocation, at: nat, src: Machine, t: Machine)
    requires WellFormed(m)
  {
    forall v :: v in src.regs && Active(m, v, at) ==> v in alloc && Read(fr, t, alloc[v]) == Some(src.regs[v])
  }

  /** Physical registers that the function names are the same. */
  ghost predicate SameNamed(m: RangesMap, src: Machine, t: Machine) {
    forall p :: p in src.regs && IsPhysical(p) && p in m ==> p in t.regs && t.regs[p] == src.regs[p]
  }

  /** Virtual registers have values only from their first occurrence on. */
  ghost predicate Begun(m: RangesMap, at: nat, src: Machine)
    requires WellFormed(m)
  {
    forall v :: v in src.regs && IsVirtual(v) ==> v in m && IntervalOf(m, v).start < at
  }

  ghost predicate Simulates(fr: Frame, m: RangesMap, alloc: Allocation, at: nat, src: Machine, t: Machine)
    requires WellFormed(m)
  {
    && FrameReady(fr, t) && SameMemory(fr, src, t) && ValuesInPlace(fr, m, alloc, at, src, t)
    && SameNamed(m, src, t) && Begun(m, at, src)
  }

  /** A register that the instruction reads has its value in its place. */
  lemma RegisterRead(fr: Frame, m: RangesMap, alloc: Allocation, at: nat, src: Machine, t: Machine, r: Reg)
    requires Allocated(fr, m, alloc) && Simulates(fr, m, alloc, at, src, t) && RegOk(m, r, at)
    requires r in src.regs
    ensures Read(fr, t, Locate(alloc, r)) == Some(src.regs[r])
  {
  }

  lemma OperandRead(fr: Frame, m: RangesMap, alloc: Allocation, at: nat, src: Machine, t: Machine, o: Operand)
    requires Allocated(fr, m, alloc) && Simulates(fr, m, alloc, at, src, t) && (!o.ImmOp? ==> RegOk(m, RegIn(o), at))
    requires ReadOp(fr, src, o).Some?
    ensures ReadOp(fr, t, LocateOp(alloc, o)) == ReadOp(fr, src, o)
  {
    if !o.ImmOp? {
      RegisterRead(fr, m, alloc, at, src, t, RegIn(o));
    }
  }

  /** The instruction over places produces the same. */
  lemma SameProduct(fr: Frame, m: RangesMap, alloc: Allocation, at: nat, i: Instr, src: Machine, t: Machine)
    requires Allocated(fr, m, alloc) && Simulates(fr, m, alloc, at, src, t) && InstrOk(m, i, at)
    requires Produces(fr, i, src).Some?
    ensures Shaped(OverPlaces(alloc, i)) && Produces(fr, OverPlaces(alloc, i), t) == Produces(fr, i, src)
  {
    var l := OverPlaces(alloc, i);
    forall k | 0 <= k < |i.ops| && ReadOp(fr, src, i.ops[k]).Some?
      ensures ReadOp(fr, t, l.ops[k]) == ReadOp(fr, src, i.ops[k])
    {
      OperandRead(fr, m, alloc, at, src, t, i.ops[k]);
    }
  }

  /** A virtual register that stays active across the instruction lies elsewhere than what it writes. */
  lemma OthersElsewhere(fr: Frame, m: RangesMap, alloc: Allocation, at: nat, src: Machine, t: Machine, d: Reg, v: Reg)
    requires Allocated(fr, m, alloc) && Simulates(fr, m, alloc, at, src, t) && RegOk(m, d, at)
    requires v in src.regs && Active(m, v, at + 1) && v != d
    ensures Active(m, v, at) && v in alloc && alloc[v] != Locate(alloc, d)
  {
    assert IntervalOf(m, v).start < at;
    assert IsVirtual(d) ==> !Disjoint(IntervalOf(m, v), IntervalOf(m, d));
  }

  lemma WriteReads(fr: Frame, t: Machine, d: Reg, r: Reg, n: int)
    ensures Read(fr, Write(fr, t, d, n), r) == if r == d then Some(n) else Read(fr, t, r)
  {
  }

  lemma WriteIsReady(fr: Frame, t: Machine, d: Reg, n: int)
    requires FrameReady(fr, t) && d != FP
    ensures FrameReady(fr, Write(fr, t, d, n))
  {
  }

  lemma WriteSimulates(fr: Frame, m: RangesMap, alloc: Allocation, at: nat, src: Machine, t: Machine, d: Reg, n: int)
    requires Allocated(fr, m, alloc) && Simulates(fr, m, alloc, at, src, t) && RegOk(m, d, at) && d != FP
    ensures Simulates(fr, m, alloc, at + 1, Write(fr, src, d, n), Write(fr, t, Locate(alloc, d), n))
  {
    var src', t' := Write(fr, src, d, n), Write(fr, t, Locate(alloc, d), n);
    FreeRegsArePhysical();
    assert Locate(alloc, d) != FP;
    WriteIsReady(fr, t, Locate(alloc, d), n);
    forall v | v in src'.regs && Active(m, v, at + 1) ensures v in alloc && Read(fr, t', alloc[v]) == Some(src'.regs[v]) {
      if v != d {
        OthersElsewhere(fr, m, alloc, at, src, t, d, v);
      }
      WriteReads(fr, t, Locate(alloc, d), alloc[v], n);
    }
    forall a | a in src'.mem ensures a in t'.mem && t'.mem[a] == src'.mem[a] && !InFrame(fr, a) {
      SlotIsInFrame(fr, m, alloc, d);
    }
    forall p | p in src'.regs && IsPhysical(p) && p in m ensures p in t'.regs && t'.regs[p] == src'.regs[p] {
      assert IsVirtual(d) ==> d in alloc && alloc[d] != p;
    }
  }

  lemma SlotIsInFrame(fr: Frame, m: RangesMap, alloc: Allocation, d: Reg)
    requires Allocated(fr, m, alloc) && !IsStackSlot(d)
    ensures IsStackSlot(Locate(alloc, d)) ==> InFrame(fr, Cell(fr, StackSlot2Index(Locate(alloc, d))))
  {
    var r := Locate(alloc, d);
    if IsStackSlot(r) {
      assert 0 <= StackSlot2Index(r) < CellCount(fr);
    }
  }

  lemma NextSimulates(fr: Frame, m: RangesMap, alloc: Allocation, at: nat, src: Machine, t: Machine)
    requires Allocated(fr, m, alloc) && Simulates(fr, m, alloc, at, src, t)
    ensures Simulates(fr, m, alloc, at + 1, src, t)
  {
    forall v | v in src.regs && Active(m, v, at + 1) ensures v in alloc && Read(fr, t, alloc[v]) == Some(src.regs[v]) {
      assert Active(m, v, at);
    }
  }

  lemma StoreSimulates(fr: Frame, m: RangesMap, alloc: Allocation, at: nat, src: Machine, t: Machine, a: int, n: int)
    requires Allocated(fr, m, alloc) && Simulates(fr, m, alloc, at, src, t) && a in src.mem
    ensures Simulates(fr, m, alloc, at, src.(mem := src.mem[a := n]), t.(mem := t.mem[a := n]))
  {
    var src', t' := src.(mem := src.mem[a := n]), t.(mem := t.mem[a := n]);
    forall v | v in src'.regs && Active(m, v, at) ensures v in alloc && Read(fr, t', alloc[v]) == Some(src'.regs[v]) {
      SlotIsInFrame(fr, m, alloc, v);
    }
  }

  /** One instruction over the places that the allocation gives. */
  lemma LocatedSimulates(fr: Frame, m: RangesMap, alloc: Allocation, at: nat, i: Instr, src: Machine, t: Machine)
    requires Allocated(fr, m, alloc) && Simulates(fr, m, alloc, at, src, t) && InstrOk(m, i, at) && Exec(fr, i, src).Some?
    ensures Exec(fr, OverPlaces(alloc, i), t).Some? && Avoids(fr, OverPlaces(alloc, i), t)
    ensures Simulates(fr, m, alloc, at + 1, Exec(fr, i, src).value, Exec(fr, OverPlaces(alloc, i), t).value)
  {
    SameProduct(fr, m, alloc, at, i, src, t);
    var l := OverPlaces(alloc, i);
    var n := Produces(fr, i, src).value;
    LocatedAvoids(fr, m, alloc, at, i, src, t);
    if i.op.SD? {
      OperandRead(fr, m, alloc, at, src, t, i.ops[1]);
      StoreSimulates(fr, m, alloc, at, src, t, ReadOp(fr, src, i.ops[1]).value, n);
      NextSimulates(fr, m, alloc, at, Exec(fr, i, src).value, Exec(fr, l, t).value);
    } else {
      assert l.ops[0] == RegOp(Locate(alloc, i.ops[0].reg));
      WriteSimulates(fr, m, alloc, at, src, t, i.ops[0].reg, n);
    }
  }

  lemma LocatedAvoids(fr: Frame, m: RangesMap, alloc: Allocation, at: nat, i: Instr, src: Machine, t: Machine)
    requires Allocated(fr, m, alloc) && Simulates(fr, m, alloc, at, src, t) && InstrOk(m, i, at) && Exec(fr, i, src).Some?
    ensures Avoids(fr, OverPlaces(alloc, i), t)
  {
    var l := OverPlaces(alloc, i);
    FreeRegsArePhysical();
    forall k | 0 <= k < |l.ops| && l.ops[k].MemOp? && ReadOp(fr, t, l.ops[k]).Some?
      ensures !InFrame(fr, ReadOp(fr, t, l.ops[k]).value)
    {
      assert l.ops[k] == LocateOp(alloc, i.ops[k]) && k == 1;
      OperandRead(fr, m, alloc, at, src, t, i.ops[1]);
    }
    if WritesReg(l) {
      assert l.ops[0] == LocateOp(alloc, i.ops[0]);
    }
  }

  // ---------------------------------------------------------------------------------------------
  // Whole lists
  // ---------------------------------------------------------------------------------------------

  lemma ToPhysFirst(alloc: Allocation, i: Instr)
    requires forall v :: v in alloc && IsPhysical(alloc[v]) ==> !IsVirtual(alloc[v])
    ensures OverPlaces(alloc, ToPhys(alloc, i)) == OverPlaces(alloc, i)
  {
    assert OverPlaces(alloc, ToPhys(alloc, i)).ops == OverPlaces(alloc, i).ops;
  }

  /** After the first pass only spilled registers are virtual. */
  lemma ToPhysPending(fr: Frame, m: RangesMap, alloc: Allocation, at: nat, i: Instr)
    requires Allocated(fr, m, alloc) && InstrOk(m, i, at)
    ensures Pending(alloc, ToPhys(alloc, i), 0, UsedRegs(ToPhys(alloc, i).ops))
  {
    var p := ToPhys(alloc, i);
    forall k | 0 <= k < |p.ops|
      ensures !IsStackSlot(RegIn(p.ops[k]))
      ensures IsVirtual(RegIn(p.ops[k])) ==> IsSpilled(alloc, p.ops[k])
    {
      assert p.ops[k] == ToPhysOp(alloc, i.ops[k]);
    }
  }

  /** What the reserved cells hold does not matter between instructions. */
  lemma ReservedDoNotMatter(fr: Frame, m: RangesMap, alloc: Allocation, at: nat, src: Machine, t: Machine, t': Machine)
    requires Allocated(fr, m, alloc) && Simulates(fr, m, alloc, at, src, t) && SameUpTo(fr, 0, t, t')
    ensures Simulates(fr, m, alloc, at, src, t')
  {
    forall a | a in t.mem && !ReservedAt(fr, a) ensures t'.mem[a] == t.mem[a] {
    }
    forall a | a in src.mem ensures a in t'.mem && t'.mem[a] == src.mem[a] {
      assert !ReservedAt(fr, a);
    }
    forall v | v in src.regs && Active(m, v, at) ensures v in alloc && Read(fr, t', alloc[v]) == Some(src.regs[v]) {
      assert IsStackSlot(alloc[v]) ==> !ReservedAt(fr, Cell(fr, StackSlot2Index(alloc[v])));
    }
  }

  ghost predicate ReservedAt(fr: Frame, a: int) {
    exists j :: 0 < j <= fr.reserved && Cell(fr, ReservedCell(fr.lay, j)) == a
  }

  /** One rewritten instruction. */
  lemma InstrSimulates(fr: Frame, m: RangesMap, alloc: Allocation, at: nat, i: Instr, src: Machine, t: Machine)
    requires Allocated(fr, m, alloc) && Simulates(fr, m, alloc, at, src, t) && InstrOk(m, i, at) && Exec(fr, i, src).Some?
    requires Rewritten(fr.lay, alloc, i).reserved <= fr.reserved
    ensures ExecAll(fr, Code(Rewritten(fr.lay, alloc, i)), t).Some?
    ensures Simulates(fr, m, alloc, at + 1, Exec(fr, i, src).value, ExecAll(fr, Code(Rewritten(fr.lay, alloc, i)), t).value)
  {
    var p := ToPhys(alloc, i);
    LocatedSimulates(fr, m, alloc, at, i, src, t);
    ToPhysFirst(alloc, i);
    ToPhysPending(fr, m, alloc, at, i);
    ExpandRuns(fr, alloc, p, 0, UsedRegs(p.ops), 0, t);
    ReservedDoNotMatter(fr, m, alloc, at + 1, Exec(fr, i, src).value, Exec(fr, OverPlaces(alloc, i), t).value,
                        ExecAll(fr, Code(Rewritten(fr.lay, alloc, i)), t).value);
  }

  /** The rewritten list runs as the list over virtual registers does: afterwards the memory outside the frame
      is the same, and so are the registers that the function names, and every virtual register still to be
      used has its value in its place. */
  lemma {:induction false} ListSimulates(fr: Frame, m: RangesMap, alloc: Allocation, at: nat, code: seq<Instr>,
                                         src: Machine, t: Machine)
    requires Allocated(fr, m, alloc) && Simulates(fr, m, alloc, at, src, t) && CodeOk(m, code, at)
    requires ExecAll(fr, code, src).Some? && MaxReserved(fr.lay, alloc, code) <= fr.reserved
    ensures ExecAll(fr, RewrittenAll(fr.lay, alloc, code), t).Some?
    ensures Simulates(fr, m, alloc, at + |code|, ExecAll(fr, code, src).value,
                      ExecAll(fr, RewrittenAll(fr.lay, alloc, code), t).value)
    decreases code
  {
    if code != [] {
      assert InstrOk(m, code[0], at + 0);
      InstrSimulates(fr, m, alloc, at, code[0], src, t);
      var src1 := Exec(fr, code[0], src).value;
      var first := Code(Rewritten(fr.lay, alloc, code[0]));
      var t1 := ExecAll(fr, first, t).value;
      assert CodeOk(m, code[1..], at + 1) by {
        forall k | 0 <= k < |code[1..]| ensures InstrOk(m, code[1..][k], at + 1 + k) {
          assert InstrOk(m, code[k + 1], at + (k + 1));
        }
      }
      ListSimulates(fr, m, alloc, at + 1, code[1..], src1, t1);
      ExecConcat(fr, first, RewrittenAll(fr.lay, alloc, code[1..]), t);
    }
  }

  /** From a state without virtual registers. */
  ghost predicate Starts(fr: Frame, m: RangesMap, src: Machine, t: Machine) {
    && FrameReady(fr, t) && SameMemory(fr, src, t) && SameNamed(m, src, t) && forall v :: v in src.regs ==> !IsVirtual(v)
  }

  /** A function's code, run over virtual registers and run as rewritten, ends with the same memory. */
  lemma RewrittenRuns(fr: Frame, m: RangesMap, alloc: Allocation, code: seq<Instr>, src: Machine, t: Machine)
    requires Allocated(fr, m, alloc) && CodeOk(m, code, 0) && Starts(fr, m, src, t)
    requires ExecAll(fr, code, src).Some? && MaxReserved(fr.lay, alloc, code) <= fr.reserved
    ensures ExecAll(fr, RewrittenAll(fr.lay, alloc, code), t).Some?
    ensures var src', t' := ExecAll(fr, code, src).value, ExecAll(fr, RewrittenAll(fr.lay, alloc, code), t).value;
            SameMemory(fr, src', t') && SameNamed(m, src', t') && ValuesInPlace(fr, m, alloc, |code|, src', t')
  {
    ListSimulates(fr, m, alloc, 0, code, src, t);
  }
}
