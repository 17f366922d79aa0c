/** Rewriting virtual registers after register allocation (src/codegen/asm/AsmRewriter.h and
    src/codegen/asm/RISCV/RISCVAsmRewriter.h): what one instruction becomes. */
module SpillCode {
  import opened Int64
  import opened Options
  import opened Registers
  import opened RiscV

  type Allocation = map<Reg, Reg>

  // ---------------------------------------------------------------------------------------------
  // The two passes on one instruction
  // ---------------------------------------------------------------------------------------------

  /** Where a register lives: virtual registers where the allocation has put them. */
  function Locate(alloc: Allocation, r: Reg): Reg { if IsVirtual(r) && r in alloc then alloc[r] else r }

  function LocateOp(alloc: Allocation, o: Operand): Operand { WithReg(o, Locate(alloc, RegIn(o))) }

  /** The instruction over the places its registers live in, stack slots included. */
  function OverPlaces(alloc: Allocation, i: Instr): Instr {
    i.(ops := seq(|i.ops|, k requires 0 <= k < |i.ops| => LocateOp(alloc, i.ops[k])))
  }

  /** The first pass: virtual registers with a physical register become that register. */
  function ToPhysOp(alloc: Allocation, o: Operand): Operand {
    if IsVirtual(RegIn(o)) && RegIn(o) in alloc && IsPhysical(alloc[RegIn(o)]) then WithReg(o, alloc[RegIn(o)]) else o
  }

  function ToPhys(alloc: Allocation, i: Instr): Instr {
    i.(ops := seq(|i.ops|, k requires 0 <= k < |i.ops| => ToPhysOp(alloc, i.ops[k])))
  }

  /** The physical registers that the operands name. */
  function UsedRegs(ops: seq<Operand>): (rs: seq<Reg>)
    ensures |rs| <= |ops|
    ensures forall k :: 0 <= k < |ops| && IsPhysical(RegIn(ops[k])) ==> RegIn(ops[k]) in rs
  {
    if ops == [] then [] else
    var rest := UsedRegs(ops[1..]);
    if IsPhysical(RegIn(ops[0])) then [RegIn(ops[0])] + rest else rest
  }

  /** The first free register that is not in use; 0 if there is none. */
  function AvailableIn(free: seq<Reg>, used: seq<Reg>): Reg {
    if free == [] then NO_REGISTER else if free[0] !in used then free[0] else AvailableIn(free[1..], used)
  }

  function Available(used: seq<Reg>): Reg { AvailableIn(FREE_REGS, used) }

  lemma {:induction false} AvailableIsUnused(free: seq<Reg>, used: seq<Reg>)
    requires forall j, k :: 0 <= j < k < |free| ==> free[j] != free[k]
    requires |used| < |free|
    ensures AvailableIn(free, used) in free && AvailableIn(free, used) !in used
  {
    if free[0] in used {
      var k :| 0 <= k < |used| && used[k] == free[0];
      var fewer := used[..k] + used[k + 1..];
      AvailableIsUnused(free[1..], fewer);
      SameChoice(free[1..], used, fewer, free[0]);
    }
  }

  lemma {:induction false} SameChoice(free: seq<Reg>, used: seq<Reg>, fewer: seq<Reg>, r: Reg)
    requires r !in free && forall x :: x != r ==> (x in used <==> x in fewer)
    ensures AvailableIn(free, used) == AvailableIn(free, fewer)
  {
    if free != [] {
      SameChoice(free[1..], used, fewer, r);
    }
  }

  /** Something to spill: the code before the instruction, the instruction, the code behind it, and how many
      reserved cells are in use. */
  datatype Expansion = Expansion(before: seq<Instr>, instr: Instr, after: seq<Instr>, reserved: nat)

  function StoreTo(lay: Layout, r: Reg, q: nat): Instr { Instr(SD, [RegOp(r), MemOp(CellOffset(lay, q), FP)]) }

  function LoadFrom(lay: Layout, r: Reg, q: nat): Instr { Instr(LD, [RegOp(r), MemOp(CellOffset(lay, q), FP)]) }

  /** Reserved cells are counted from 1. */
  function ReservedCell(lay: Layout, j: nat): nat
    requires j >= 1
  {
    lay.spilled + j - 1
  }

  predicate IsSpilled(alloc: Allocation, o: Operand) {
    IsVirtual(RegIn(o)) && RegIn(o) in alloc && IsStackSlot(alloc[RegIn(o)])
  }

  /** The second pass, from operand `k` on, with `used` in use and `n` reserved cells taken. The code for a
      later operand goes inside that for an earlier one, so that operand 0 is stored back last. */
  function Expand(lay: Layout, alloc: Allocation, i: Instr, k: nat, used: seq<Reg>, n: nat): Expansion
    decreases |i.ops| - k
  {
    if k >= |i.ops| then Expansion([], i, [], n)
    else if IsSpilled(alloc, i.ops[k]) then
      var a := Available(used);
      Wrapped(lay, a, StackSlot2Index(alloc[RegIn(i.ops[k])]), n, Expand(lay, alloc, SetReg(i, k, a), k + 1, used + [a], n + 1))
    else Expand(lay, alloc, i, k + 1, used, n)
  }

  function Code(e: Expansion): seq<Instr> { e.before + [e.instr] + e.after }

  // ---------------------------------------------------------------------------------------------
  // Replacing one slot by a register
  // ---------------------------------------------------------------------------------------------

  /** The cells of the frame are in memory, the frame pointer points to the frame, and every register that may
      be given out has a value. */
  ghost predicate FrameReady(fr: Frame, m: Machine) {
    && FrameOk(fr) && FP in m.regs && m.regs[FP] == fr.fp
    && (forall q :: 0 <= q < CellCount(fr) ==> Cell(fr, q) in m.mem)
    && (forall r :: r in FREE_REGS ==> r in m.regs)
  }

  ghost predicate InFrame(fr: Frame, a: int) { exists q :: 0 <= q < CellCount(fr) && Cell(fr, q) == a }

  /** The instruction does not use the cells of the frame as memory, and leaves the frame pointer alone. */
  ghost predicate Avoids(fr: Frame, i: Instr, m: Machine) {
    && (forall k :: 0 <= k < |i.ops| && i.ops[k].MemOp? ==>
          var a := ReadOp(fr, m, i.ops[k]); a.Some? ==> !InFrame(fr, a.value))
    && (WritesReg(i) ==> RegIn(i.ops[0]) != FP)
  }

  /** The same but for reserved cells above the first `n`. */
  ghost predicate SameUpTo(fr: Frame, n: nat, m: Machine, m': Machine) {
    && m'.regs == m.regs && m'.mem.Keys == m.mem.Keys
    && forall a :: a in m.mem && (forall j :: n < j <= fr.reserved ==> a != Cell(fr, ReservedCell(fr.lay, j))) ==>
         m'.mem[a] == m.mem[a]
  }

  /** What the code before an instruction does: the slot's value is in `a`, whose own value is saved. */
  function Displaced(fr: Frame, a: Reg, slot: nat, saved: nat, m: Machine): Machine
    requires a in m.regs && Cell(fr, slot) in m.mem
  {
    Machine(m.regs[a := m.mem[Cell(fr, slot)]], m.mem[Cell(fr, saved) := m.regs[a]])
  }

  /** What the code behind it does: the value in `a` goes to the slot, and `a` gets its own back. */
  function Restored(fr: Frame, a: Reg, slot: nat, saved: nat, m: Machine): Machine
    requires a in m.regs && Cell(fr, saved) in m.mem
  {
    Machine(m.regs[a := m.mem[Cell(fr, saved)]], m.mem[Cell(fr, slot) := m.regs[a]])
  }

  lemma CellAddress(fr: Frame, m: Machine, q: nat)
    requires FrameOk(fr) && FP in m.regs && m.regs[FP] == fr.fp && q < CellCount(fr)
    ensures ReadOp(fr, m, MemOp(CellOffset(fr.lay, q), FP)) == Some(Cell(fr, q))
  {
  }

  lemma BeforeRuns(fr: Frame, a: Reg, slot: nat, saved: nat, m: Machine)
    requires FrameReady(fr, m) && a in FREE_REGS && slot < fr.lay.spilled <= saved < CellCount(fr)
    ensures a in m.regs && Cell(fr, slot) in m.mem
    ensures ExecAll(fr, [StoreTo(fr.lay, a, saved), LoadFrom(fr.lay, a, slot)], m) == Some(Displaced(fr, a, slot, saved, m))
  {
    CellAddress(fr, m, saved);
    var m1 := m.(mem := m.mem[Cell(fr, saved) := m.regs[a]]);
    CellAddress(fr, m1, slot);
    ExecTwo(fr, StoreTo(fr.lay, a, saved), LoadFrom(fr.lay, a, slot), m);
  }

  lemma AfterRuns(fr: Frame, a: Reg, slot: nat, saved: nat, m: Machine)
    requires FrameOk(fr) && FP in m.regs && m.regs[FP] == fr.fp && a in m.regs && a in FREE_REGS
    requires slot < fr.lay.spilled <= saved < CellCount(fr)
    requires Cell(fr, slot) in m.mem && Cell(fr, saved) in m.mem
    ensures ExecAll(fr, [StoreTo(fr.lay, a, slot), LoadFrom(fr.lay, a, saved)], m) == Some(Restored(fr, a, slot, saved, m))
  {
    CellAddress(fr, m, slot);
    var m1 := m.(mem := m.mem[Cell(fr, slot) := m.regs[a]]);
    CellAddress(fr, m1, saved);
    ExecTwo(fr, StoreTo(fr.lay, a, slot), LoadFrom(fr.lay, a, saved), m);
  }

  /** The same but for one cell. */
  predicate SameBut(a: int, m: Machine, m': Machine) {
    && m'.regs == m.regs && m'.mem.Keys == m.mem.Keys
    && forall x :: x in m.mem && x != a ==> m'.mem[x] == m.mem[x]
  }

  /** Reading an operand other than the replaced one, with the slot's value still in its place. */
  lemma OtherOperand(fr: Frame, o: Operand, a: Reg, slot: nat, saved: nat, m: Machine)
    requires FrameReady(fr, m) && a in FREE_REGS && slot < fr.lay.spilled <= saved < CellCount(fr)
    requires RegIn(o) != a && (IsStackSlot(RegIn(o)) ==> StackSlot2Index(RegIn(o)) < fr.lay.spilled)
    ensures a in m.regs && Cell(fr, slot) in m.mem
    ensures ReadOp(fr, Displaced(fr, a, slot, saved, m), o) == ReadOp(fr, m, o)
  {
    assert Cell(fr, slot) in m.mem;
  }

  /** Reading the replaced operand. */
  lemma ReplacedOperand(fr: Frame, o: Operand, a: Reg, slot: nat, saved: nat, m: Machine)
    requires FrameReady(fr, m) && a in FREE_REGS && slot < fr.lay.spilled <= saved < CellCount(fr)
    requires IsStackSlot(RegIn(o)) && StackSlot2Index(RegIn(o)) == slot && !IsStackSlot(a)
    ensures a in m.regs && Cell(fr, slot) in m.mem
    ensures ReadOp(fr, Displaced(fr, a, slot, saved, m), WithReg(o, a)) == ReadOp(fr, m, o)
  {
    assert Cell(fr, slot) in m.mem;
  }

  /** Slots in range, and no slot as destination unless it is operand `k`. */
  ghost predicate SlotsOk(fr: Frame, i: Instr, k: nat) {
    && (forall j :: 0 <= j < |i.ops| && IsStackSlot(RegIn(i.ops[j])) ==> StackSlot2Index(RegIn(i.ops[j])) < fr.lay.spilled)
    && (k > 0 && WritesReg(i) ==> !IsStackSlot(RegIn(i.ops[0])))
  }

  ghost predicate Replaces(fr: Frame, i: Instr, k: nat, a: Reg, slot: nat, saved: nat, m: Machine) {
    && FrameReady(fr, m) && a in FREE_REGS && slot < fr.lay.spilled <= saved < CellCount(fr)
    && k < |i.ops| && IsStackSlot(RegIn(i.ops[k])) && StackSlot2Index(RegIn(i.ops[k])) == slot
    && (forall j :: 0 <= j < |i.ops| ==> RegIn(i.ops[j]) != a)
    && SlotsOk(fr, i, k) && Avoids(fr, i, m)
  }

  lemma FreeRegsArePhysical()
    ensures forall r :: r in FREE_REGS ==> IsPhysical(r) && !IsStackSlot(r) && !IsVirtual(r) && r != FP
  {
  }

  lemma OperandsAgree(fr: Frame, i: Instr, k: nat, a: Reg, slot: nat, saved: nat, m: Machine, j: nat)
    requires Replaces(fr, i, k, a, slot, saved, m) && j < |i.ops|
    ensures a in m.regs && Cell(fr, slot) in m.mem
    ensures ReadOp(fr, Displaced(fr, a, slot, saved, m), SetReg(i, k, a).ops[j]) == ReadOp(fr, m, i.ops[j])
  {
    FreeRegsArePhysical();
    if j == k {
      ReplacedOperand(fr, i.ops[j], a, slot, saved, m);
    } else {
      OtherOperand(fr, i.ops[j], a, slot, saved, m);
    }
  }

  lemma DisplacedIsReady(fr: Frame, a: Reg, slot: nat, saved: nat, m: Machine)
    requires FrameReady(fr, m) && a in FREE_REGS && slot < fr.lay.spilled <= saved < CellCount(fr)
    ensures a in m.regs && Cell(fr, slot) in m.mem && FrameReady(fr, Displaced(fr, a, slot, saved, m))
    ensures Cell(fr, saved) in m.mem && Cell(fr, saved) != Cell(fr, slot)
  {
    FreeRegsArePhysical();
    assert Cell(fr, slot) in m.mem && Cell(fr, saved) in m.mem;
  }

  lemma DisplacedMemory(fr: Frame, a: Reg, slot: nat, saved: nat, m: Machine, x: int)
    requires FrameReady(fr, m) && a in FREE_REGS && slot < fr.lay.spilled <= saved < CellCount(fr)
    requires !InFrame(fr, x)
    ensures a in m.regs && Cell(fr, slot) in m.mem
    ensures x in Displaced(fr, a, slot, saved, m).mem <==> x in m.mem
    ensures x in m.mem ==> Displaced(fr, a, slot, saved, m).mem[x] == m.mem[x]
  {
    assert Cell(fr, slot) in m.mem && Cell(fr, saved) in m.mem;
  }

  /** The instruction over the register produces what the one over the slot does. */
  lemma ProducesTheSame(fr: Frame, i: Instr, k: nat, a: Reg, slot: nat, saved: nat, m: Machine)
    requires Replaces(fr, i, k, a, slot, saved, m) && Shaped(i)
    ensures a in m.regs && Cell(fr, slot) in m.mem && Shaped(SetReg(i, k, a))
    ensures Produces(fr, SetReg(i, k, a), Displaced(fr, a, slot, saved, m)) == Produces(fr, i, m)
    ensures Avoids(fr, SetReg(i, k, a), Displaced(fr, a, slot, saved, m))
  {
    var i', m' := SetReg(i, k, a), Displaced(fr, a, slot, saved, m);
    forall j | 0 <= j < |i.ops| ensures ReadOp(fr, m', i'.ops[j]) == ReadOp(fr, m, i.ops[j]) {
      OperandsAgree(fr, i, k, a, slot, saved, m, j);
    }
    FreeRegsArePhysical();
    if i.op.LD? && ReadOp(fr, m, i.ops[1]).Some? {
      DisplacedMemory(fr, a, slot, saved, m, ReadOp(fr, m, i.ops[1]).value);
    }
  }

  /** The destination is the slot: its register is stored back. */
  lemma DestinationReplaced(fr: Frame, i: Instr, a: Reg, slot: nat, saved: nat, m: Machine) returns (m2: Machine)
    requires Replaces(fr, i, 0, a, slot, saved, m) && WritesReg(i) && Exec(fr, i, m).Some?
    ensures a in m.regs && Cell(fr, slot) in m.mem
    ensures Exec(fr, SetReg(i, 0, a), Displaced(fr, a, slot, saved, m)) == Some(m2)
    ensures Closing(fr, a, slot, saved, m2) && SameBut(Cell(fr, saved), Exec(fr, i, m).value, Restored(fr, a, slot, saved, m2))
  {
    ProducesTheSame(fr, i, 0, a, slot, saved, m);
    DisplacedIsReady(fr, a, slot, saved, m);
    FreeRegsArePhysical();
    var n := Produces(fr, i, m).value;
    var m1 := Displaced(fr, a, slot, saved, m);
    m2 := m1.(regs := m1.regs[a := n]);
    assert Restored(fr, a, slot, saved, m2).regs == m.regs;
  }

  /** Ready for the code behind the instruction. */
  predicate Closing(fr: Frame, a: Reg, slot: nat, saved: nat, m: Machine) {
    && FP in m.regs && m.regs[FP] == fr.fp && a in m.regs && Cell(fr, slot) in m.mem && Cell(fr, saved) in m.mem
  }

  /** The slot is only read: what is stored back is what was there. */
  lemma SourceReplaced(fr: Frame, i: Instr, k: nat, a: Reg, slot: nat, saved: nat, m: Machine) returns (m2: Machine)
    requires Replaces(fr, i, k, a, slot, saved, m) && !(k == 0 && WritesReg(i)) && Exec(fr, i, m).Some?
    ensures a in m.regs && Cell(fr, slot) in m.mem
    ensures Exec(fr, SetReg(i, k, a), Displaced(fr, a, slot, saved, m)) == Some(m2)
    ensures Closing(fr, a, slot, saved, m2) && SameBut(Cell(fr, saved), Exec(fr, i, m).value, Restored(fr, a, slot, saved, m2))
  {
    ProducesTheSame(fr, i, k, a, slot, saved, m);
    DisplacedIsReady(fr, a, slot, saved, m);
    FreeRegsArePhysical();
    var n := Produces(fr, i, m).value;
    var m1 := Displaced(fr, a, slot, saved, m);
    if i.op.SD? {
      OperandsAgree(fr, i, k, a, slot, saved, m, 1);
      var x := ReadOp(fr, m, i.ops[1]).value;
      DisplacedMemory(fr, a, slot, saved, m, x);
      assert !InFrame(fr, x) && InFrame(fr, Cell(fr, slot)) && InFrame(fr, Cell(fr, saved));
      m2 := m1.(mem := m1.mem[x := n]);
      assert Restored(fr, a, slot, saved, m2).regs == m.regs;
    } else {
      var d := i.ops[0].reg;
      m2 := m1.(regs := m1.regs[d := n]);
      assert Restored(fr, a, slot, saved, m2).regs == m.regs[d := n];
    }
  }

  lemma OneReplaced(fr: Frame, i: Instr, k: nat, a: Reg, slot: nat, saved: nat, m: Machine) returns (m2: Machine)
    requires Replaces(fr, i, k, a, slot, saved, m) && Exec(fr, i, m).Some?
    ensures a in m.regs && Cell(fr, slot) in m.mem && FrameReady(fr, Displaced(fr, a, slot, saved, m))
    ensures Avoids(fr, SetReg(i, k, a), Displaced(fr, a, slot, saved, m))
    ensures Exec(fr, SetReg(i, k, a), Displaced(fr, a, slot, saved, m)) == Some(m2)
    ensures Closing(fr, a, slot, saved, m2) && SameBut(Cell(fr, saved), Exec(fr, i, m).value, Restored(fr, a, slot, saved, m2))
  {
    DisplacedIsReady(fr, a, slot, saved, m);
    ProducesTheSame(fr, i, k, a, slot, saved, m);
    if k == 0 && WritesReg(i) {
      m2 := DestinationReplaced(fr, i, a, slot, saved, m);
    } else {
      m2 := SourceReplaced(fr, i, k, a, slot, saved, m);
    }
  }

  // ---------------------------------------------------------------------------------------------
  // Replacing all of them
  // ---------------------------------------------------------------------------------------------

  /** Every virtual register has a physical register that may be given out, or a slot of the frame. */
  ghost predicate AllocOk(fr: Frame, alloc: Allocation) {
    forall v :: v in alloc ==>
      (IsPhysical(alloc[v]) && alloc[v] in FREE_REGS) || (IsStackSlot(alloc[v]) && StackSlot2Index(alloc[v]) < fr.lay.spilled)
  }

  /** After the first pass and the replacement of the first `k` operands: what is left of virtual registers is
      spilled, and `used` has the physical ones. */
  ghost predicate Pending(alloc: Allocation, i: Instr, k: nat, used: seq<Reg>) {
    && |used| + |i.ops| < |FREE_REGS| + k
    && (forall j :: 0 <= j < |i.ops| ==> !IsStackSlot(RegIn(i.ops[j])))
    && (forall j :: 0 <= j < |i.ops| && IsVirtual(RegIn(i.ops[j])) ==> k <= j && IsSpilled(alloc, i.ops[j]))
    && (forall j :: 0 <= j < |i.ops| && IsPhysical(RegIn(i.ops[j])) ==> RegIn(i.ops[j]) in used)
  }

  lemma AvailableIsFine(used: seq<Reg>)
    requires |used| < |FREE_REGS|
    ensures Available(used) in FREE_REGS && Available(used) !in used
    ensures IsPhysical(Available(used)) && !IsVirtual(Available(used)) && !IsStackSlot(Available(used))
  {
    AvailableIsUnused(FREE_REGS, used);
    FreeRegsArePhysical();
  }

  lemma OverPlacesSetReg(alloc: Allocation, i: Instr, k: nat, a: Reg)
    requires k < |i.ops| && !IsVirtual(a)
    ensures OverPlaces(alloc, SetReg(i, k, a)) == SetReg(OverPlaces(alloc, i), k, a)
  {
    assert OverPlaces(alloc, SetReg(i, k, a)).ops == SetReg(OverPlaces(alloc, i), k, a).ops;
  }

  lemma NextPending(alloc: Allocation, i: Instr, k: nat, used: seq<Reg>)
    requires Pending(alloc, i, k, used) && k < |i.ops|
    ensures var a := Available(used);
            if IsSpilled(alloc, i.ops[k]) then Pending(alloc, SetReg(i, k, a), k + 1, used + [a])
            else Pending(alloc, i, k + 1, used)
  {
    if IsSpilled(alloc, i.ops[k]) {
      AvailableIsFine(used);
      var a := Available(used);
      var i' := SetReg(i, k, a);
      forall j | 0 <= j < |i'.ops|
        ensures !IsStackSlot(RegIn(i'.ops[j]))
        ensures IsVirtual(RegIn(i'.ops[j])) ==> k + 1 <= j && IsSpilled(alloc, i'.ops[j])
        ensures IsPhysical(RegIn(i'.ops[j])) ==> RegIn(i'.ops[j]) in used + [a]
      {
        assert j != k ==> i'.ops[j] == i.ops[j];
      }
    }
  }

  lemma SpilledReplaces(fr: Frame, alloc: Allocation, i: Instr, k: nat, used: seq<Reg>, saved: nat, m: Machine)
    requires FrameReady(fr, m) && AllocOk(fr, alloc) && Pending(alloc, i, k, used) && k < |i.ops| && IsSpilled(alloc, i.ops[k])
    requires fr.lay.spilled <= saved < CellCount(fr) && Avoids(fr, OverPlaces(alloc, i), m)
    ensures Replaces(fr, OverPlaces(alloc, i), k, Available(used), StackSlot2Index(alloc[RegIn(i.ops[k])]), saved, m)
  {
    AvailableIsFine(used);
    var a, l := Available(used), OverPlaces(alloc, i);
    forall j | 0 <= j < |l.ops|
      ensures RegIn(l.ops[j]) != a
      ensures IsStackSlot(RegIn(l.ops[j])) ==> IsVirtual(RegIn(i.ops[j])) && StackSlot2Index(RegIn(l.ops[j])) < fr.lay.spilled
    {
      assert l.ops[j] == LocateOp(alloc, i.ops[j]);
    }
  }

  /** The second pass, all in all: the code runs, and comes to what the instruction over slots comes to, but
      for reserved cells that were not in use. */
  lemma {:induction false} ExpandRuns(fr: Frame, alloc: Allocation, i: Instr, k: nat, used: seq<Reg>, n: nat, m: Machine)
    requires FrameReady(fr, m) && AllocOk(fr, alloc) && Pending(alloc, i, k, used)
    requires Expand(fr.lay, alloc, i, k, used, n).reserved <= fr.reserved
    requires Avoids(fr, OverPlaces(alloc, i), m) && Exec(fr, OverPlaces(alloc, i), m).Some?
    ensures Comes(fr, n, Expand(fr.lay, alloc, i, k, used, n), m, Exec(fr, OverPlaces(alloc, i), m).value)
    decreases |i.ops| - k, 1
  {
    if k >= |i.ops| {
      assert OverPlaces(alloc, i).ops == i.ops;
      assert Code(Expand(fr.lay, alloc, i, k, used, n)) == [i];
      ExecOne(fr, i, m);
    } else {
      NextPending(alloc, i, k, used);
      if IsSpilled(alloc, i.ops[k]) {
        ExpandSpilled(fr, alloc, i, k, used, n, m);
      } else {
        ExpandRuns(fr, alloc, i, k + 1, used, n, m);
      }
    }
  }

  lemma {:induction false} MoreReserved(lay: Layout, alloc: Allocation, i: Instr, k: nat, used: seq<Reg>, n: nat)
    ensures n <= Expand(lay, alloc, i, k, used, n).reserved <= n + (if k < |i.ops| then |i.ops| - k else 0)
    decreases |i.ops| - k
  {
    if k < |i.ops| {
      if IsSpilled(alloc, i.ops[k]) {
        MoreReserved(lay, alloc, SetReg(i, k, Available(used)), k + 1, used + [Available(used)], n + 1);
      } else {
        MoreReserved(lay, alloc, i, k + 1, used, n);
      }
    }
  }

  /** Running the expansion `e` comes to `target`, but for reserved cells that were not in use. */
  ghost predicate Comes(fr: Frame, n: nat, e: Expansion, m: Machine, target: Machine) {
    ExecAll(fr, Code(e), m).Some? && SameUpTo(fr, n, target, ExecAll(fr, Code(e), m).value)
  }

  lemma {:induction false} ExpandSpilled(fr: Frame, alloc: Allocation, i: Instr, k: nat, used: seq<Reg>, n: nat, m: Machine)
    requires FrameReady(fr, m) && AllocOk(fr, alloc) && Pending(alloc, i, k, used) && k < |i.ops| && IsSpilled(alloc, i.ops[k])
    requires Pending(alloc, SetReg(i, k, Available(used)), k + 1, used + [Available(used)])
    requires Expand(fr.lay, alloc, i, k, used, n).reserved <= fr.reserved
    requires Avoids(fr, OverPlaces(alloc, i), m) && Exec(fr, OverPlaces(alloc, i), m).Some?
    ensures Comes(fr, n, Expand(fr.lay, alloc, i, k, used, n), m, Exec(fr, OverPlaces(alloc, i), m).value)
    decreases |i.ops| - k, 0
  {
    var a, slot := Available(used), StackSlot2Index(alloc[RegIn(i.ops[k])]);
    var m1, m2 := FirstReplaced(fr, alloc, i, k, used, n, m);
    var e := ExpandRest(fr, alloc, i, k, used, n, m1, m2);
    var e' := Sandwich(fr, a, slot, n, e, m, m1, m2, Exec(fr, OverPlaces(alloc, i), m).value);
  }

  lemma {:induction false} ExpandRest(fr: Frame, alloc: Allocation, i: Instr, k: nat, used: seq<Reg>, n: nat,
                                      m1: Machine, m2: Machine) returns (e: Expansion)
    requires FrameReady(fr, m1) && AllocOk(fr, alloc) && k < |i.ops| && IsSpilled(alloc, i.ops[k])
    requires Pending(alloc, SetReg(i, k, Available(used)), k + 1, used + [Available(used)])
    requires Expand(fr.lay, alloc, i, k, used, n).reserved <= fr.reserved
    requires Avoids(fr, OverPlaces(alloc, SetReg(i, k, Available(used))), m1)
    requires Exec(fr, OverPlaces(alloc, SetReg(i, k, Available(used))), m1) == Some(m2)
    ensures e == Expand(fr.lay, alloc, SetReg(i, k, Available(used)), k + 1, used + [Available(used)], n + 1)
    ensures Comes(fr, n + 1, e, m1, m2)
    decreases |i.ops| - k - 1, 2
  {
    ExpandRuns(fr, alloc, SetReg(i, k, Available(used)), k + 1, used + [Available(used)], n + 1, m1);
    e := Expand(fr.lay, alloc, SetReg(i, k, Available(used)), k + 1, used + [Available(used)], n + 1);
  }

  predicate Displaces(fr: Frame, a: Reg, slot: nat, saved: nat, m: Machine, m1: Machine) {
    a in m.regs && Cell(fr, slot) in m.mem && m1 == Displaced(fr, a, slot, saved, m)
  }

  /** The instruction `l` between displacing `a` and restoring it comes to what `i` comes to. */
  ghost predicate StandsIn(fr: Frame, i: Instr, l: Instr, a: Reg, slot: nat, saved: nat, m: Machine, m1: Machine, m2: Machine) {
    && Exec(fr, i, m).Some? && Displaces(fr, a, slot, saved, m, m1) && FrameReady(fr, m1) && Avoids(fr, l, m1)
    && Exec(fr, l, m1) == Some(m2) && Closing(fr, a, slot, saved, m2)
    && SameBut(Cell(fr, saved), Exec(fr, i, m).value, Restored(fr, a, slot, saved, m2))
  }

  lemma ReplacedStandsIn(fr: Frame, i: Instr, k: nat, a: Reg, slot: nat, saved: nat, m: Machine) returns (m1: Machine, m2: Machine)
    requires Replaces(fr, i, k, a, slot, saved, m) && Exec(fr, i, m).Some?
    ensures StandsIn(fr, i, SetReg(i, k, a), a, slot, saved, m, m1, m2)
  {
    m2 := OneReplaced(fr, i, k, a, slot, saved, m);
    m1 := Displaced(fr, a, slot, saved, m);
  }

  lemma FirstReplaced(fr: Frame, alloc: Allocation, i: Instr, k: nat, used: seq<Reg>, n: nat, m: Machine)
    returns (m1: Machine, m2: Machine)
    requires FrameReady(fr, m) && AllocOk(fr, alloc) && Pending(alloc, i, k, used) && k < |i.ops| && IsSpilled(alloc, i.ops[k])
    requires Expand(fr.lay, alloc, i, k, used, n).reserved <= fr.reserved
    requires Avoids(fr, OverPlaces(alloc, i), m) && Exec(fr, OverPlaces(alloc, i), m).Some?
    ensures var a, slot, saved := Available(used), StackSlot2Index(alloc[RegIn(i.ops[k])]), ReservedCell(fr.lay, n + 1);
            && a in FREE_REGS && slot < fr.lay.spilled && n + 1 <= fr.reserved
            && StandsIn(fr, OverPlaces(alloc, i), OverPlaces(alloc, SetReg(i, k, a)), a, slot, saved, m, m1, m2)
  {
    var a := Available(used);
    AvailableIsFine(used);
    MoreReserved(fr.lay, alloc, SetReg(i, k, a), k + 1, used + [a], n + 1);
    SpilledReplaces(fr, alloc, i, k, used, ReservedCell(fr.lay, n + 1), m);
    OverPlacesSetReg(alloc, i, k, a);
    var slot := StackSlot2Index(alloc[RegIn(i.ops[k])]);
    m1, m2 := ReplacedStandsIn(fr, OverPlaces(alloc, i), k, a, slot, ReservedCell(fr.lay, n + 1), m);
  }

  lemma ExecThree(fr: Frame, c1: seq<Instr>, c2: seq<Instr>, c3: seq<Instr>, m: Machine, m1: Machine, m2: Machine)
    requires ExecAll(fr, c1, m) == Some(m1) && ExecAll(fr, c2, m1) == Some(m2)
    ensures ExecAll(fr, c1 + (c2 + c3), m) == ExecAll(fr, c3, m2)
  {
    ExecConcat(fr, c1, c2 + c3, m);
    ExecConcat(fr, c2, c3, m1);
  }

  lemma WrappedRuns(fr: Frame, a: Reg, slot: nat, n: nat, e: Expansion, m: Machine, m1: Machine, m2: Machine)
    requires FrameReady(fr, m) && a in FREE_REGS && slot < fr.lay.spilled && n + 1 <= fr.reserved
    requires Displaces(fr, a, slot, ReservedCell(fr.lay, n + 1), m, m1) && ExecAll(fr, Code(e), m1) == Some(m2)
    requires Closing(fr, a, slot, ReservedCell(fr.lay, n + 1), m2)
    ensures ExecAll(fr, Code(Wrapped(fr.lay, a, slot, n, e)), m) == Some(Restored(fr, a, slot, ReservedCell(fr.lay, n + 1), m2))
  {
    var saved := ReservedCell(fr.lay, n + 1);
    BeforeRuns(fr, a, slot, saved, m);
    AfterRuns(fr, a, slot, saved, m2);
    AroundRuns(fr, [StoreTo(fr.lay, a, saved), LoadFrom(fr.lay, a, slot)], e,
               [StoreTo(fr.lay, a, slot), LoadFrom(fr.lay, a, saved)],
               m, m1, m2, Restored(fr, a, slot, saved, m2));
  }

  lemma AroundRuns(fr: Frame, before: seq<Instr>, e: Expansion, after: seq<Instr>, m: Machine, m1: Machine, m2: Machine,
                   m3: Machine)
    requires ExecAll(fr, before, m) == Some(m1) && ExecAll(fr, Code(e), m1) == Some(m2) && ExecAll(fr, after, m2) == Some(m3)
    ensures ExecAll(fr, (before + e.before) + [e.instr] + (e.after + after), m) == Some(m3)
  {
    ExecThree(fr, before, Code(e), after, m, m1, m2);
    assert (before + e.before) + [e.instr] + (e.after + after) == before + (Code(e) + after);
  }

  /** The code before, the instruction with its own spill code, and the code behind. */
  lemma Sandwich(fr: Frame, a: Reg, slot: nat, n: nat, e: Expansion, m: Machine, m1: Machine, m2: Machine, target: Machine)
    returns (e': Expansion)
    requires FrameReady(fr, m) && a in FREE_REGS && slot < fr.lay.spilled && n + 1 <= fr.reserved
    requires Displaces(fr, a, slot, ReservedCell(fr.lay, n + 1), m, m1) && Comes(fr, n + 1, e, m1, m2)
    requires Closing(fr, a, slot, ReservedCell(fr.lay, n + 1), m2)
    requires SameBut(Cell(fr, ReservedCell(fr.lay, n + 1)), target, Restored(fr, a, slot, ReservedCell(fr.lay, n + 1), m2))
    ensures e' == Wrapped(fr.lay, a, slot, n, e) && Comes(fr, n, e', m, target)
  {
    e' := Wrapped(fr.lay, a, slot, n, e);
    var m2' := ExecAll(fr, Code(e), m1).value;
    RestoredSame(fr, a, slot, n, m2, m2', target);
    WrappedRuns(fr, a, slot, n, e, m, m1, m2');
  }

  /** Spill code around an expansion. */
  function Wrapped(lay: Layout, a: Reg, slot: nat, n: nat, e: Expansion): Expansion {
    var saved := ReservedCell(lay, n + 1);
    Expansion([StoreTo(lay, a, saved), LoadFrom(lay, a, slot)] + e.before, e.instr,
              e.after + [StoreTo(lay, a, slot), LoadFrom(lay, a, saved)], e.reserved)
  }

  lemma RestoredSame(fr: Frame, a: Reg, slot: nat, n: nat, m2: Machine, m2': Machine, target: Machine)
    requires slot < fr.lay.spilled && n + 1 <= fr.reserved && Closing(fr, a, slot, ReservedCell(fr.lay, n + 1), m2)
    requires SameUpTo(fr, n + 1, m2, m2')
    requires SameBut(Cell(fr, ReservedCell(fr.lay, n + 1)), target, Restored(fr, a, slot, ReservedCell(fr.lay, n + 1), m2))
    ensures Closing(fr, a, slot, ReservedCell(fr.lay, n + 1), m2')
    ensures SameUpTo(fr, n, target, Restored(fr, a, slot, ReservedCell(fr.lay, n + 1), m2'))
  {
    var saved := ReservedCell(fr.lay, n + 1);
    assert m2'.mem[Cell(fr, saved)] == m2.mem[Cell(fr, saved)];
    var r := Restored(fr, a, slot, saved, m2');
    forall x | x in target.mem && (forall j :: n < j <= fr.reserved ==> x != Cell(fr, ReservedCell(fr.lay, j)))
      ensures r.mem[x] == target.mem[x]
    {
      assert x != Cell(fr, saved);
    }
  }
}
