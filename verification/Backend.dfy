/** A function on its way through the RISC-V back end: live ranges as they are built, allocation and rewriting
    (src/codegen/asm/AsmRewriter.h:29-65), then prologue and epilogue around the rewritten code. */
module Backend {
  import opened Options
  import opened Registers
  import opened RegAlloc
  import opened RiscV
  import opened SaveAreas
  import opened SpillCode
  import opened RewriteProof
  import opened Rewriting
  import Int64
  import L = Lowering
  import LR = LiveRanges
  import RF = RiscVFrame

  // ---------------------------------------------------------------------------------------------
  // Live ranges, as built, are what the rewriter needs
  // ---------------------------------------------------------------------------------------------

  /** An instruction that was created as the item: its registers were touched. */
  ghost predicate Stands(i: Instr, item: LR.Item) {
    && Shaped(i) && (WritesReg(i) ==> RegIn(i.ops[0]) != FP)
    && forall k :: 0 <= k < |i.ops| && !i.ops[k].ImmOp? ==> RegIn(i.ops[k]) in item.regs && LR.Ranged(RegIn(i.ops[k]))
  }

  ghost predicate BuiltFrom(cs: seq<LR.Create>, f: AsmFunction) {
    && f.ranges == LR.Built(cs).ranges && |f.code| == |LR.Built(cs).code|
    && forall k :: 0 <= k < |f.code| ==> Stands(f.code[k], LR.Built(cs).code[k])
  }

  /** The ranges that the builder leaves behind cover the code, however it was built. */
  lemma BuiltCodeOk(cs: seq<LR.Create>, f: AsmFunction)
    requires BuiltFrom(cs, f)
    ensures WellFormed(f.ranges) && CodeOk(f.ranges, f.code, 0)
  {
    LR.BuiltWellFormed(cs);
    forall k | 0 <= k < |f.code| ensures InstrOk(f.ranges, f.code[k], k) {
      assert Stands(f.code[k], LR.Built(cs).code[k]);
      forall j | 0 <= j < |f.code[k].ops| && !f.code[k].ops[j].ImmOp? ensures RegOk(f.ranges, RegIn(f.code[k].ops[j]), k) {
        BuiltRegOk(cs, RegIn(f.code[k].ops[j]), k);
      }
    }
  }

  function RegsOf(ops: seq<Operand>): (rs: seq<Reg>)
    ensures forall k :: 0 <= k < |ops| && !ops[k].ImmOp? ==> RegIn(ops[k]) in rs
  {
    if ops == [] then [] else (if ops[0].ImmOp? then [] else [RegIn(ops[0])]) + RegsOf(ops[1..])
  }

  /** Creating the instructions one after another. */
  function CreatesOf(code: seq<Instr>): seq<LR.Create> {
    seq(|code|, k requires 0 <= k < |code| => LR.Plain(LR.Item(RegsOf(code[k].ops), false)))
  }

  ghost predicate Creatable(i: Instr) {
    && Shaped(i) && (WritesReg(i) ==> RegIn(i.ops[0]) != FP)
    && forall k :: 0 <= k < |i.ops| && !i.ops[k].ImmOp? ==> LR.Ranged(RegIn(i.ops[k]))
  }

  /** Every list over virtual and physical registers can be built, so that what follows is about all of them. */
  lemma {:induction false} EveryListCanBeBuilt(code: seq<Instr>, local: nat)
    requires forall k :: 0 <= k < |code| ==> Creatable(code[k])
    ensures BuiltFrom(CreatesOf(code), AsmFunction(LR.Built(CreatesOf(code)).ranges, local, code))
  {
    var cs := CreatesOf(code);
    BuiltItems(code);
    forall k | 0 <= k < |code| ensures Stands(code[k], LR.Built(cs).code[k]) {
      assert Creatable(code[k]);
    }
  }

  /** The items are those of the instructions, in order. */
  ghost predicate ItemsOf(items: seq<LR.Item>, code: seq<Instr>) {
    |items| == |code| && forall k :: 0 <= k < |code| ==> items[k] == LR.Item(RegsOf(code[k].ops), false)
  }

  lemma ItemsNext(items: seq<LR.Item>, code: seq<Instr>, n: nat)
    requires |code| == n + 1 && ItemsOf(items, code[..n])
    ensures ItemsOf(items + [LR.Item(RegsOf(code[n].ops), false)], code)
  {
  }

  lemma {:induction false} BuiltItems(code: seq<Instr>)
    ensures ItemsOf(LR.Built(CreatesOf(code)).code, code)
    decreases |code|
  {
    if code != [] {
      var n := |code| - 1;
      var before, last := CreatesOf(code[..n]), LR.Item(RegsOf(code[n].ops), false);
      BuiltItems(code[..n]);
      CreatesNext(code, n);
      LR.BuiltExact(before);
      LR.PlainExact(LR.Built(before), LR.Extras(before), last);
      ItemsNext(LR.Built(before).code, code, n);
    }
  }

  lemma CreatesNext(code: seq<Instr>, n: nat)
    requires |code| == n + 1
    ensures LR.Built(CreatesOf(code)) == LR.CreatePlain(LR.Built(CreatesOf(code[..n])), LR.Item(RegsOf(code[n].ops), false))
  {
    assert CreatesOf(code)[..n] == CreatesOf(code[..n]);
  }

  lemma BuiltRegOk(cs: seq<LR.Create>, r: Reg, k: nat)
    requires LR.Occurs(LR.Built(cs).code, r, k) && WellFormed(LR.Built(cs).ranges)
    ensures RegOk(LR.Built(cs).ranges, r, k)
  {
    LR.OccurrencesCovered(cs, r, k);
  }

  /** Live ranges, allocation and rewriting together: whatever was built, the rewritten function ends with the memory
      that the function over virtual registers ends with. */
  lemma BuiltThenRewritten(cs: seq<LR.Create>, o: Output, fr: Frame, src: Machine, t: Machine)
    requires BuiltFrom(cs, o.source) && OutputOk(o) && fr.lay == o.lay && fr.reserved >= o.reserved
    requires RewriteProof.Starts(fr, o.source.ranges, src, t) && ExecAll(fr, o.source.code, src).Some?
    ensures ExecAll(fr, o.code, t).Some?
    ensures SameMemory(fr, ExecAll(fr, o.source.code, src).value, ExecAll(fr, o.code, t).value)
  {
    BuiltCodeOk(cs, o.source);
    OutputRuns(o, fr, src, t);
  }

  // ---------------------------------------------------------------------------------------------
  // Registers that the rewritten code leaves alone
  // ---------------------------------------------------------------------------------------------

  /** The register is nobody's place, and no instruction names it as its destination. */
  ghost predicate Unused(alloc: Allocation, code: seq<Instr>, p: Reg) {
    && IsPhysical(p) && (forall v :: v in alloc ==> alloc[v] != p)
    && forall k :: 0 <= k < |code| && WritesReg(code[k]) ==> RegIn(code[k].ops[0]) != p
  }

  lemma InstrKeeps(fr: Frame, m: RangesMap, alloc: Allocation, at: nat, i: Instr, src: Machine, t: Machine, p: Reg)
    requires Allocated(fr, m, alloc) && Simulates(fr, m, alloc, at, src, t) && InstrOk(m, i, at) && Exec(fr, i, src).Some?
    requires Rewritten(fr.lay, alloc, i).reserved <= fr.reserved
    requires Unused(alloc, [i], p) && p in t.regs
    ensures ExecAll(fr, Code(Rewritten(fr.lay, alloc, i)), t).Some?
    ensures var t' := ExecAll(fr, Code(Rewritten(fr.lay, alloc, i)), t).value;
            p in t'.regs && t'.regs[p] == t.regs[p]
  {
    var q, l := ToPhys(alloc, i), OverPlaces(alloc, i);
    LocatedSimulates(fr, m, alloc, at, i, src, t);
    ToPhysFirst(alloc, i);
    ToPhysPending(fr, m, alloc, at, i);
    ExpandRuns(fr, alloc, q, 0, UsedRegs(q.ops), 0, t);
    if WritesReg(i) {
      assert [i][0] == i && l.ops[0] == RegOp(Locate(alloc, i.ops[0].reg));
    }
  }

  /** Spill code gives every register back, so that a register not in use has the same value at the end. */
  lemma {:induction false} ListKeeps(fr: Frame, m: RangesMap, alloc: Allocation, at: nat, code: seq<Instr>, src: Machine,
                                     t: Machine, p: Reg)
    requires Allocated(fr, m, alloc) && Simulates(fr, m, alloc, at, src, t) && CodeOk(m, code, at)
    requires ExecAll(fr, code, src).Some? && MaxReserved(fr.lay, alloc, code) <= fr.reserved
    requires Unused(alloc, code, p) && p in t.regs
    ensures ExecAll(fr, RewrittenAll(fr.lay, alloc, code), t).Some?
    ensures var t' := ExecAll(fr, RewrittenAll(fr.lay, alloc, code), t).value;
            p in t'.regs && t'.regs[p] == t.regs[p]
    decreases code
  {
    if code != [] {
      assert InstrOk(m, code[0], at + 0);
      InstrSimulates(fr, m, alloc, at, code[0], src, t);
      InstrKeeps(fr, m, alloc, at, code[0], src, t, p);
      var first := Code(Rewritten(fr.lay, alloc, code[0]));
      var t1 := ExecAll(fr, first, t).value;
      CodeOkRest(m, code, at);
      ListKeeps(fr, m, alloc, at + 1, code[1..], Exec(fr, code[0], src).value, t1, p);
      ExecConcat(fr, first, RewrittenAll(fr.lay, alloc, code[1..]), t);
    }
  }

  lemma CodeOkRest(m: RangesMap, code: seq<Instr>, at: nat)
    requires WellFormed(m) && CodeOk(m, code, at) && code != []
    ensures CodeOk(m, code[1..], at + 1)
  {
    forall k | 0 <= k < |code[1..]| ensures InstrOk(m, code[1..][k], at + 1 + k) {
      assert InstrOk(m, code[k + 1], at + (k + 1));
    }
  }

  // ---------------------------------------------------------------------------------------------
  // Cells and the save area
  // ---------------------------------------------------------------------------------------------

  predicate WordsApart(a: int, b: int) { a + REGISTER_SIZE <= b || b + REGISTER_SIZE <= a }

  /** No cell, or local objects as large as the save area. */
  predicate CellsApart(f: RF.Needs) { f.spilled + f.reserved == 0 || f.local >= REGISTER_SIZE * |RF.AllSaved(f)| }

  function CellOf(f: RF.Needs, sp: int, q: nat): int { sp + CellOffset(Layout(f.local, f.spilled), q) }

  /** Cells are counted from the frame pointer past the local objects alone, although saved registers lie there. They
      stay clear of the saved registers if and only if there is none, or local objects take as many bytes. */
  lemma CellsApartExactly(f: RF.Needs, sp: int)
    ensures CellsApart(f) <==>
      forall q: nat, k: nat :: q < f.spilled + f.reserved && k < |RF.AllSaved(f)| ==>
        WordsApart(CellOf(f, sp, q), SaveCell(sp, k))
  {
    if !CellsApart(f) {
      var k := f.local / REGISTER_SIZE;
      assert k < |RF.AllSaved(f)| && !WordsApart(CellOf(f, sp, 0), SaveCell(sp, k));
    }
  }

  /** Without local objects the first cell is the one that holds the return address: the function returns to whatever
      was spilled there last. */
  lemma SpilledIsReturnAddress(fr: Frame, f: RF.Needs, m: Machine, body: Machine, x: int) returns (m': Machine)
    requires RF.NeedsOk(f) && RF.StackOk(f, m) && f.local == 0 && fr == Frame(m.regs[SP], Layout(0, f.spilled), f.reserved)
    requires SP in body.regs && body.regs[SP] == m.regs[SP] - RF.TotalStackFrameSize(f)
    requires Cell(fr, 0) in body.mem && body.mem[Cell(fr, 0)] == x
    requires forall k :: 0 < k < |RF.AllSaved(f)| ==>
               SaveCell(m.regs[SP], k) in body.mem && body.mem[SaveCell(m.regs[SP], k)] == m.regs[RF.AllSaved(f)[k]]
    ensures ExecAll(fr, RF.Epilogue(f), body) == Some(m') && RA in m'.regs && m'.regs[RA] == x
  {
    var lost := m.(regs := m.regs[RA := x]);
    assert Cell(fr, 0) == SaveCell(m.regs[SP], 0);
    RF.SavedArePlain(f);
    assert RF.AllSaved(f)[0] == RA;
    m' := RF.EpilogueUndoes(fr, f, lost, body);
    assert RA in RF.AllSaved(f);
  }

  // ---------------------------------------------------------------------------------------------
  // Whole functions
  // ---------------------------------------------------------------------------------------------

  /** S1 to S11; the stack and frame pointers are callee-saved too, and never given out. */
  predicate IsCalleeSaved(r: Reg) { r == S1 || S2 <= r < T3 }

  function FrameOf(o: Output, sp: int): Frame { Frame(sp, o.lay, o.reserved) }

  /** The needs are those of the rewritten function, and every callee-saved register given out is saved. */
  ghost predicate FrameFor(o: Output, f: RF.Needs) {
    && RF.NeedsOk(f) && f.local == o.lay.local && f.spilled == o.lay.spilled && f.reserved == o.reserved
    && forall v :: v in o.alloc && IsCalleeSaved(o.alloc[v]) ==> o.alloc[v] in f.used
  }

  /** The stack has room and is in memory. */
  ghost predicate CallerReady(fr: Frame, f: RF.Needs, m: Machine) {
    && RF.StackOk(f, m) && fr.fp == m.regs[SP]
    && (forall q :: 0 <= q < CellCount(fr) ==> Cell(fr, q) in m.mem)
    && (forall r :: r in FREE_REGS ==> r in m.regs)
  }

  /** What the function over virtual registers sees of a machine: physical registers, and memory without cells. */
  ghost function SourceView(fr: Frame, m: Machine): Machine {
    Machine(map r | r in m.regs && IsPhysical(r) :: m.regs[r], map a | a in m.mem && !InFrame(fr, a) :: m.mem[a])
  }

  /** The function over virtual registers leaves what is the caller's alone: it writes neither the stack pointer nor a
      callee-saved register, and not into the save area. */
  ghost predicate Polite(f: RF.Needs, code: seq<Instr>, sp: int, before: Machine, after: Machine) {
    && (forall k :: 0 <= k < |code| && WritesReg(code[k]) ==>
          RegIn(code[k].ops[0]) != SP && !IsCalleeSaved(RegIn(code[k].ops[0])))
    && forall a :: a in before.mem && sp - REGISTER_SIZE * |RF.AllSaved(f)| <= a < sp ==>
         a in after.mem && after.mem[a] == before.mem[a]
  }

  lemma EntryStarts(fr: Frame, f: RF.Needs, m: RangesMap, caller: Machine, entry: Machine)
    requires RF.NeedsOk(f) && CallerReady(fr, f, caller) && fr.lay == Layout(f.local, f.spilled) && fr.reserved == f.reserved
    requires ExecAll(fr, RF.Prologue(f), caller) == Some(entry)
    ensures RewriteProof.Starts(fr, m, SourceView(fr, entry), entry)
  {
    var m1 := RF.PrologueRuns(fr, f, caller);
    FreeRegsAreNotFrame();
    forall r | r in FREE_REGS ensures r in entry.regs {
      assert r in caller.regs;
    }
    forall q | 0 <= q < CellCount(fr) ensures Cell(fr, q) in entry.mem {
      assert Cell(fr, q) in caller.mem.Keys;
    }
    EntryFrameOk(fr, f);
  }

  lemma EntryFrameOk(fr: Frame, f: RF.Needs)
    requires RF.NeedsOk(f) && fr.lay == Layout(f.local, f.spilled) && fr.reserved == f.reserved
    requires Int64.InRange(fr.fp) && Int64.InRange(fr.fp - RF.TotalStackFrameSize(f))
    ensures FrameOk(fr)
  {
  }

  lemma FreeRegsAreNotFrame()
    ensures SP !in FREE_REGS && FP !in FREE_REGS && RA !in FREE_REGS
  {
  }

  lemma NoCellInSaveArea(f: RF.Needs, fr: Frame, a: int)
    requires CellsApart(f) && fr.lay == Layout(f.local, f.spilled) && fr.reserved == f.reserved
    requires fr.fp - REGISTER_SIZE * |RF.AllSaved(f)| <= a < fr.fp
    ensures !InFrame(fr, a)
  {
  }

  lemma SaveAreaSeen(f: RF.Needs, fr: Frame, code: seq<Instr>, entry: Machine, src': Machine, body: Machine)
    requires CellsApart(f) && fr.lay == Layout(f.local, f.spilled) && fr.reserved == f.reserved
    requires Polite(f, code, fr.fp, SourceView(fr, entry), src') && SameMemory(fr, src', body)
    requires SP in entry.regs && SP in body.regs && body.regs[SP] == entry.regs[SP]
    ensures RF.KeepsFrame(fr.fp, REGISTER_SIZE * |RF.AllSaved(f)|, entry, body)
  {
    forall a | a in entry.mem && fr.fp - REGISTER_SIZE * |RF.AllSaved(f)| <= a < fr.fp
      ensures a in body.mem && body.mem[a] == entry.mem[a]
    {
      NoCellInSaveArea(f, fr, a);
      assert a in SourceView(fr, entry).mem;
    }
  }

  lemma StackPointerUnused(o: Output, f: RF.Needs, sp: int, before: Machine, after: Machine)
    requires OutputOk(o) && Polite(f, o.source.code, sp, before, after)
    ensures Unused(o.alloc, o.source.code, SP)
  {
    FreeRegsAreNotFrame();
  }

  /** The body, run from where the prologue ends. */
  lemma BodyRuns(cs: seq<LR.Create>, o: Output, f: RF.Needs, fr: Frame, caller: Machine, entry: Machine, src': Machine)
    returns (body: Machine)
    requires BuiltFrom(cs, o.source) && OutputOk(o) && FrameFor(o, f) && CellsApart(f)
    requires fr == FrameOf(o, fr.fp) && CallerReady(fr, f, caller) && ExecAll(fr, RF.Prologue(f), caller) == Some(entry)
    requires ExecAll(fr, o.source.code, SourceView(fr, entry)) == Some(src')
    requires Polite(f, o.source.code, caller.regs[SP], SourceView(fr, entry), src')
    ensures ExecAll(fr, o.code, entry) == Some(body) && SameMemory(fr, src', body)
    ensures RF.KeepsFrame(caller.regs[SP], REGISTER_SIZE * |RF.AllSaved(f)|, entry, body)
    ensures forall p :: p in entry.regs && Unused(o.alloc, o.source.code, p) ==> p in body.regs && body.regs[p] == entry.regs[p]
  {
    EntryStarts(fr, f, o.source.ranges, caller, entry);
    BuiltThenRewritten(cs, o, fr, SourceView(fr, entry), entry);
    body := ExecAll(fr, o.code, entry).value;
    forall p | p in entry.regs && Unused(o.alloc, o.source.code, p) ensures p in body.regs && body.regs[p] == entry.regs[p] {
      BuiltCodeOk(cs, o.source);
      ListKeeps(fr, o.source.ranges, o.alloc, 0, o.source.code, SourceView(fr, entry), entry, p);
    }
    StackPointerUnused(o, f, fr.fp, SourceView(fr, entry), src');
    var entered := RF.PrologueRuns(fr, f, caller);
    SaveAreaSeen(f, fr, o.source.code, entry, src', body);
  }

  /** Registers other than the return address that the function makes no use of. */
  ghost predicate KeepsUnused(o: Output, entry: Machine, body: Machine) {
    forall p :: p in entry.regs && p != RA && Unused(o.alloc, o.source.code, p) ==> p in body.regs && body.regs[p] == entry.regs[p]
  }

  lemma CalleeSavedUnused(o: Output, f: RF.Needs, sp: int, before: Machine, after: Machine, r: Reg)
    requires OutputOk(o) && FrameFor(o, f) && Polite(f, o.source.code, sp, before, after) && IsCalleeSaved(r) && r !in f.used
    ensures Unused(o.alloc, o.source.code, r)
  {
  }

  /** A callee-saved register is either in the save area, or in nobody's use. */
  lemma CalleeSavedKept(o: Output, f: RF.Needs, fr: Frame, caller: Machine, entry: Machine, src': Machine, body: Machine,
                        end: Machine, r: Reg)
    requires OutputOk(o) && FrameFor(o, f) && !f.isMain && IsCalleeSaved(r) && SP in caller.regs && r in caller.regs
    requires RF.KeptBut(caller.regs, entry.regs, {SP, FP, T0})
    requires Polite(f, o.source.code, caller.regs[SP], SourceView(fr, entry), src')
    requires KeepsUnused(o, entry, body)
    requires forall r :: r in RF.AllSaved(f) && r in caller.regs ==> r in end.regs && end.regs[r] == caller.regs[r]
    requires forall r :: r in body.regs && r != SP && r != T0 && r !in RF.AllSaved(f) ==>
               r in end.regs && end.regs[r] == body.regs[r]
    ensures r in end.regs && end.regs[r] == caller.regs[r]
  {
    if r !in f.used {
      CalleeSavedUnused(o, f, caller.regs[SP], SourceView(fr, entry), src', r);
    } else {
      assert r in RF.AllSaved(f);
    }
  }

  function Whole(f: RF.Needs, code: seq<Instr>): seq<Instr> { RF.Prologue(f) + code + RF.Epilogue(f) }

  /** From the end of the body to the return. */
  lemma Returns(o: Output, f: RF.Needs, fr: Frame, code: seq<Instr>, caller: Machine, entry: Machine, src': Machine, body: Machine)
    returns (end: Machine)
    requires OutputOk(o) && FrameFor(o, f) && RF.StackOk(f, caller) && ExecAll(fr, RF.Prologue(f), caller) == Some(entry)
    requires Polite(f, o.source.code, caller.regs[SP], SourceView(fr, entry), src')
    requires ExecAll(fr, code, entry) == Some(body) && KeepsUnused(o, entry, body)
    requires RF.KeepsFrame(caller.regs[SP], REGISTER_SIZE * |RF.AllSaved(f)|, entry, body)
    ensures ExecAll(fr, Whole(f, code), caller) == Some(end) && end.mem == body.mem
    ensures GivenBack(f, caller, end)
  {
    end := RF.FrameRoundTrip(fr, f, caller, code, entry, body);
    var entered := RF.PrologueRuns(fr, f, caller);
    forall r | !f.isMain && IsCalleeSaved(r) && r in caller.regs ensures r in end.regs && end.regs[r] == caller.regs[r] {
      CalleeSavedKept(o, f, fr, caller, entry, src', body, end, r);
    }
  }

  /** The caller has back its stack and frame pointers, the return address and the callee-saved registers; `main` gives
      back no callee-saved registers. */
  ghost predicate GivenBack(f: RF.Needs, caller: Machine, end: Machine) {
    && SP in caller.regs && SP in end.regs && end.regs[SP] == caller.regs[SP]
    && (forall r :: r in RF.AllSaved(f) && r in caller.regs ==> r in end.regs && end.regs[r] == caller.regs[r])
    && (!f.isMain ==> forall r :: IsCalleeSaved(r) && r in caller.regs ==> r in end.regs && end.regs[r] == caller.regs[r])
  }

  /** A compiled function, from the call on: prologue, rewritten body, epilogue. It ends with the memory that the
      function over virtual registers ends with, and gives back what is the caller's. */
  lemma FunctionRuns(cs: seq<LR.Create>, o: Output, f: RF.Needs, fr: Frame, caller: Machine, entry: Machine, src': Machine)
    returns (end: Machine)
    requires BuiltFrom(cs, o.source) && OutputOk(o) && FrameFor(o, f) && CellsApart(f)
    requires fr == FrameOf(o, fr.fp) && CallerReady(fr, f, caller) && ExecAll(fr, RF.Prologue(f), caller) == Some(entry)
    requires ExecAll(fr, o.source.code, SourceView(fr, entry)) == Some(src')
    requires Polite(f, o.source.code, caller.regs[SP], SourceView(fr, entry), src')
    ensures ExecAll(fr, Whole(f, o.code), caller) == Some(end) && SameMemory(fr, src', end)
    ensures GivenBack(f, caller, end)
  {
    var body := BodyRuns(cs, o, f, fr, caller, entry, src');
    end := Returns(o, f, fr, o.code, caller, entry, src', body);
  }

  // ---------------------------------------------------------------------------------------------
  // Large displacements
  // ---------------------------------------------------------------------------------------------

  lemma SpillLowerable(lay: Layout, r: Reg, q: nat)
    requires r != RA
    ensures L.Lowerable(StoreTo(lay, r, q)) && L.Lowerable(LoadFrom(lay, r, q))
  {
  }

  lemma ReplacedLowerable(i: Instr, k: nat, r: Reg)
    requires L.Lowerable(i) && k < |i.ops| && r != RA
    ensures L.Lowerable(SetReg(i, k, r))
  {
  }

  lemma ToPhysLowerable(lay: Layout, alloc: Allocation, i: Instr)
    requires L.Lowerable(i) && AllocFits(lay, alloc)
    ensures L.Lowerable(ToPhys(alloc, i))
  {
    FreeRegsAreNotFrame();
  }

  lemma {:induction false} AvailableIsNotRA(free: seq<Reg>, used: seq<Reg>)
    requires RA !in free
    ensures AvailableIn(free, used) != RA
  {
    if free != [] {
      AvailableIsNotRA(free[1..], used);
    }
  }

  /** Spill code does not read the return-address register. */
  lemma {:induction false} ExpandLowerable(lay: Layout, alloc: Allocation, i: Instr, k: nat, used: seq<Reg>, n: nat)
    requires L.Lowerable(i)
    ensures L.AllLowerable(Code(Expand(lay, alloc, i, k, used, n)))
    decreases |i.ops| - k
  {
    if k < |i.ops| {
      if IsSpilled(alloc, i.ops[k]) {
        var a, slot, saved := Available(used), StackSlot2Index(alloc[RegIn(i.ops[k])]), ReservedCell(lay, n + 1);
        FreeRegsAreNotFrame();
        AvailableIsNotRA(FREE_REGS, used);
        ReplacedLowerable(i, k, a);
        ExpandLowerable(lay, alloc, SetReg(i, k, a), k + 1, used + [a], n + 1);
        SpillLowerable(lay, a, saved);
        SpillLowerable(lay, a, slot);
        WrappedLowerable(lay, a, slot, n, Expand(lay, alloc, SetReg(i, k, a), k + 1, used + [a], n + 1));
      } else {
        ExpandLowerable(lay, alloc, i, k + 1, used, n);
      }
    }
  }

  lemma WrappedLowerable(lay: Layout, a: Reg, slot: nat, n: nat, e: Expansion)
    requires a != RA && L.AllLowerable(Code(e))
    ensures L.AllLowerable(Code(Wrapped(lay, a, slot, n, e)))
  {
    var saved := ReservedCell(lay, n + 1);
    SpillLowerable(lay, a, saved);
    SpillLowerable(lay, a, slot);
    var front, back := [StoreTo(lay, a, saved), LoadFrom(lay, a, slot)], [StoreTo(lay, a, slot), LoadFrom(lay, a, saved)];
    L.AllLowerableConcat(front, Code(e));
    L.AllLowerableConcat(front + Code(e), back);
    assert Code(Wrapped(lay, a, slot, n, e)) == front + Code(e) + back;
  }

  lemma {:induction false} RewrittenLowerable(lay: Layout, alloc: Allocation, code: seq<Instr>)
    requires AllocFits(lay, alloc) && L.AllLowerable(code)
    ensures L.AllLowerable(RewrittenAll(lay, alloc, code))
  {
    if code != [] {
      assert L.Lowerable(code[0]);
      ToPhysLowerable(lay, alloc, code[0]);
      var p := ToPhys(alloc, code[0]);
      ExpandLowerable(lay, alloc, p, 0, UsedRegs(p.ops), 0);
      RewrittenLowerable(lay, alloc, code[1..]);
      L.AllLowerableConcat(Code(Rewritten(lay, alloc, code[0])), RewrittenAll(lay, alloc, code[1..]));
    }
  }

  lemma WholeLowered(f: RF.Needs, code: seq<Instr>)
    requires RF.NeedsOk(f) && L.AllLowerable(code)
    ensures L.LoweredAll(Whole(f, code)) == Whole(f, L.LoweredAll(code)) && RF.AllFit(L.LoweredAll(Whole(f, code)))
  {
    L.FrameStays(f);
    L.LoweredConcat(RF.Prologue(f) + code, RF.Epilogue(f));
    L.LoweredConcat(RF.Prologue(f), code);
    RF.FrameImmediatesFit(f);
    L.LoweredFits(code) by {
      forall k | 0 <= k < |code| ensures Shaped(code[k]) {
        assert L.Lowerable(code[k]);
      }
    }
    RF.AllFitConcat(RF.Prologue(f), L.LoweredAll(code));
    RF.AllFitConcat(RF.Prologue(f) + L.LoweredAll(code), RF.Epilogue(f));
  }

  lemma LoweredBody(o: Output, f: RF.Needs, fr: Frame, entry: Machine, src': Machine, body: Machine) returns (body': Machine)
    requires OutputOk(o) && L.AllLowerable(o.source.code) && ExecAll(fr, o.code, entry) == Some(body)
    requires KeepsUnused(o, entry, body) && SameMemory(fr, src', body)
    requires RF.KeepsFrame(fr.fp, REGISTER_SIZE * |RF.AllSaved(f)|, entry, body)
    ensures ExecAll(fr, L.LoweredAll(o.code), entry) == Some(body') && KeepsUnused(o, entry, body') && SameMemory(fr, src', body')
    ensures RF.KeepsFrame(fr.fp, REGISTER_SIZE * |RF.AllSaved(f)|, entry, body')
  {
    RewrittenLowerable(o.lay, o.alloc, o.source.code);
    L.LoweredRuns(fr, o.code, entry, entry);
    body' := ExecAll(fr, L.LoweredAll(o.code), entry).value;
    assert L.SameReg(body, body', SP);
    forall p | p in entry.regs && p != RA && Unused(o.alloc, o.source.code, p)
      ensures p in body'.regs && body'.regs[p] == entry.regs[p]
    {
      assert L.SameReg(body, body', p);
    }
  }

  /** The function as it is put out, all displacements lowered: of a function that does not read the return address, the
      code fits its encoding and still does what `FunctionRuns` says, although the body loses the return address. */
  lemma FunctionLowered(cs: seq<LR.Create>, o: Output, f: RF.Needs, fr: Frame, caller: Machine, entry: Machine, src': Machine)
    returns (end: Machine)
    requires BuiltFrom(cs, o.source) && OutputOk(o) && FrameFor(o, f) && CellsApart(f) && L.AllLowerable(o.source.code)
    requires fr == FrameOf(o, fr.fp) && CallerReady(fr, f, caller) && ExecAll(fr, RF.Prologue(f), caller) == Some(entry)
    requires ExecAll(fr, o.source.code, SourceView(fr, entry)) == Some(src')
    requires Polite(f, o.source.code, caller.regs[SP], SourceView(fr, entry), src')
    ensures RF.AllFit(L.LoweredAll(Whole(f, o.code)))
    ensures ExecAll(fr, L.LoweredAll(Whole(f, o.code)), caller) == Some(end) && SameMemory(fr, src', end)
    ensures GivenBack(f, caller, end)
  {
    var body := BodyRuns(cs, o, f, fr, caller, entry, src');
    var body' := LoweredBody(o, f, fr, entry, src', body);
    RewrittenLowerable(o.lay, o.alloc, o.source.code);
    WholeLowered(f, o.code);
    end := Returns(o, f, fr, L.LoweredAll(o.code), caller, entry, src', body');
  }
}
