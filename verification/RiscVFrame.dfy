/** RISC-V stack frames (src/codegen/asm/RISCV/RISCVAsmRewriter.h): the code at both ends of a function. */
module RiscVFrame {
  import opened Int64
  import opened Options
  import opened Registers
  import opened RiscV
  import opened SaveAreas

  const STACK_ALIGN: nat := 16

  /** What a function needs on the stack, in bytes, and the callee-saved registers it uses. */
  datatype Needs = Needs(callFrame: nat, spilled: nat, reserved: nat, local: nat, used: seq<Reg>, isMain: bool)

  /** `main` does not save callee-saved registers. */
  function SavedRegs(f: Needs): seq<Reg> { if f.isMain then [] else f.used }

  function RoundedUp(n: nat): (r: nat)
    ensures n <= r < n + 16 && r % 16 == 0
  {
    if n % 16 == 0 then n else n + (16 - n % 16)
  }

  function TotalStackFrameSize(f: Needs): nat {
    RoundedUp(f.callFrame + (REGISTER_SIZE * f.spilled + REGISTER_SIZE * f.reserved) + f.local
              + |SavedRegs(f)| * REGISTER_SIZE + REGISTER_SIZE + REGISTER_SIZE)
  }

  /** A frame over 2047 bytes is made in two steps. */
  function FirstStep(total: nat): nat { if total > 2047 then 2048 - STACK_ALIGN else total }

  function SPAdjust(total: nat): nat { if total > 2047 then 2048 - STACK_ALIGN else 0 }

  function AddImmTo(d: Reg, s: Reg, n: int): Instr { Instr(ADDI, [RegOp(d), RegOp(s), ImmOp(n)]) }

  function Save(r: Reg, offset: int): Instr { Instr(SD, [RegOp(r), MemOp(offset, SP)]) }

  function Restore(r: Reg, offset: int): Instr { Instr(LD, [RegOp(r), MemOp(offset, SP)]) }

  /** Registers go below `offset`, one under the other. */
  function SaveAll(rs: seq<Reg>, offset: int): seq<Instr> {
    if rs == [] then [] else [Save(rs[0], offset - REGISTER_SIZE)] + SaveAll(rs[1..], offset - REGISTER_SIZE)
  }

  function RestoreAll(rs: seq<Reg>, offset: int): seq<Instr> {
    if rs == [] then [] else [Restore(rs[0], offset - REGISTER_SIZE)] + RestoreAll(rs[1..], offset - REGISTER_SIZE)
  }

  function AllSaved(f: Needs): seq<Reg> { [RA, FP] + SavedRegs(f) }

  function LowerSP(total: nat): seq<Instr> {
    if total > 2047 then
      [Instr(LI, [RegOp(T0), ImmOp(total - SPAdjust(total))]), Instr(SUB, [RegOp(SP), RegOp(SP), RegOp(T0)])]
    else []
  }

  function RaiseSP(total: nat): seq<Instr> {
    if total > 2047 then
      [Instr(LI, [RegOp(T0), ImmOp(total - SPAdjust(total))]), Instr(ADD, [RegOp(SP), RegOp(SP), RegOp(T0)])]
    else []
  }

  function Enter(rs: seq<Reg>, first: int): seq<Instr> {
    [AddImmTo(SP, SP, 0 - first)] + SaveAll(rs, first) + [AddImmTo(FP, SP, first)]
  }

  function Leave(rs: seq<Reg>, first: int): seq<Instr> { RestoreAll(rs, first) + [AddImmTo(SP, SP, first)] }

  function Prologue(f: Needs): seq<Instr> {
    var total := TotalStackFrameSize(f);
    Enter(AllSaved(f), FirstStep(total)) + LowerSP(total)
  }

  /** Without the final return. */
  function Epilogue(f: Needs): seq<Instr> {
    var total := TotalStackFrameSize(f);
    RaiseSP(total) + Leave(AllSaved(f), FirstStep(total))
  }

  // ---------------------------------------------------------------------------------------------
  // Immediates
  // ---------------------------------------------------------------------------------------------

  predicate Fits12(n: int) { -2048 <= n <= 2047 }

  /** Immediates of ADDI, and the offsets of loads and stores, fit into 12 bits (section 2.4 of the RISC-V
      Unprivileged ISA). */
  predicate ImmediatesFit(i: Instr) {
    && (i.op.ADDI? && |i.ops| == 3 && i.ops[2].ImmOp? ==> Fits12(i.ops[2].val))
    && (forall k :: 0 <= k < |i.ops| && i.ops[k].MemOp? ==> Fits12(i.ops[k].disp))
  }

  ghost predicate AllFit(code: seq<Instr>) { forall k :: 0 <= k < |code| ==> ImmediatesFit(code[k]) }

  lemma AllFitConcat(a: seq<Instr>, b: seq<Instr>)
    requires AllFit(a) && AllFit(b)
    ensures AllFit(a + b)
  {
  }

  lemma {:induction false} SavesFit(rs: seq<Reg>, offset: int)
    requires offset <= 2047 && offset >= REGISTER_SIZE * |rs|
    ensures AllFit(SaveAll(rs, offset)) && AllFit(RestoreAll(rs, offset))
  {
    if rs != [] {
      SavesFit(rs[1..], offset - REGISTER_SIZE);
      AllFitConcat([Save(rs[0], offset - REGISTER_SIZE)], SaveAll(rs[1..], offset - REGISTER_SIZE));
      AllFitConcat([Restore(rs[0], offset - REGISTER_SIZE)], RestoreAll(rs[1..], offset - REGISTER_SIZE));
    }
  }

  /** Thirteen callee-saved registers at most. */
  predicate NeedsOk(f: Needs) {
    && |f.used| <= 13 && (forall j, k :: 0 <= j < k < |f.used| ==> f.used[j] != f.used[k])
    && forall r :: r in f.used ==> IsPhysical(r) && r !in {SP, FP, RA, T0}
  }

  lemma SaveAreaFits(f: Needs)
    requires NeedsOk(f)
    ensures REGISTER_SIZE * |AllSaved(f)| <= FirstStep(TotalStackFrameSize(f)) <= 2047
    ensures TotalStackFrameSize(f) % 16 == 0
  {
  }

  /** For every frame size and every set of saved registers. */
  lemma FrameImmediatesFit(f: Needs)
    requires NeedsOk(f)
    ensures AllFit(Prologue(f)) && AllFit(Epilogue(f))
  {
    var total := TotalStackFrameSize(f);
    SaveAreaFits(f);
    SavesFit(AllSaved(f), FirstStep(total));
    AllFitConcat([AddImmTo(SP, SP, 0 - FirstStep(total))], SaveAll(AllSaved(f), FirstStep(total)));
  }

  // ---------------------------------------------------------------------------------------------
  // Saving and restoring
  // ---------------------------------------------------------------------------------------------

  predicate Plain(rs: seq<Reg>) { forall r :: r in rs ==> IsPhysical(r) }

  lemma SaveCellAddress(fr: Frame, m: Machine, sp: int, offset: int)
    requires SP in m.regs && sp == m.regs[SP] + offset && InRange(sp) && InRange(sp - REGISTER_SIZE)
    ensures ReadOp(fr, m, MemOp(offset - REGISTER_SIZE, SP)) == Some(SaveCell(sp, 0))
  {
  }

  lemma {:induction false} SaveRuns(fr: Frame, rs: seq<Reg>, offset: int, sp: int, m: Machine) returns (m': Machine)
    requires Plain(rs) && SP in m.regs && (forall r :: r in rs ==> r in m.regs)
    requires sp == m.regs[SP] + offset && InRange(sp) && InRange(sp - REGISTER_SIZE * |rs|) && AreaMapped(sp, |rs|, m.mem)
    ensures ExecAll(fr, SaveAll(rs, offset), m) == Some(m') && m'.regs == m.regs && m'.mem.Keys == m.mem.Keys
    ensures AreaHolds(sp, rs, m.regs, m'.mem)
    ensures forall a :: a in m.mem && !(sp - REGISTER_SIZE * |rs| <= a < sp) ==> m'.mem[a] == m.mem[a]
    decreases rs
  {
    if rs == [] {
      m' := m;
    } else {
      var a := SaveCell(sp, 0);
      var m1 := m.(mem := m.mem[a := m.regs[rs[0]]]);
      SaveCellAddress(fr, m, sp, offset);
      assert rs[0] in rs;
      assert Exec(fr, Save(rs[0], offset - REGISTER_SIZE), m) == Some(m1);
      AreaBelow(sp, sp - REGISTER_SIZE, |rs|, m1.mem);
      m' := SaveRuns(fr, rs[1..], offset - REGISTER_SIZE, sp - REGISTER_SIZE, m1);
      AreaCons(sp, sp - REGISTER_SIZE, rs, m.regs, m'.mem);
    }
  }

  lemma {:induction false} RestoreRuns(fr: Frame, rs: seq<Reg>, offset: int, sp: int, saved: map<Reg, int>, m: Machine)
    returns (m': Machine)
    requires Plain(rs) && SP in m.regs && SP !in rs && AllDistinct(rs)
    requires sp == m.regs[SP] + offset && InRange(sp) && InRange(sp - REGISTER_SIZE * |rs|) && AreaHolds(sp, rs, saved, m.mem)
    ensures ExecAll(fr, RestoreAll(rs, offset), m) == Some(m') && m'.mem == m.mem
    ensures forall r :: r in rs ==> r in m'.regs && m'.regs[r] == saved[r]
    ensures forall r :: r in m.regs && r !in rs ==> r in m'.regs && m'.regs[r] == m.regs[r]
    decreases rs
  {
    if rs == [] {
      m' := m;
    } else {
      assert SaveCell(sp, 0) in m.mem && m.mem[SaveCell(sp, 0)] == saved[rs[0]];
      var m1 := m.(regs := m.regs[rs[0] := saved[rs[0]]]);
      SaveCellAddress(fr, m, sp, offset);
      assert rs[0] in rs;
      assert Exec(fr, Restore(rs[0], offset - REGISTER_SIZE), m) == Some(m1);
      AreaTail(sp, sp - REGISTER_SIZE, rs, saved, m.mem);
      m' := RestoreRuns(fr, rs[1..], offset - REGISTER_SIZE, sp - REGISTER_SIZE, saved, m1);
    }
  }

  // ---------------------------------------------------------------------------------------------
  // Both ends together
  // ---------------------------------------------------------------------------------------------

  /** The stack has room: nothing wraps around, and the save area is in memory. */
  ghost predicate StackOk(f: Needs, m: Machine) {
    && SP in m.regs && InRange(m.regs[SP]) && InRange(m.regs[SP] - TotalStackFrameSize(f))
    && (forall r :: r in AllSaved(f) ==> r in m.regs) && AreaMapped(m.regs[SP], |AllSaved(f)|, m.mem)
  }

  lemma AddImmRuns(fr: Frame, d: Reg, s: Reg, n: int, m: Machine)
    requires IsPhysical(d) && IsPhysical(s) && s in m.regs && InRange(m.regs[s] + n)
    ensures ExecAll(fr, [AddImmTo(d, s, n)], m) == Some(m.(regs := m.regs[d := m.regs[s] + n]))
  {
    ExecOne(fr, AddImmTo(d, s, n), m);
  }

  lemma ExecThree(fr: Frame, a: seq<Instr>, b: seq<Instr>, c: seq<Instr>, m: Machine, m1: Machine, m2: Machine)
    requires ExecAll(fr, a, m) == Some(m1) && ExecAll(fr, b, m1) == Some(m2)
    ensures ExecAll(fr, a + b + c, m) == ExecAll(fr, c, m2)
  {
    ExecConcat(fr, a, b, m);
    ExecConcat(fr, a + b, c, m);
  }

  lemma LowerRuns(fr: Frame, total: nat, m: Machine) returns (m': Machine)
    requires SP in m.regs && InRange(m.regs[SP]) && InRange(m.regs[SP] - (total - FirstStep(total)))
    ensures ExecAll(fr, LowerSP(total), m) == Some(m') && m'.mem == m.mem
    ensures SP in m'.regs && m'.regs[SP] == m.regs[SP] - (total - FirstStep(total)) && (T0 in m.regs ==> T0 in m'.regs)
    ensures KeptBut(m.regs, m'.regs, {SP, T0})
  {
    m' := m;
    if total > 2047 {
      var n := total - SPAdjust(total);
      var m1 := m.(regs := m.regs[T0 := n]);
      m' := m1.(regs := m1.regs[SP := m.regs[SP] - n]);
      ExecTwo(fr, Instr(LI, [RegOp(T0), ImmOp(n)]), Instr(SUB, [RegOp(SP), RegOp(SP), RegOp(T0)]), m);
    }
  }

  lemma RaiseRuns(fr: Frame, total: nat, m: Machine) returns (m': Machine)
    requires SP in m.regs && InRange(m.regs[SP]) && InRange(m.regs[SP] + (total - FirstStep(total)))
    ensures ExecAll(fr, RaiseSP(total), m) == Some(m') && m'.mem == m.mem
    ensures SP in m'.regs && m'.regs[SP] == m.regs[SP] + (total - FirstStep(total))
    ensures KeptBut(m.regs, m'.regs, {SP, T0})
  {
    m' := m;
    if total > 2047 {
      var n := total - SPAdjust(total);
      var m1 := m.(regs := m.regs[T0 := n]);
      m' := m1.(regs := m1.regs[SP := m.regs[SP] + n]);
      ExecTwo(fr, Instr(LI, [RegOp(T0), ImmOp(n)]), Instr(ADD, [RegOp(SP), RegOp(SP), RegOp(T0)]), m);
    }
  }

  /** Every register of `was` except those in `but` has its old value. */
  ghost predicate KeptBut(was: map<Reg, int>, now: map<Reg, int>, but: set<Reg>) {
    forall r :: r in was && r !in but ==> r in now && now[r] == was[r]
  }

  lemma EnterRuns(fr: Frame, rs: seq<Reg>, first: int, sp: int, m: Machine) returns (m': Machine)
    requires Plain(rs) && SP !in rs && SP in m.regs && m.regs[SP] == sp && (forall r :: r in rs ==> r in m.regs)
    requires InRange(sp) && InRange(sp - first) && InRange(sp - REGISTER_SIZE * |rs|) && AreaMapped(sp, |rs|, m.mem)
    ensures ExecAll(fr, Enter(rs, first), m) == Some(m')
    ensures SP in m'.regs && m'.regs[SP] == sp - first && FP in m'.regs && m'.regs[FP] == sp
    ensures KeptBut(m.regs, m'.regs, {SP, FP})
    ensures AreaHolds(sp, rs, m.regs, m'.mem) && m'.mem.Keys == m.mem.Keys
    ensures forall a :: a in m.mem && !(sp - REGISTER_SIZE * |rs| <= a < sp) ==> m'.mem[a] == m.mem[a]
  {
    var m1 := m.(regs := m.regs[SP := sp - first]);
    AddImmRuns(fr, SP, SP, 0 - first, m);
    var m2 := SaveRuns(fr, rs, first, sp, m1);
    m' := m2.(regs := m2.regs[FP := sp]);
    AddImmRuns(fr, FP, SP, first, m2);
    ExecThree(fr, [AddImmTo(SP, SP, 0 - first)], SaveAll(rs, first), [AddImmTo(FP, SP, first)], m, m1, m2);
    SameArea(sp, rs, m1.regs, m.regs, m'.mem);
  }

  lemma LeaveRuns(fr: Frame, rs: seq<Reg>, first: int, sp: int, saved: map<Reg, int>, m: Machine) returns (m': Machine)
    requires Plain(rs) && SP in m.regs && SP !in rs && AllDistinct(rs) && sp == m.regs[SP] + first
    requires InRange(sp) && InRange(sp - REGISTER_SIZE * |rs|) && AreaHolds(sp, rs, saved, m.mem)
    ensures ExecAll(fr, Leave(rs, first), m) == Some(m') && m'.mem == m.mem
    ensures SP in m'.regs && m'.regs[SP] == sp
    ensures forall r :: r in rs ==> r in m'.regs && m'.regs[r] == saved[r]
    ensures forall r :: r in m.regs && r != SP && r !in rs ==> r in m'.regs && m'.regs[r] == m.regs[r]
  {
    var m1 := RestoreRuns(fr, rs, first, sp, saved, m);
    m' := m1.(regs := m1.regs[SP := sp]);
    AddImmRuns(fr, SP, SP, first, m1);
    ExecConcat(fr, RestoreAll(rs, first), [AddImmTo(SP, SP, first)], m);
  }

  /** The prologue moves the stack pointer down by the frame, points the frame pointer at the old stack pointer
      and puts the saved registers into the save area; nothing else in memory changes. */
  lemma PrologueRuns(fr: Frame, f: Needs, m: Machine) returns (m': Machine)
    requires NeedsOk(f) && StackOk(f, m)
    ensures ExecAll(fr, Prologue(f), m) == Some(m') && SP in m'.regs && FP in m'.regs && (T0 in m.regs ==> T0 in m'.regs)
    ensures m'.regs[SP] == m.regs[SP] - TotalStackFrameSize(f) && m'.regs[FP] == m.regs[SP]
    ensures AreaHolds(m.regs[SP], AllSaved(f), m.regs, m'.mem) && m'.mem.Keys == m.mem.Keys
    ensures KeptBut(m.regs, m'.regs, {SP, FP, T0})
    ensures forall a :: a in m.mem && !(m.regs[SP] - REGISTER_SIZE * |AllSaved(f)| <= a < m.regs[SP]) ==> m'.mem[a] == m.mem[a]
  {
    var total, rs := TotalStackFrameSize(f), AllSaved(f);
    SaveAreaFits(f);
    SavedArePlain(f);
    var m1 := EnterRuns(fr, rs, FirstStep(total), m.regs[SP], m);
    m' := LowerRuns(fr, total, m1);
    ExecConcat(fr, Enter(rs, FirstStep(total)), LowerSP(total), m);
  }

  lemma SavedArePlain(f: Needs)
    requires NeedsOk(f)
    ensures Plain(AllSaved(f)) && SP !in AllSaved(f) && T0 !in AllSaved(f)
    ensures AllDistinct(AllSaved(f))
  {
    var rs := AllSaved(f);
    forall k | 2 <= k < |rs| ensures rs[k] in f.used {
      assert rs[k] == SavedRegs(f)[k - 2];
    }
    forall j, k | 0 <= j < k < |rs| ensures rs[j] != rs[k] {
      if j >= 2 {
        assert rs[j] == f.used[j - 2] && rs[k] == f.used[k - 2];
      }
    }
  }

  /** After any body that keeps the stack pointer and the save area, the epilogue undoes the prologue: the stack
      pointer, the return address, the frame pointer and the callee-saved registers are back, and memory is as
      the body left it. */
  lemma EpilogueUndoes(fr: Frame, f: Needs, m: Machine, body: Machine) returns (m': Machine)
    requires NeedsOk(f) && StackOk(f, m)
    requires SP in body.regs && body.regs[SP] == m.regs[SP] - TotalStackFrameSize(f)
    requires AreaHolds(m.regs[SP], AllSaved(f), m.regs, body.mem)
    ensures ExecAll(fr, Epilogue(f), body) == Some(m') && m'.mem == body.mem
    ensures SP in m'.regs && m'.regs[SP] == m.regs[SP]
    ensures forall r :: r in AllSaved(f) ==> r in m'.regs && m'.regs[r] == m.regs[r]
    ensures forall r :: r in body.regs && r != SP && r != T0 && r !in AllSaved(f) ==> r in m'.regs && m'.regs[r] == body.regs[r]
  {
    var total := TotalStackFrameSize(f);
    SaveAreaFits(f);
    var m1 := RaiseRuns(fr, total, body);
    SavedArePlain(f);
    m' := LeaveRuns(fr, AllSaved(f), FirstStep(total), m.regs[SP], m.regs, m1);
    ExecConcat(fr, RaiseSP(total), Leave(AllSaved(f), FirstStep(total)), body);
  }

  /** A body may do what it likes, except to the stack pointer and the save area. */
  ghost predicate KeepsFrame(sp: int, size: int, before: Machine, after: Machine) {
    && SP in before.regs && SP in after.regs && after.regs[SP] == before.regs[SP]
    && forall a :: a in before.mem && sp - size <= a < sp ==> a in after.mem && after.mem[a] == before.mem[a]
  }

  lemma AreaSurvives(sp: int, rs: seq<Reg>, regs: map<Reg, int>, before: Machine, after: Machine)
    requires AreaHolds(sp, rs, regs, before.mem) && KeepsFrame(sp, REGISTER_SIZE * |rs|, before, after)
    ensures AreaHolds(sp, rs, regs, after.mem)
  {
  }

  /** The body's stack pointer is aligned if and only if the caller's is. */
  lemma BodyIsAligned(f: Needs, sp: int)
    ensures sp % 16 == 0 <==> (sp - TotalStackFrameSize(f)) % 16 == 0
  {
    assert TotalStackFrameSize(f) % 16 == 0;
  }

  lemma BodyLeaves(fr: Frame, f: Needs, m: Machine, m1: Machine, body: Machine)
    requires NeedsOk(f) && StackOk(f, m) && ExecAll(fr, Prologue(f), m) == Some(m1)
    requires KeepsFrame(m.regs[SP], REGISTER_SIZE * |AllSaved(f)|, m1, body)
    ensures m1.regs[SP] == body.regs[SP] == m.regs[SP] - TotalStackFrameSize(f)
    ensures AreaHolds(m.regs[SP], AllSaved(f), m.regs, body.mem) && (m.regs[SP] % 16 == 0 <==> m1.regs[SP] % 16 == 0)
  {
    BodyIsAligned(f, m.regs[SP]);
    var entered := PrologueRuns(fr, f, m);
    AreaSurvives(m.regs[SP], AllSaved(f), m.regs, m1, body);
  }

  /** A whole function: prologue, body, epilogue. The caller finds the stack pointer, the frame pointer, the return
      address and the callee-saved registers as they were, and memory as the body left it; the body runs with an
      aligned stack pointer if the caller did. */
  lemma FrameRoundTrip(fr: Frame, f: Needs, m: Machine, code: seq<Instr>, m1: Machine, body: Machine)
    returns (m': Machine)
    requires NeedsOk(f) && StackOk(f, m) && ExecAll(fr, Prologue(f), m) == Some(m1) && ExecAll(fr, code, m1) == Some(body)
    requires KeepsFrame(m.regs[SP], REGISTER_SIZE * |AllSaved(f)|, m1, body)
    ensures m.regs[SP] % 16 == 0 <==> m1.regs[SP] % 16 == 0
    ensures ExecAll(fr, Prologue(f) + code + Epilogue(f), m) == Some(m') && m'.mem == body.mem
    ensures SP in m'.regs && m'.regs[SP] == m.regs[SP]
    ensures forall r :: r in AllSaved(f) ==> r in m'.regs && m'.regs[r] == m.regs[r]
    ensures forall r :: r in body.regs && r != SP && r != T0 && r !in AllSaved(f) ==> r in m'.regs && m'.regs[r] == body.regs[r]
  {
    BodyLeaves(fr, f, m, m1, body);
    m' := EpilogueUndoes(fr, f, m, body);
    ExecThree(fr, Prologue(f), code, Epilogue(f), m, m1, body);
  }

  // ---------------------------------------------------------------------------------------------
  // Where spilled registers lie
  // ---------------------------------------------------------------------------------------------

  /** Saved registers and local objects take the bytes below the frame pointer. */
  predicate InSavedOrLocal(f: Needs, offset: int) {
    -(REGISTER_SIZE * 2 + |SavedRegs(f)| * REGISTER_SIZE + f.local) <= offset < 0
  }

  /** The offsets of spill cells leave the save area out: a cell lies among the saved registers and local objects
      just when it is one of the first ones, as many as there are saved registers. */
  lemma SpillCellOverlaps(f: Needs, q: nat, byte: nat)
    requires byte < REGISTER_SIZE
    ensures InSavedOrLocal(f, CellOffset(Layout(f.local, f.spilled), q) + byte) <==> q < 2 + |SavedRegs(f)|
  {
  }

  /** The lowest byte, counted from the frame pointer, above what is passed to called functions on the stack. */
  function AboveOutgoing(f: Needs): int { f.callFrame - TotalStackFrameSize(f) }

  /** Every cell lies in the frame, above the bytes for outgoing arguments. */
  lemma CellsLieInFrame(f: Needs, q: nat)
    requires q < f.spilled + f.reserved
    ensures AboveOutgoing(f) <= CellOffset(Layout(f.local, f.spilled), q) <= 0 - REGISTER_SIZE
  {
  }

  /** The bytes from the body's stack pointer up, as many as are passed to called functions, belong to no cell, no local
      object and no saved register; and less than 16 bytes of the frame belong to nothing. */
  lemma OutgoingApart(f: Needs, fr: Frame, m: Machine, a: int) returns (m': Machine)
    requires NeedsOk(f) && StackOk(f, m) && fr == Frame(m.regs[SP], Layout(f.local, f.spilled), f.reserved)
    ensures ExecAll(fr, Prologue(f), m) == Some(m') && SP in m'.regs && FP in m'.regs && m'.regs[FP] == fr.fp
    ensures m'.regs[SP] <= a < m'.regs[SP] + f.callFrame ==>
              && a < m'.regs[FP] - (REGISTER_SIZE * |AllSaved(f)| + f.local)
              && forall q :: 0 <= q < CellCount(fr) ==> a < Cell(fr, q)
    ensures fr.fp - m'.regs[SP] < f.callFrame + REGISTER_SIZE * (CellCount(fr) + |AllSaved(f)|) + f.local + 16
  {
    m' := PrologueRuns(fr, f, m);
    forall q | 0 <= q < CellCount(fr) ensures AboveOutgoing(f) <= CellOffset(fr.lay, q) {
      CellsLieInFrame(f, q);
    }
  }

  // ---------------------------------------------------------------------------------------------
  // The rewriter
  // ---------------------------------------------------------------------------------------------

  /** The return address and the frame pointer come first. */
  lemma FirstTwo(f: Needs, first: int)
    ensures SaveAll(AllSaved(f), first) == [Save(RA, first - 8)] + ([Save(FP, first - 16)] + SaveAll(SavedRegs(f), first - 16))
    ensures RestoreAll(AllSaved(f), first)
         == [Restore(RA, first - 8)] + ([Restore(FP, first - 16)] + RestoreAll(SavedRegs(f), first - 16))
  {
    assert AllSaved(f)[1..][0] == FP && AllSaved(f)[1..][1..] == SavedRegs(f);
  }

  method SaveRegs(f: Needs, first: int) returns (code: seq<Instr>)
    ensures code == SaveAll(AllSaved(f), first)
  {
    var offset := first - REGISTER_SIZE;
    code := [Save(RA, offset)];
    offset := offset - REGISTER_SIZE;
    code := code + [Save(FP, offset)];
    FirstTwo(f, first);
    var saved := SavedRegs(f);
    for k := 0 to |saved|
      invariant code + SaveAll(saved[k..], offset) == SaveAll(AllSaved(f), first)
    {
      offset := offset - REGISTER_SIZE;
      assert saved[k..][0] == saved[k] && saved[k..][1..] == saved[k + 1..];
      code := code + [Save(saved[k], offset)];
    }
  }

  method RestoreRegs(f: Needs, first: int) returns (code: seq<Instr>)
    ensures code == RestoreAll(AllSaved(f), first)
  {
    var offset := first - REGISTER_SIZE;
    code := [Restore(RA, offset)];
    offset := offset - REGISTER_SIZE;
    code := code + [Restore(FP, offset)];
    FirstTwo(f, first);
    var saved := SavedRegs(f);
    for k := 0 to |saved|
      invariant code + RestoreAll(saved[k..], offset) == RestoreAll(AllSaved(f), first)
    {
      offset := offset - REGISTER_SIZE;
      assert saved[k..][0] == saved[k] && saved[k..][1..] == saved[k + 1..];
      code := code + [Restore(saved[k], offset)];
    }
  }

  class FrameRewriter {
    var code: seq<Instr>
    var stackSizeForCalleeSavedRegs: nat
    var totalStackFrameSizeInBytes: nat

    constructor (code: seq<Instr>)
      ensures this.code == code
    {
      this.code := code;
      stackSizeForCalleeSavedRegs, totalStackFrameSizeInBytes := 0, 0;
    }

    method InsertPrologue(f: Needs)
      modifies this
      ensures code == Prologue(f) + old(code) && totalStackFrameSizeInBytes == TotalStackFrameSize(f)
      ensures stackSizeForCalleeSavedRegs == |SavedRegs(f)| * REGISTER_SIZE
    {
      var total := f.callFrame + (REGISTER_SIZE * f.spilled + REGISTER_SIZE * f.reserved) + f.local;
      stackSizeForCalleeSavedRegs := if f.isMain then 0 else |f.used| * REGISTER_SIZE;
      total := total + stackSizeForCalleeSavedRegs + REGISTER_SIZE + REGISTER_SIZE;
      if total % 16 != 0 {
        total := total + (16 - total % 16);
      }
      totalStackFrameSizeInBytes := total;
      var adjust, offset := 0, total;
      if total > 2047 {
        adjust := 2048 - STACK_ALIGN;
        offset := adjust;
      }
      var saves := SaveRegs(f, offset);
      var lower := [];
      if adjust != 0 {
        lower := [Instr(LI, [RegOp(T0), ImmOp(total - adjust)]), Instr(SUB, [RegOp(SP), RegOp(SP), RegOp(T0)])];
      }
      code := [AddImmTo(SP, SP, -offset)] + saves + [AddImmTo(FP, SP, offset)] + lower + code;
    }

    method InsertEpilogue(f: Needs)
      requires totalStackFrameSizeInBytes == TotalStackFrameSize(f)
      modifies this`code
      ensures code == old(code) + Epilogue(f)
    {
      var total := totalStackFrameSizeInBytes;
      var adjust, offset := 0, total;
      if total > 2047 {
        adjust := 2048 - STACK_ALIGN;
        offset := adjust;
      }
      var raise := [];
      if adjust != 0 {
        raise := [Instr(LI, [RegOp(T0), ImmOp(total - adjust)]), Instr(ADD, [RegOp(SP), RegOp(SP), RegOp(T0)])];
      }
      assert raise == RaiseSP(total);
      var restores := RestoreRegs(f, offset);
      code := code + (raise + (restores + [AddImmTo(SP, SP, offset)]));
    }
  }
}
