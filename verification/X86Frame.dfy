/** x86-64 stack frames (src/codegen/asm/X86/X86AsmRewriter.h). */
module X86Frame {
  import opened Int64
  import opened Options
  import opened Registers
  import opened SaveAreas

  const RSP: Reg := 10
  const RBP: Reg := 11

  /** The instructions at both ends of a function. */
  datatype Instr = PUSH(reg: Reg) | POP(reg: Reg) | MOV(src: Reg, dst: Reg) | ADD(imm: int, reg: Reg) | SUB(imm: int, reg: Reg)

  datatype Machine = Machine(regs: map<Reg, int>, mem: map<int, int>)

  function Exec(i: Instr, m: Machine): Option<Machine> {
    if RSP !in m.regs then None else
    match i
    case PUSH(r) =>
      var top := Wrap(m.regs[RSP] - REGISTER_SIZE);
      if r !in m.regs || top !in m.mem then None
      else Some(Machine(m.regs[RSP := top], m.mem[top := m.regs[r]]))
    case POP(r) =>
      var top := m.regs[RSP];
      if top !in m.mem then None else Some(m.(regs := m.regs[RSP := Wrap(top + REGISTER_SIZE)][r := m.mem[top]]))
    case MOV(s, d) => if s !in m.regs then None else Some(m.(regs := m.regs[d := m.regs[s]]))
    case ADD(n, d) => if d !in m.regs then None else Some(m.(regs := m.regs[d := Wrap(m.regs[d] + n)]))
    case SUB(n, d) => if d !in m.regs then None else Some(m.(regs := m.regs[d := Wrap(m.regs[d] - n)]))
  }

  function ExecAll(code: seq<Instr>, m: Machine): Option<Machine> {
    if code == [] then Some(m) else
    var m1 := Exec(code[0], m);
    if m1.None? then None else ExecAll(code[1..], m1.value)
  }

  lemma {:induction false} ExecConcat(c1: seq<Instr>, c2: seq<Instr>, m: Machine)
    requires ExecAll(c1, m).Some?
    ensures ExecAll(c1 + c2, m) == ExecAll(c2, ExecAll(c1, m).value)
  {
    if c1 == [] {
      assert c1 + c2 == c2;
    } else {
      assert (c1 + c2)[1..] == c1[1..] + c2;
      ExecConcat(c1[1..], c2, Exec(c1[0], m).value);
    }
  }

  lemma ExecOne(i: Instr, m: Machine)
    ensures ExecAll([i], m) == Exec(i, m)
  {
    var m1 := Exec(i, m);
    if m1.Some? {
      assert ExecAll([], m1.value) == Some(m1.value);
    }
  }

  lemma ExecThree(a: seq<Instr>, b: seq<Instr>, c: seq<Instr>, m: Machine, m1: Machine, m2: Machine)
    requires ExecAll(a, m) == Some(m1) && ExecAll(b, m1) == Some(m2)
    ensures ExecAll(a + b + c, m) == ExecAll(c, m2)
  {
    ExecConcat(a, b, m);
    ExecConcat(a + b, c, m);
  }

  // ---------------------------------------------------------------------------------------------
  // Prologue and epilogue
  // ---------------------------------------------------------------------------------------------

  datatype Needs = Needs(callFrame: nat, local: nat, spilled: nat, reserved: nat, used: seq<Reg>, isMain: bool)

  /** `main` does not save callee-saved registers. */
  function SavedRegs(f: Needs): seq<Reg> { if f.isMain then [] else f.used }

  function FrameSize(f: Needs): nat {
    f.callFrame + f.local + (REGISTER_SIZE * f.spilled + REGISTER_SIZE * f.reserved)
  }

  /** The frame is padded so that it, the saved registers, the frame pointer and the return address together take a
      multiple of 16 bytes. */
  function NeededStackSize(f: Needs): nat {
    var total := FrameSize(f) + REGISTER_SIZE + REGISTER_SIZE + |SavedRegs(f)| * REGISTER_SIZE;
    if total % 16 == 0 then FrameSize(f) else FrameSize(f) + (16 - total % 16)
  }

  function PushAll(rs: seq<Reg>): seq<Instr> { if rs == [] then [] else [PUSH(rs[0])] + PushAll(rs[1..]) }

  /** The last one first. */
  function PopAll(rs: seq<Reg>): seq<Instr> { if rs == [] then [] else PopAll(rs[1..]) + [POP(rs[0])] }

  function Prologue(f: Needs): seq<Instr> {
    [PUSH(RBP), MOV(RSP, RBP)] + PushAll(SavedRegs(f)) + [SUB(NeededStackSize(f), RSP)]
  }

  /** Without the final return. */
  function Epilogue(f: Needs): seq<Instr> {
    [ADD(NeededStackSize(f), RSP)] + (PopAll(SavedRegs(f)) + [POP(RBP)])
  }

  lemma {:induction false} PushRuns(rs: seq<Reg>, sp: int, m: Machine) returns (m': Machine)
    requires RSP in m.regs && m.regs[RSP] == sp && RSP !in rs && (forall r :: r in rs ==> r in m.regs)
    requires InRange(sp) && InRange(sp - REGISTER_SIZE * |rs|) && AreaMapped(sp, |rs|, m.mem)
    ensures ExecAll(PushAll(rs), m) == Some(m') && m'.regs == m.regs[RSP := sp - REGISTER_SIZE * |rs|]
    ensures m'.mem.Keys == m.mem.Keys && AreaHolds(sp, rs, m.regs, m'.mem)
    ensures forall a :: a in m.mem && !(sp - REGISTER_SIZE * |rs| <= a < sp) ==> m'.mem[a] == m.mem[a]
    decreases rs
  {
    if rs == [] {
      m' := m;
    } else {
      var top := SaveCell(sp, 0);
      assert rs[0] in rs;
      var m1 := Machine(m.regs[RSP := top], m.mem[top := m.regs[rs[0]]]);
      assert Exec(PUSH(rs[0]), m) == Some(m1);
      AreaBelow(sp, top, |rs|, m1.mem);
      m' := PushRuns(rs[1..], top, m1);
      assert AreaHolds(top, rs[1..], m.regs, m'.mem);
      AreaCons(sp, top, rs, m.regs, m'.mem);
    }
  }

  lemma {:induction false} PopRuns(rs: seq<Reg>, sp: int, saved: map<Reg, int>, m: Machine) returns (m': Machine)
    requires RSP in m.regs && RSP !in rs && AllDistinct(rs) && m.regs[RSP] == sp - REGISTER_SIZE * |rs|
    requires InRange(sp) && InRange(sp - REGISTER_SIZE * |rs|) && AreaHolds(sp, rs, saved, m.mem)
    ensures ExecAll(PopAll(rs), m) == Some(m') && m'.mem == m.mem && RSP in m'.regs && m'.regs[RSP] == sp
    ensures forall r :: r in rs ==> r in m'.regs && m'.regs[r] == saved[r]
    ensures forall r :: r in m.regs && r != RSP && r !in rs ==> r in m'.regs && m'.regs[r] == m.regs[r]
    decreases rs
  {
    if rs == [] {
      m' := m;
    } else {
      AreaTail(sp, sp - REGISTER_SIZE, rs, saved, m.mem);
      var m1 := PopRuns(rs[1..], sp - REGISTER_SIZE, saved, m);
      m' := m1.(regs := m1.regs[RSP := sp][rs[0] := saved[rs[0]]]);
      assert rs[0] in rs && m1.regs[RSP] == SaveCell(sp, 0);
      assert Exec(POP(rs[0]), m1) == Some(m');
      ExecOne(POP(rs[0]), m1);
      ExecConcat(PopAll(rs[1..]), [POP(rs[0])], m);
      assert forall r :: r in rs ==> r == rs[0] || r in rs[1..];
    }
  }

  // ---------------------------------------------------------------------------------------------
  // Both ends together
  // ---------------------------------------------------------------------------------------------

  predicate NeedsOk(f: Needs) { AllDistinct(f.used) && RSP !in f.used && RBP !in f.used }

  function AllSaved(f: Needs): seq<Reg> { [RBP] + SavedRegs(f) }

  /** All the bytes below the return address. */
  function Depth(f: Needs): nat { REGISTER_SIZE * |AllSaved(f)| + NeededStackSize(f) }

  /** The stack has room: nothing wraps around, and the save area is in memory. */
  ghost predicate StackOk(f: Needs, m: Machine) {
    && RSP in m.regs && InRange(m.regs[RSP]) && InRange(m.regs[RSP] - Depth(f))
    && (forall r :: r in AllSaved(f) ==> r in m.regs) && AreaMapped(m.regs[RSP], |AllSaved(f)|, m.mem)
  }

  /** At a call the stack pointer is 8 bytes off a multiple of 16, and in the body it is a multiple of 16
      (section 3.2.2 of the System V AMD64 psABI), whatever the sizes. */
  lemma BodyIsAligned(f: Needs, sp: int)
    ensures (sp + REGISTER_SIZE) % 16 == 0 <==> (sp - Depth(f)) % 16 == 0
  {
    assert (Depth(f) + REGISTER_SIZE) % 16 == 0;
    SixteensApart(sp - Depth(f), (Depth(f) + REGISTER_SIZE) / 16);
  }

  lemma SixteensApart(x: int, k: int)
    ensures (x + 16 * k) % 16 == x % 16
  {
  }

  lemma EnterRuns(sp: int, m: Machine) returns (m': Machine)
    requires RSP in m.regs && RBP in m.regs && m.regs[RSP] == sp && InRange(sp) && InRange(sp - REGISTER_SIZE)
    requires SaveCell(sp, 0) in m.mem
    ensures ExecAll([PUSH(RBP), MOV(RSP, RBP)], m) == Some(m')
    ensures m' == Machine(m.regs[RSP := sp - REGISTER_SIZE][RBP := sp - REGISTER_SIZE], m.mem[SaveCell(sp, 0) := m.regs[RBP]])
  {
    var m1 := Machine(m.regs[RSP := sp - REGISTER_SIZE], m.mem[SaveCell(sp, 0) := m.regs[RBP]]);
    m' := m1.(regs := m1.regs[RBP := sp - REGISTER_SIZE]);
    ExecOne(PUSH(RBP), m);
    ExecOne(MOV(RSP, RBP), m1);
    ExecConcat([PUSH(RBP)], [MOV(RSP, RBP)], m);
    assert [PUSH(RBP)] + [MOV(RSP, RBP)] == [PUSH(RBP), MOV(RSP, RBP)];
  }

  lemma UpdatesCommute(regs: map<Reg, int>, fp: int, sp: int)
    ensures regs[RSP := fp][RBP := fp][RSP := sp] == regs[RSP := sp][RBP := fp]
  {
  }

  lemma SaveRuns(rs: seq<Reg>, sp: int, m: Machine) returns (m': Machine)
    requires RSP in m.regs && RBP in m.regs && m.regs[RSP] == sp && RSP !in rs && RBP !in rs
    requires InRange(sp) && InRange(sp - REGISTER_SIZE * (|rs| + 1)) && AreaMapped(sp, |rs| + 1, m.mem)
    requires forall r :: r in rs ==> r in m.regs
    ensures ExecAll([PUSH(RBP), MOV(RSP, RBP)] + PushAll(rs), m) == Some(m')
    ensures m'.regs == m.regs[RSP := sp - REGISTER_SIZE * (|rs| + 1)][RBP := sp - REGISTER_SIZE]
    ensures m'.mem.Keys == m.mem.Keys && AreaHolds(sp, [RBP] + rs, m.regs, m'.mem)
    ensures forall a :: a in m.mem && !(sp - REGISTER_SIZE * (|rs| + 1) <= a < sp) ==> m'.mem[a] == m.mem[a]
  {
    assert SaveCell(sp, 0) in m.mem;
    var m1 := EnterRuns(sp, m);
    AreaBelow(sp, sp - REGISTER_SIZE, |rs| + 1, m1.mem);
    m' := PushRuns(rs, sp - REGISTER_SIZE, m1);
    UpdatesCommute(m.regs, sp - REGISTER_SIZE, sp - REGISTER_SIZE * (|rs| + 1));
    ExecConcat([PUSH(RBP), MOV(RSP, RBP)], PushAll(rs), m);
    SameArea(sp - REGISTER_SIZE, rs, m1.regs, m.regs, m'.mem);
    assert ([RBP] + rs)[1..] == rs;
    AreaCons(sp, sp - REGISTER_SIZE, [RBP] + rs, m.regs, m'.mem);
  }

  lemma PrologueRuns(f: Needs, m: Machine) returns (m': Machine)
    requires NeedsOk(f) && StackOk(f, m)
    ensures ExecAll(Prologue(f), m) == Some(m') && RSP in m'.regs && RBP in m'.regs
    ensures m'.regs[RSP] == m.regs[RSP] - Depth(f) && m'.regs[RBP] == m.regs[RSP] - REGISTER_SIZE
    ensures AreaHolds(m.regs[RSP], AllSaved(f), m.regs, m'.mem) && m'.mem.Keys == m.mem.Keys
    ensures forall r :: r in m.regs && r != RSP && r != RBP ==> r in m'.regs && m'.regs[r] == m.regs[r]
    ensures forall a :: a in m.mem && !(m.regs[RSP] - REGISTER_SIZE * |AllSaved(f)| <= a < m.regs[RSP]) ==> m'.mem[a] == m.mem[a]
  {
    var sp, rs := m.regs[RSP], SavedRegs(f);
    assert AllSaved(f)[0] == RBP;
    assert forall r :: r in rs ==> r in AllSaved(f);
    var m2 := SaveRuns(rs, sp, m);
    m' := m2.(regs := m2.regs[RSP := sp - Depth(f)]);
    ExecOne(SUB(NeededStackSize(f), RSP), m2);
    ExecConcat([PUSH(RBP), MOV(RSP, RBP)] + PushAll(rs), [SUB(NeededStackSize(f), RSP)], m);
  }

  lemma LeaveRuns(rs: seq<Reg>, sp: int, saved: map<Reg, int>, m: Machine) returns (m': Machine)
    requires RSP in m.regs && m.regs[RSP] == sp - REGISTER_SIZE * (|rs| + 1) && RSP !in rs && RBP !in rs && AllDistinct(rs)
    requires InRange(sp) && InRange(sp - REGISTER_SIZE * (|rs| + 1)) && AreaHolds(sp, [RBP] + rs, saved, m.mem)
    ensures ExecAll(PopAll(rs) + [POP(RBP)], m) == Some(m') && m'.mem == m.mem && RSP in m'.regs && m'.regs[RSP] == sp
    ensures forall r :: r == RBP || r in rs ==> r in m'.regs && r in saved && m'.regs[r] == saved[r]
    ensures forall r :: r in m.regs && r != RSP && r != RBP && r !in rs ==> r in m'.regs && m'.regs[r] == m.regs[r]
  {
    assert ([RBP] + rs)[1..] == rs;
    AreaTail(sp, sp - REGISTER_SIZE, [RBP] + rs, saved, m.mem);
    var m1 := PopRuns(rs, sp - REGISTER_SIZE, saved, m);
    m' := m1.(regs := m1.regs[RSP := sp][RBP := saved[RBP]]);
    assert m1.regs[RSP] == SaveCell(sp, 0);
    ExecOne(POP(RBP), m1);
    ExecConcat(PopAll(rs), [POP(RBP)], m);
  }

  /** After any body that keeps the stack pointer and the save area, the epilogue undoes the prologue. */
  lemma EpilogueUndoes(f: Needs, m: Machine, body: Machine) returns (m': Machine)
    requires NeedsOk(f) && StackOk(f, m)
    requires RSP in body.regs && body.regs[RSP] == m.regs[RSP] - Depth(f)
    requires AreaHolds(m.regs[RSP], AllSaved(f), m.regs, body.mem)
    ensures ExecAll(Epilogue(f), body) == Some(m') && m'.mem == body.mem
    ensures RSP in m'.regs && m'.regs[RSP] == m.regs[RSP]
    ensures forall r :: r in AllSaved(f) ==> r in m'.regs && m'.regs[r] == m.regs[r]
    ensures forall r :: r in body.regs && r != RSP && r !in AllSaved(f) ==> r in m'.regs && m'.regs[r] == body.regs[r]
  {
    var sp, rs := m.regs[RSP], SavedRegs(f);
    assert AllSaved(f)[0] == RBP;
    var m1 := body.(regs := body.regs[RSP := sp - REGISTER_SIZE * |AllSaved(f)|]);
    ExecOne(ADD(NeededStackSize(f), RSP), body);
    m' := LeaveRuns(rs, sp, m.regs, m1);
    ExecConcat([ADD(NeededStackSize(f), RSP)], PopAll(rs) + [POP(RBP)], body);
  }

  /** A body may do what it likes, except to the stack pointer and the save area. */
  ghost predicate KeepsFrame(sp: int, size: int, before: Machine, after: Machine) {
    && RSP in before.regs && RSP in after.regs && after.regs[RSP] == before.regs[RSP]
    && forall a :: a in before.mem && sp - size <= a < sp ==> a in after.mem && after.mem[a] == before.mem[a]
  }

  /** A whole function: prologue, body, epilogue. The caller finds the stack pointer, the frame pointer and the
      callee-saved registers as they were, and memory as the body left it; called with the stack pointer 8 bytes off
      a multiple of 16, the body runs with it at a multiple of 16. */
  lemma FrameRoundTrip(f: Needs, m: Machine, code: seq<Instr>, m1: Machine, body: Machine) returns (m': Machine)
    requires NeedsOk(f) && StackOk(f, m) && ExecAll(Prologue(f), m) == Some(m1) && ExecAll(code, m1) == Some(body)
    requires KeepsFrame(m.regs[RSP], REGISTER_SIZE * |AllSaved(f)|, m1, body)
    ensures (m.regs[RSP] + REGISTER_SIZE) % 16 == 0 <==> m1.regs[RSP] % 16 == 0
    ensures ExecAll(Prologue(f) + code + Epilogue(f), m) == Some(m') && m'.mem == body.mem
    ensures RSP in m'.regs && m'.regs[RSP] == m.regs[RSP]
    ensures forall r :: r in AllSaved(f) ==> r in m'.regs && m'.regs[r] == m.regs[r]
    ensures forall r :: r in body.regs && r != RSP && r !in AllSaved(f) ==> r in m'.regs && m'.regs[r] == body.regs[r]
  {
    var entered := PrologueRuns(f, m);
    BodyIsAligned(f, m.regs[RSP]);
    m' := EpilogueUndoes(f, m, body);
    ExecThree(Prologue(f), code, Epilogue(f), m, m1, body);
  }

  /** Spill cells are counted from the frame pointer past the local objects alone, but saved registers lie between: a
      cell falls among saved registers and local objects just when it is one of the first ones, as many as there are
      saved registers. */
  lemma SpillCellOverlaps(f: Needs, q: nat, byte: nat)
    requires byte < REGISTER_SIZE
    ensures 0 - (|SavedRegs(f)| * REGISTER_SIZE + f.local) <= CellOffset(f, q) + byte < 0 <==> q < |SavedRegs(f)|
  {
  }

  /** From the frame pointer. */
  function CellOffset(f: Needs, q: nat): int { 0 - (f.local + REGISTER_SIZE * (q + 1)) }

  /** The bytes from the body's stack pointer up, as many as are passed to called functions, belong to no cell, no local
      object and no saved register; and less than 16 bytes of the frame belong to nothing. */
  lemma OutgoingApart(f: Needs, m: Machine, a: int) returns (m': Machine)
    requires NeedsOk(f) && StackOk(f, m)
    ensures ExecAll(Prologue(f), m) == Some(m') && RSP in m'.regs && RBP in m'.regs
    ensures m'.regs[RSP] <= a < m'.regs[RSP] + f.callFrame ==>
              && a < m'.regs[RBP] - (REGISTER_SIZE * |SavedRegs(f)| + f.local)
              && forall q :: 0 <= q < f.spilled + f.reserved ==> a < m'.regs[RBP] + CellOffset(f, q)
    ensures m'.regs[RBP] - m'.regs[RSP]
          < f.callFrame + REGISTER_SIZE * (f.spilled + f.reserved + |SavedRegs(f)|) + f.local + 16
  {
    m' := PrologueRuns(f, m);
  }

  // ---------------------------------------------------------------------------------------------
  // The rewriter
  // ---------------------------------------------------------------------------------------------

  lemma {:induction false} PopLast(rs: seq<Reg>)
    requires rs != []
    ensures PopAll(rs) == [POP(rs[|rs| - 1])] + PopAll(rs[..|rs| - 1])
  {
    if |rs| == 1 {
      assert rs[1..] == [] && rs[..0] == [];
    } else {
      PopLast(rs[1..]);
      assert rs[1..][..|rs| - 2] == rs[..|rs| - 1][1..];
    }
  }

  class FrameRewriter {
    var code: seq<Instr>
    var stackSizeForCalleeSavedRegs: nat
    var neededStackSizeInBytes: nat

    constructor (code: seq<Instr>)
      ensures this.code == code
    {
      this.code := code;
      stackSizeForCalleeSavedRegs, neededStackSizeInBytes := 0, 0;
    }

    method InsertPrologue(f: Needs)
      modifies this
      ensures code == Prologue(f) + old(code) && neededStackSizeInBytes == NeededStackSize(f)
      ensures stackSizeForCalleeSavedRegs == |SavedRegs(f)| * REGISTER_SIZE
    {
      var front := [PUSH(RBP), MOV(RSP, RBP)];
      var saved := SavedRegs(f);
      for k := 0 to |saved|
        invariant front + PushAll(saved[k..]) == [PUSH(RBP), MOV(RSP, RBP)] + PushAll(saved)
      {
        assert saved[k..][0] == saved[k] && saved[k..][1..] == saved[k + 1..];
        front := front + [PUSH(saved[k])];
      }
      neededStackSizeInBytes := f.callFrame + f.local + (REGISTER_SIZE * f.spilled + REGISTER_SIZE * f.reserved);
      var total := neededStackSizeInBytes + REGISTER_SIZE + REGISTER_SIZE;
      if !f.isMain {
        stackSizeForCalleeSavedRegs := |f.used| * REGISTER_SIZE;
        total := total + stackSizeForCalleeSavedRegs;
      } else {
        stackSizeForCalleeSavedRegs := 0;
      }
      if total % 16 != 0 {
        neededStackSizeInBytes := neededStackSizeInBytes + (16 - total % 16);
      }
      code := front + [SUB(neededStackSizeInBytes, RSP)] + code;
    }

    method InsertEpilogue(f: Needs)
      requires neededStackSizeInBytes == NeededStackSize(f)
      modifies this`code
      ensures code == old(code) + Epilogue(f)
    {
      var back := [ADD(neededStackSizeInBytes, RSP)];
      var saved := SavedRegs(f);
      var k := |saved|;
      assert saved[..k] == saved;
      while k > 0
        invariant 0 <= k <= |saved| && code == old(code)
        invariant back + PopAll(saved[..k]) == [ADD(NeededStackSize(f), RSP)] + PopAll(saved)
      {
        PopLast(saved[..k]);
        assert saved[..k][..k - 1] == saved[..k - 1];
        k := k - 1;
        back := back + [POP(saved[k])];
      }
      assert back == [ADD(NeededStackSize(f), RSP)] + PopAll(saved);
      back := back + [POP(RBP)];
      assert back == Epilogue(f);
      code := code + back;
    }
  }
}
