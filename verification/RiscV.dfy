/** The RISC-V registers and instructions that the back end uses (src/codegen/asm/RISCV/RISCVTargetInfo.h),
    and a machine that runs straight-line code. Registers may be physical, virtual, or stack slots: a stack
    slot is a cell of the frame. */
module RiscV {
  import opened Int64
  import opened Options
  import opened Registers

  const RA: Reg := 2
  const SP: Reg := 3
  const T0: Reg := 6
  const T1: Reg := 7
  const T2: Reg := 8
  const FP: Reg := 9
  const S1: Reg := 10
  const A0: Reg := 11
  const S2: Reg := 19
  const T3: Reg := 29

  /** Registers that may be given out: T0-T2, S1, A0-A7, S2-S11, T3-T6. */
  const FREE_REGS: seq<Reg> :=
    [T0, T1, T2, S1, A0, 12, 13, 14, 15, 16, 17, 18, S2, 20, 21, 22, 23, 24, 25, 26, 27, 28, T3, 30, 31, 32]

  datatype Opcode = LD | SD | MV | LI | ADDI | ADD | SUB | MUL | DIV

  datatype Operand = RegOp(reg: Reg) | MemOp(disp: int, base: Reg) | ImmOp(val: int)

  datatype Instr = Instr(op: Opcode, ops: seq<Operand>)

  /** How a frame is laid out: `local` bytes for local objects and below them the cells, first the slots of
      spilled registers, then the ones reserved for what the spill code displaces. */
  datatype Layout = Layout(local: nat, spilled: nat)

  datatype Frame = Frame(fp: int, lay: Layout, reserved: nat)

  function CellOffset(lay: Layout, q: nat): int { -(lay.local + REGISTER_SIZE * (q + 1)) }

  function Cell(fr: Frame, q: nat): int { fr.fp + CellOffset(fr.lay, q) }

  function CellCount(fr: Frame): nat { fr.lay.spilled + fr.reserved }

  /** The frame fits into the address space. */
  predicate FrameOk(fr: Frame) { InRange(fr.fp) && InRange(fr.fp - fr.lay.local - REGISTER_SIZE * CellCount(fr)) }

  datatype Machine = Machine(regs: map<Reg, int>, mem: map<int, int>)

  function Read(fr: Frame, m: Machine, r: Reg): Option<int> {
    if IsStackSlot(r) then
      var a := Cell(fr, StackSlot2Index(r));
      if a in m.mem then Some(m.mem[a]) else None
    else if r in m.regs then Some(m.regs[r]) else None
  }

  function Write(fr: Frame, m: Machine, r: Reg, n: int): Machine {
    if IsStackSlot(r) then m.(mem := m.mem[Cell(fr, StackSlot2Index(r)) := n]) else m.(regs := m.regs[r := n])
  }

  function ReadOp(fr: Frame, m: Machine, o: Operand): Option<int> {
    match o
    case RegOp(r) => Read(fr, m, r)
    case ImmOp(n) => Some(n)
    case MemOp(disp, base) =>
      var b := Read(fr, m, base);
      if b.None? then None else Some(Wrap(b.value + disp))
  }

  /** Quotients round towards zero; division by zero gives -1, and the quotient that overflows is the
      dividend (section 7.2 of the RISC-V Unprivileged ISA, 20191213). */
  function Quotient(a: int, b: int): int {
    if b == 0 then -1 else if a == -TWO_63 && b == -1 then a else Truncated(a, b)
  }

  function Arithmetic(op: Opcode, a: int, b: int): int
    requires op.ADD? || op.SUB? || op.MUL? || op.DIV? || op.ADDI?
  {
    match op
    case SUB => Wrap(a - b)
    case MUL => Wrap(a * b)
    case DIV => Quotient(a, b)
    case _ => Wrap(a + b)
  }

  /** Operands of the kinds that the opcode takes. */
  predicate Shaped(i: Instr) {
    match i.op
    case LI => |i.ops| == 2 && i.ops[0].RegOp? && i.ops[1].ImmOp?
    case MV => |i.ops| == 2 && i.ops[0].RegOp? && i.ops[1].RegOp?
    case LD => |i.ops| == 2 && i.ops[0].RegOp? && i.ops[1].MemOp?
    case SD => |i.ops| == 2 && i.ops[0].RegOp? && i.ops[1].MemOp?
    case ADDI => |i.ops| == 3 && i.ops[0].RegOp? && i.ops[1].RegOp? && i.ops[2].ImmOp?
    case _ => |i.ops| == 3 && i.ops[0].RegOp? && i.ops[1].RegOp? && i.ops[2].RegOp?
  }

  /** The value an instruction produces: for its first operand, or for memory. */
  function Produces(fr: Frame, i: Instr, m: Machine): Option<int>
    requires Shaped(i)
  {
    match i.op
    case LI => ReadOp(fr, m, i.ops[1])
    case MV => ReadOp(fr, m, i.ops[1])
    case LD =>
      var a := ReadOp(fr, m, i.ops[1]);
      if a.Some? && a.value in m.mem then Some(m.mem[a.value]) else None
    case SD => ReadOp(fr, m, i.ops[0])
    case _ =>
      var a, b := ReadOp(fr, m, i.ops[1]), ReadOp(fr, m, i.ops[2]);
      if a.None? || b.None? then None else Some(Arithmetic(i.op, a.value, b.value))
  }

  /** One instruction; it goes nowhere from a register without a value or an address outside memory. */
  function Exec(fr: Frame, i: Instr, m: Machine): Option<Machine> {
    if !Shaped(i) then None else
    var n := Produces(fr, i, m);
    if n.None? then None
    else if i.op.SD? then
      var a := ReadOp(fr, m, i.ops[1]);
      if a.None? || a.value !in m.mem then None else Some(m.(mem := m.mem[a.value := n.value]))
    else Some(Write(fr, m, i.ops[0].reg, n.value))
  }

  function ExecAll(fr: Frame, code: seq<Instr>, m: Machine): Option<Machine> {
    if code == [] then Some(m) else
    var m1 := Exec(fr, code[0], m);
    if m1.None? then None else ExecAll(fr, code[1..], m1.value)
  }

  lemma {:induction false} ExecConcat(fr: Frame, c1: seq<Instr>, c2: seq<Instr>, m: Machine)
    requires ExecAll(fr, c1, m).Some?
    ensures ExecAll(fr, c1 + c2, m) == ExecAll(fr, c2, ExecAll(fr, c1, m).value)
  {
    if c1 == [] {
      assert c1 + c2 == c2;
    } else {
      assert (c1 + c2)[1..] == c1[1..] + c2;
      ExecConcat(fr, c1[1..], c2, Exec(fr, c1[0], m).value);
    }
  }

  lemma ExecOne(fr: Frame, i: Instr, m: Machine)
    ensures ExecAll(fr, [i], m) == Exec(fr, i, m)
  {
    var m1 := Exec(fr, i, m);
    if m1.Some? {
      assert ExecAll(fr, [], m1.value) == Some(m1.value);
    }
  }

  lemma ExecTwo(fr: Frame, i1: Instr, i2: Instr, m: Machine)
    requires Exec(fr, i1, m).Some?
    ensures ExecAll(fr, [i1, i2], m) == Exec(fr, i2, Exec(fr, i1, m).value)
  {
    assert [i1, i2] == [i1] + [i2];
    ExecOne(fr, i1, m);
    ExecConcat(fr, [i1], [i2], m);
    ExecOne(fr, i2, Exec(fr, i1, m).value);
  }

  // ---------------------------------------------------------------------------------------------
  // The registers of an instruction
  // ---------------------------------------------------------------------------------------------

  /** The register that an operand names; 0 if there is none. */
  function RegIn(o: Operand): Reg {
    match o
    case RegOp(r) => r
    case MemOp(_, b) => b
    case ImmOp(_) => NO_REGISTER
  }

  function WithReg(o: Operand, r: Reg): Operand {
    match o
    case RegOp(_) => RegOp(r)
    case MemOp(d, _) => MemOp(d, r)
    case ImmOp(n) => o
  }

  function SetReg(i: Instr, k: nat, r: Reg): Instr
    requires k < |i.ops|
  {
    i.(ops := i.ops[k := WithReg(i.ops[k], r)])
  }

  /** The register that an instruction writes. */
  predicate WritesReg(i: Instr) { !i.op.SD? && |i.ops| > 0 && i.ops[0].RegOp? }
}
