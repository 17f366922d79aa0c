/** Instruction selection for expressions (src/codegen/asm/RISCV/RISCVAsmBuilder.cpp, with the actions of
    src/codegen/asm/AsmBuilderHelper.gen): code on fresh virtual registers. */
module Selection {
  import opened Int64
  import opened Options
  import opened Registers
  import opened RiscV

  datatype Op = Add | Sub | Mul | SDiv

  /** Expression trees. Nodes that stand for an instruction have a number, by which shared nodes are known. */
  datatype Tree =
    | Imm(n: int)
    | Load(id: nat, place: Place)
    | Binary(id: nat, op: Op, lhs: Tree, rhs: Tree)

  /** What can be loaded from: a stack object, where a pointer leads, an array element. */
  datatype Place =
    | Object(disp: int)
    | At(ptr: Tree)
    | Element(base: Place, index: Tree, size: nat)

  // ---------------------------------------------------------------------------------------------
  // Meaning
  // ---------------------------------------------------------------------------------------------

  function Apply(op: Op, a: int, b: int): Option<int> {
    match op
    case Add => Some(Wrap(a + b))
    case Sub => Some(Wrap(a - b))
    case Mul => Some(Wrap(a * b))
    case SDiv => if Divides(a, b) then Some(Truncated(a, b)) else None
  }

  /** The values of instructions that have run, by number. */
  type Values = map<nat, int>

  /** The value of a tree: that of its instruction if it has run, even if memory has changed since. There is none for a
      quotient without one, or an address outside memory. */
  function Value(t: Tree, fp: int, vals: Values, mem: map<int, int>): Option<int> {
    match t
    case Imm(n) => Some(n)
    case Load(id, p) =>
      if id in vals then Some(vals[id]) else
      var a := Address(p, fp, vals, mem);
      if a.Some? && a.value in mem then Some(mem[a.value]) else None
    case Binary(id, op, l, r) =>
      if id in vals then Some(vals[id]) else
      var a, b := Value(l, fp, vals, mem), Value(r, fp, vals, mem);
      if a.None? || b.None? then None else Apply(op, a.value, b.value)
  }

  function Address(p: Place, fp: int, vals: Values, mem: map<int, int>): Option<int> {
    match p
    case Object(disp) => Some(Wrap(fp + disp))
    case At(t) => var a := Value(t, fp, vals, mem); if a.None? then None else Some(Wrap(a.value))
    case Element(b, i, size) =>
      var a, k := Address(b, fp, vals, mem), Value(i, fp, vals, mem);
      if a.None? || k.None? then None else Some(ElementAt(a.value, k.value, size))
  }

  // ---------------------------------------------------------------------------------------------
  // Selection
  // ---------------------------------------------------------------------------------------------

  /** No operator on two immediates, which has no action. */
  predicate Selectable(t: Tree) {
    match t
    case Imm(_) => false
    case Load(_, p) => SelectablePlace(p)
    case Binary(_, _, l, r) => (l.Imm? || Selectable(l)) && (r.Imm? || Selectable(r)) && !(l.Imm? && r.Imm?)
  }

  predicate SelectablePlace(p: Place) {
    match p
    case Object(_) => true
    case At(t) => Selectable(t)
    case Element(b, i, _) => SelectablePlace(b) && (i.Imm? || Selectable(i))
  }

  /** How many virtual registers a tree may take. */
  function Need(t: Tree): nat {
    match t
    case Imm(_) => 0
    case Load(_, p) => NeedPlace(p) + 1
    case Binary(_, _, l, r) => Need(l) + Need(r) + 1
  }

  function NeedPlace(p: Place): nat {
    match p
    case Object(_) => 0
    case At(t) => Need(t)
    case Element(b, i, _) => NeedPlace(b) + Need(i) + 3
  }

  const LIMIT: nat := 0x8000_0000

  function Virt(n: nat): Reg
    requires n < LIMIT
  {
    VIRTUAL_REG_FLAG + n
  }

  /** Code, the place of the result (a register, or a memory operand for a place), the counter of virtual
      registers and the registers of the nodes whose action has been executed. */
  datatype Out = Out(code: seq<Instr>, place: Operand, next: nat, done: map<nat, Reg>)

  function OpcodeOf(op: Op): Opcode {
    match op
    case Add => ADD
    case Sub => SUB
    case Mul => MUL
    case SDiv => DIV
  }

  function LoadImm(d: Reg, n: int): Instr { Instr(LI, [RegOp(d), ImmOp(n)]) }

  function Arith(op: Opcode, d: Reg, a: Reg, b: Reg): Instr { Instr(op, [RegOp(d), RegOp(a), RegOp(b)]) }

  function LoadMem(d: Reg, place: Operand): Instr { Instr(LD, [RegOp(d), place]) }

  /** The handlers for an immediate on the left: the immediate goes to the result register first. An addition
      takes its operands the other way round. */
  function WithImmLeft(op: Op, n: int, r: Reg, d: Reg): seq<Instr> {
    [LoadImm(d, n), if op.Add? then Arith(ADD, d, r, d) else Arith(OpcodeOf(op), d, d, r)]
  }

  function WithImmRight(op: Op, r: Reg, n: int, d: Reg): seq<Instr> { [LoadImm(d, n), Arith(OpcodeOf(op), d, r, d)] }

  /** `createADDIInst`, into a register that is new, with another one for a large immediate. */
  function AddImm(d: Reg, base: Reg, disp: int, temp: Reg): seq<Instr> {
    if -2048 <= disp <= 2047 then [Instr(ADDI, [RegOp(d), RegOp(base), ImmOp(disp)])]
    else [LoadImm(temp, disp), Arith(ADD, d, base, temp)]
  }

  /** Scaling an index and adding it to a base: for elements with a computed index. */
  function Scale(d: Reg, size: nat, index: Reg, base: Reg): seq<Instr> {
    [LoadImm(d, size), Arith(MUL, d, d, index), Arith(ADD, d, d, base)]
  }

  /** The code of a tree, into a register. A node whose action has been executed is not selected again. */
  function SelectReg(t: Tree, next: nat, done: map<nat, Reg>): (o: Out)
    requires Selectable(t) && next + Need(t) <= LIMIT
    ensures o.place.RegOp? && next <= o.next <= next + Need(t)
    decreases t
  {
    match t
    case Imm(_) => assert false; Out([], RegOp(NO_REGISTER), next, done)
    case Load(id, p) =>
      if id in done then Out([], RegOp(done[id]), next, done) else
      var o := SelectPlace(p, next, done);
      var d := Virt(o.next);
      Out(o.code + [LoadMem(d, MemOf(o.place))], RegOp(d), o.next + 1, o.done[id := d])
    case Binary(id, op, l, r) =>
      if id in done then Out([], RegOp(done[id]), next, done)
      else if l.Imm? then
        var o := SelectReg(r, next, done);
        var d := Virt(o.next);
        Out(o.code + WithImmLeft(op, l.n, o.place.reg, d), RegOp(d), o.next + 1, o.done[id := d])
      else if r.Imm? then
        var o := SelectReg(l, next, done);
        var d := Virt(o.next);
        Out(o.code + WithImmRight(op, o.place.reg, r.n, d), RegOp(d), o.next + 1, o.done[id := d])
      else
        var ol := SelectReg(l, next, done);
        var or := SelectReg(r, ol.next, ol.done);
        var d := Virt(or.next);
        Out(ol.code + or.code + [Arith(OpcodeOf(op), d, ol.place.reg, or.place.reg)], RegOp(d), or.next + 1, or.done[id := d])
  }

  /** A pointer in a register is used with displacement 0. */
  function MemOf(o: Operand): Operand { if o.RegOp? then MemOp(0, o.reg) else o }

  /** The code of a place: a pointer comes in a register, other places as memory operands. Array elements are
      computed anew every time. */
  function SelectPlace(p: Place, next: nat, done: map<nat, Reg>): (o: Out)
    requires SelectablePlace(p) && next + NeedPlace(p) <= LIMIT
    ensures (if p.At? then o.place.RegOp? else o.place.MemOp?) && next <= o.next <= next + NeedPlace(p)
    decreases p
  {
    match p
    case Object(disp) => Out([], MemOp(disp, FP), next, done)
    case At(t) => SelectReg(t, next, done)
    case Element(b, i, size) =>
      var ob := SelectPlace(b, next, done);
      if i.Imm? then WithImmIndex(ob, b, i.n, size)
      else
        var oi := SelectReg(i, ob.next, ob.done);
        WithIndex(ob, b, oi, size)
  }

  function WithImmIndex(ob: Out, b: Place, k: int, size: nat): Out
    requires (if b.At? then ob.place.RegOp? else ob.place.MemOp?) && ob.next + 3 <= LIMIT
  {
    if b.At? then ob.(place := MemOp(Wrap(k * size), ob.place.reg)) else
    var d := Virt(ob.next);
    Out(ob.code + AddressTo(b, d, ob.place, Virt(ob.next + 1)), MemOp(Wrap(k * size), d),
        ob.next + 1 + Temps(b, ob.place), ob.done)
  }

  function WithIndex(ob: Out, b: Place, oi: Out, size: nat): Out
    requires (if b.At? then ob.place.RegOp? else ob.place.MemOp?) && oi.place.RegOp? && oi.next + 3 <= LIMIT
  {
    if b.At? then
      var d := Virt(oi.next);
      Out(ob.code + oi.code + Scale(d, size, oi.place.reg, ob.place.reg), MemOp(0, d), oi.next + 1, oi.done)
    else
      var d1, n2 := Virt(oi.next), oi.next + 1 + Temps(b, ob.place);
      Out(ob.code + oi.code + (AddressTo(b, d1, ob.place, Virt(oi.next + 1)) + Scale(Virt(n2), size, oi.place.reg, d1)),
          MemOp(0, Virt(n2)), n2 + 1, oi.done)
  }

  /** `storeMemoryAddressToReg`: the address of a stack object takes one instruction. */
  function AddressTo(b: Place, d: Reg, mem: Operand, temp: Reg): seq<Instr>
    requires mem.MemOp?
  {
    if b.Object? then [Instr(ADDI, [RegOp(d), RegOp(mem.base), ImmOp(mem.disp)])] else AddImm(d, mem.base, mem.disp, temp)
  }

  /** Whether that takes a temporary. */
  function Temps(b: Place, mem: Operand): nat
    requires mem.MemOp?
  {
    if b.Object? || -2048 <= mem.disp <= 2047 then 0 else 1
  }
}
