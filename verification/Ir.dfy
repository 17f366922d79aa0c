/** The part of LLVM's intermediate representation that the generator emits, and a machine that runs it. */
module Ir {
  import opened Int64
  import opened Options
  import Ast

  /** Stack slots: those of the declared variables, and one for every input expression. */
  datatype Slot = VarSlot(x: nat) | InputSlot(k: nat)

  datatype Opcode = ADD | SUB | MUL | SDIV

  datatype Predicate = SGT | EQ | NE

  /** What kind of instruction defines a temporary. */
  datatype Kind = LoadInst | BinaryInst | CmpInst | GepInst

  /** A temporary knows the instruction that defines it and, apart from that, whether its type is i1. */
  datatype Value = ConstantInt(n: int) | Temp(id: nat, kind: Kind, isI1: bool) | Alloca(slot: Slot)

  datatype Instr =
    | Load(dst: nat, ptr: Value)
    | Store(val: Value, ptr: Value)
    | BinOp(dst: nat, opcode: Opcode, a: Value, b: Value)
    | ICmp(dst: nat, pred: Predicate, a: Value, b: Value)
    | Gep(dst: nat, base: Value, index: Value, elemSize: nat)
    | Scanf(ptr: Value)
    | Printf(val: Value)

  datatype Terminator = Br(dest: nat) | CondBr(cond: Value, ifTrue: nat, ifFalse: nat)

  datatype Block = Block(instrs: seq<Instr>, term: Option<Terminator>)

  type Cfg = map<nat, Block>

  // ---------------------------------------------------------------------------------------------
  // Running instructions
  // ---------------------------------------------------------------------------------------------

  /** The state of a run: temporaries, memory, and what has been read and written. */
  datatype Machine = Machine(temps: map<nat, int>, mem: map<int, int>, input: seq<int>, output: seq<int>)

  /** Where the stack slots lie, and how many there are for input. */
  datatype Frame = Frame(slotAt: Slot -> int, inputs: nat)

  function ValueOf(v: Value, frame: Frame, m: Machine): Option<int> {
    match v
    case ConstantInt(n) => Some(n)
    case Temp(id, _, _) => if id in m.temps then Some(m.temps[id]) else None
    case Alloca(slot) => Some(frame.slotAt(slot))
  }

  function Set(m: Machine, dst: nat, n: int): Machine { m.(temps := m.temps[dst := n]) }

  function BinResult(opcode: Opcode, a: int, b: int): Option<int> {
    match opcode
    case ADD => Some(Wrap(a + b))
    case SUB => Some(Wrap(a - b))
    case MUL => Some(Wrap(a * b))
    case SDIV => if Divides(a, b) then Some(Truncated(a, b)) else None
  }

  function CmpResult(pred: Predicate, a: int, b: int): int {
    match pred
    case SGT => Bit(a > b)
    case EQ => Bit(a == b)
    case NE => Bit(a != b)
  }

  /** One instruction; there is no next state where the behaviour is undefined. */
  function Run(i: Instr, frame: Frame, m: Machine): Option<Machine> {
    match i
    case Load(dst, ptr) =>
      var p := ValueOf(ptr, frame, m);
      if p.None? || p.value !in m.mem then None else Some(Set(m, dst, m.mem[p.value]))
    case Store(val, ptr) =>
      var n, p := ValueOf(val, frame, m), ValueOf(ptr, frame, m);
      if n.None? || p.None? || p.value !in m.mem then None else Some(m.(mem := m.mem[p.value := n.value]))
    case BinOp(dst, opcode, a, b) =>
      var x, y := ValueOf(a, frame, m), ValueOf(b, frame, m);
      if x.None? || y.None? then None else
      var r := BinResult(opcode, x.value, y.value);
      if r.None? then None else Some(Set(m, dst, r.value))
    case ICmp(dst, pred, a, b) =>
      var x, y := ValueOf(a, frame, m), ValueOf(b, frame, m);
      if x.None? || y.None? then None else Some(Set(m, dst, CmpResult(pred, x.value, y.value)))
    case Gep(dst, base, index, elemSize) =>
      var x, y := ValueOf(base, frame, m), ValueOf(index, frame, m);
      if x.None? || y.None? then None else Some(Set(m, dst, ElementAt(x.value, y.value, elemSize)))
    case Scanf(ptr) =>
      var p := ValueOf(ptr, frame, m);
      if p.None? || p.value !in m.mem || m.input == [] then None
      else Some(m.(mem := m.mem[p.value := m.input[0]], input := m.input[1..]))
    case Printf(val) =>
      var n := ValueOf(val, frame, m);
      if n.None? then None else Some(m.(output := m.output + [n.value]))
  }

  function RunAll(code: seq<Instr>, frame: Frame, m: Machine): Option<Machine> {
    if code == [] then Some(m) else
    var m1 := Run(code[0], frame, m);
    if m1.None? then None else RunAll(code[1..], frame, m1.value)
  }

  lemma {:induction false} RunConcat(c1: seq<Instr>, c2: seq<Instr>, frame: Frame, m: Machine)
    requires RunAll(c1, frame, m).Some?
    ensures RunAll(c1 + c2, frame, m) == RunAll(c2, frame, RunAll(c1, frame, m).value)
  {
    if c1 == [] {
      assert c1 + c2 == c2;
    } else {
      assert (c1 + c2)[1..] == c1[1..] + c2;
      RunConcat(c1[1..], c2, frame, Run(c1[0], frame, m).value);
    }
  }

  lemma RunOne(i: Instr, frame: Frame, m: Machine)
    ensures RunAll([i], frame, m) == Run(i, frame, m)
  {
    var m1 := Run(i, frame, m);
    if m1.Some? {
      assert [i][1..] == [];
      assert RunAll([], frame, m1.value) == Some(m1.value);
    }
  }

  // ---------------------------------------------------------------------------------------------
  // Running a control-flow graph
  // ---------------------------------------------------------------------------------------------

  /** A place in the graph and the state there. */
  datatype Config = Config(at: nat, pc: nat, m: Machine)

  /** One step: the instruction at hand or, at the end of the block, its terminator. */
  function Step(g: Cfg, frame: Frame, c: Config): Option<Config> {
    if c.at !in g then None else
    var b := g[c.at];
    if c.pc < |b.instrs| then
      var m1 := Run(b.instrs[c.pc], frame, c.m);
      if m1.None? then None else Some(Config(c.at, c.pc + 1, m1.value))
    else if c.pc > |b.instrs| || b.term.None? then None
    else
      match b.term.value
      case Br(dest) => Some(Config(dest, 0, c.m))
      case CondBr(cond, ifTrue, ifFalse) =>
        var n := ValueOf(cond, frame, c.m);
        if n.None? then None else Some(Config(if n.value != 0 then ifTrue else ifFalse, 0, c.m))
  }

  function Steps(g: Cfg, frame: Frame, c: Config, n: nat): Option<Config>
    decreases n
  {
    if n == 0 then Some(c) else
    var c1 := Step(g, frame, c);
    if c1.None? then None else Steps(g, frame, c1.value, n - 1)
  }

  lemma {:induction false} StepsAdd(g: Cfg, frame: Frame, c: Config, n1: nat, n2: nat)
    requires Steps(g, frame, c, n1).Some?
    ensures Steps(g, frame, c, n1 + n2) == Steps(g, frame, Steps(g, frame, c, n1).value, n2)
    decreases n1
  {
    if n1 > 0 {
      StepsAdd(g, frame, Step(g, frame, c).value, n1 - 1, n2);
    }
  }

  ghost predicate Reaches(g: Cfg, frame: Frame, c: Config, c': Config) {
    exists n: nat :: Steps(g, frame, c, n) == Some(c')
  }

  lemma ReachesSelf(g: Cfg, frame: Frame, c: Config)
    ensures Reaches(g, frame, c, c)
  {
    assert Steps(g, frame, c, 0) == Some(c);
  }

  lemma ReachesTrans(g: Cfg, frame: Frame, c1: Config, c2: Config, c3: Config)
    requires Reaches(g, frame, c1, c2) && Reaches(g, frame, c2, c3)
    ensures Reaches(g, frame, c1, c3)
  {
    var n1: nat :| Steps(g, frame, c1, n1) == Some(c2);
    var n2: nat :| Steps(g, frame, c2, n2) == Some(c3);
    StepsAdd(g, frame, c1, n1, n2);
  }

  lemma ReachesByStep(g: Cfg, frame: Frame, c: Config, c': Config)
    requires Step(g, frame, c) == Some(c')
    ensures Reaches(g, frame, c, c')
  {
    assert Steps(g, frame, c, 1) == Steps(g, frame, c', 0);
  }

  /** Code that stands in a block from `pc` on is run to its end. */
  lemma {:induction false} ReachesThrough(g: Cfg, frame: Frame, at: nat, pc: nat, code: seq<Instr>, m: Machine)
    requires at in g && pc + |code| <= |g[at].instrs| && g[at].instrs[pc..pc + |code|] == code
    requires RunAll(code, frame, m).Some?
    ensures Reaches(g, frame, Config(at, pc, m), Config(at, pc + |code|, RunAll(code, frame, m).value))
    decreases |code|
  {
    if code == [] {
      ReachesSelf(g, frame, Config(at, pc, m));
    } else {
      var m1 := Run(code[0], frame, m).value;
      assert g[at].instrs[pc] == code[0];
      ReachesByStep(g, frame, Config(at, pc, m), Config(at, pc + 1, m1));
      assert g[at].instrs[pc + 1..pc + |code|] == code[1..];
      ReachesThrough(g, frame, at, pc + 1, code[1..], m1);
      ReachesTrans(g, frame, Config(at, pc, m), Config(at, pc + 1, m1),
                   Config(at, pc + |code|, RunAll(code, frame, m).value));
    }
  }
}
