/** Code generation (src/codegen/ir/IRCodeGeneratorImpl.cpp): what is generated, as functions of the
    builder's state, and the generator object that appends it to the function under construction. */
module IrCodegen {
  import opened Ast
  import opened Options
  import Ir
  import opened Int64

  // ---------------------------------------------------------------------------------------------
  // Expressions: straight-line code on fresh temporaries
  // ---------------------------------------------------------------------------------------------

  /** The code of an expression, its value, and the counters after it. */
  datatype Gen = Gen(code: seq<Ir.Instr>, v: Ir.Value, temps: nat, slots: nat)

  function Opcode(op: Op): Ir.Opcode
    requires op.Mul? || op.Div? || op.Add? || op.Sub?
  {
    match op
    case Mul => Ir.MUL
    case Div => Ir.SDIV
    case Add => Ir.ADD
    case Sub => Ir.SUB
  }

  function BinaryInstr(op: Op, dst: nat, a: Ir.Value, b: Ir.Value): Ir.Instr {
    match op
    case Gt => Ir.ICmp(dst, Ir.SGT, a, b)
    case Eq => Ir.ICmp(dst, Ir.EQ, a, b)
    case _ => Ir.BinOp(dst, Opcode(op), a, b)
  }

  function BinaryKind(op: Op): Ir.Kind { if op.Gt? || op.Eq? then Ir.CmpInst else Ir.BinaryInst }

  /** The type of a comparison is i1, that of arithmetic i64. */
  function BinaryIsI1(op: Op): bool {
    match op
    case Gt => true
    case Eq => true
    case _ => false
  }

  /** `codegenExpr`, from temporary `t` and input slot `k` on. */
  function GenExpr(e: AExpr, t: nat, k: nat): (g: Gen)
    ensures g.slots >= k
  {
    match e
    case NumberExpr(n) => Gen([], Ir.ConstantInt(n), t, k)
    case DeclRefExpr(x, isLValue) =>
      if isLValue then Gen([], Ir.Alloca(Ir.VarSlot(x)), t, k)
      else Gen([Ir.Load(t, Ir.Alloca(Ir.VarSlot(x)))], Ir.Temp(t, Ir.LoadInst, false), t + 1, k)
    case AddrOfExpr(x) => Gen([], Ir.Alloca(Ir.VarSlot(x)), t, k)
    case DerefExpr(_, p) =>
      var g := GenExpr(p, t, k);
      Gen(g.code + [Ir.Load(g.temps, g.v)], Ir.Temp(g.temps, Ir.LoadInst, false), g.temps + 1, g.slots)
    case ArraySubscriptExpr(elem, isLValue, b, i) =>
      var gb := GenExpr(b, t, k);
      var gi := GenExpr(i, gb.temps, gb.slots);
      var code := gb.code + gi.code + [Ir.Gep(gi.temps, gb.v, gi.v, SizeOf(elem))];
      var ptr := Ir.Temp(gi.temps, Ir.GepInst, false);
      if isLValue then Gen(code, ptr, gi.temps + 1, gi.slots)
      else Gen(code + [Ir.Load(gi.temps + 1, ptr)], Ir.Temp(gi.temps + 1, Ir.LoadInst, false), gi.temps + 2, gi.slots)
    case InputExpr =>
      var slot := Ir.Alloca(Ir.InputSlot(k));
      Gen([Ir.Scanf(slot), Ir.Load(t, slot)], Ir.Temp(t, Ir.LoadInst, false), t + 1, k + 1)
    case BinaryExpr(op, l, r) =>
      var gl := GenExpr(l, t, k);
      var gr := GenExpr(r, gl.temps, gl.slots);
      Gen(gl.code + gr.code + [BinaryInstr(op, gr.temps, gl.v, gr.v)], Ir.Temp(gr.temps, BinaryKind(op), BinaryIsI1(op)),
          gr.temps + 1, gr.slots)
  }

  /** `isIntegerTy(1)`: the type of the value. */
  predicate IsI1(v: Ir.Value) { v.Temp? && v.isI1 }

  /** `isa<CmpInst>`: the instruction that the value is. */
  predicate IsCmpInst(v: Ir.Value) { v.Temp? && v.kind.CmpInst? }

  /** A condition for `if`: compared with 0 unless its type is i1. */
  function GenIfCond(e: AExpr, t: nat, k: nat): Gen {
    var g := GenExpr(e, t, k);
    if IsI1(g.v) then g else CompareWithZero(g)
  }

  /** A condition for `while`: compared with 0 unless it is a comparison. */
  function GenWhileCond(e: AExpr, t: nat, k: nat): Gen {
    var g := GenExpr(e, t, k);
    if IsCmpInst(g.v) then g else CompareWithZero(g)
  }

  function CompareWithZero(g: Gen): Gen {
    Gen(g.code + [Ir.ICmp(g.temps, Ir.NE, g.v, Ir.ConstantInt(0))], Ir.Temp(g.temps, Ir.CmpInst, true), g.temps + 1, g.slots)
  }

  // ---------------------------------------------------------------------------------------------
  // Statements: blocks
  // ---------------------------------------------------------------------------------------------

  /** The function under construction. Labels are numbered as blocks are created; a block belongs to the
      function from the moment it is inserted in `blocks` and `layout`. */
  datatype Builder = Builder(blocks: Ir.Cfg, layout: seq<nat>, cur: nat, labels: nat, temps: nat, slots: nat)

  function BlockAt(b: Builder, at: nat): Ir.Block { if at in b.blocks then b.blocks[at] else Ir.Block([], None) }

  function Emit(b: Builder, code: seq<Ir.Instr>, temps: nat, slots: nat): Builder {
    b.(blocks := b.blocks[b.cur := Ir.Block(BlockAt(b, b.cur).instrs + code, None)], temps := temps, slots := slots)
  }

  function EmitGen(b: Builder, g: Gen): Builder { Emit(b, g.code, g.temps, g.slots) }

  /** Ends the current block, inserts the block `next` and goes on there. */
  function MoveOn(b: Builder, term: Ir.Terminator, next: nat): Builder {
    var blocks := b.blocks[b.cur := Ir.Block(BlockAt(b, b.cur).instrs, Some(term))];
    b.(blocks := blocks[next := Ir.Block([], None)], layout := b.layout + [next], cur := next)
  }

  /** Creates `n` blocks without inserting them. */
  function Create(b: Builder, n: nat): Builder { b.(labels := b.labels + n) }

  // Of the labels that `if` and `while` create, counted from the first one:
  const THEN: nat := 0
  const ELSE: nat := 1
  const MERGE: nat := 2
  const COND: nat := 0
  const BODY: nat := 1
  const END: nat := 2

  /** `codegenStmt`. */
  function GenStmt(b: Builder, s: AStmt): Builder
    decreases s, 1
  {
    match s
    case EmptyStmt => b
    case OutputStmt(e) => EmitGen(b, GenOutput(e, b.temps, b.slots))
    case BlockStmt(ss) => GenAll(b, ss)
    case AssignmentStmt(l, r) => EmitGen(b, GenAssignment(l, r, b.temps, b.slots))
    case IfStmt(_, _, _) => GenIf(b, s)
    case WhileStmt(_, _) => GenWhile(b, s)
  }

  function GenAll(b: Builder, ss: seq<AStmt>): Builder
    decreases ss, 0
  {
    if ss == [] then b else GenAll(GenStmt(b, ss[0]), ss[1..])
  }

  /** `codegenIfStmt`. */
  function GenIf(b: Builder, s: AStmt): Builder
    requires s.IfStmt?
    decreases s, 0
  {
    var b2 := GenStmt(BeginIf(b, s.cond), s.thenStmt);
    var b3 := BeginElse(b, b2);
    var b4 := if s.elseStmt.Some? then GenStmt(b3, s.elseStmt.value) else b3;
    MoveOn(b4, Ir.Br(b.labels + MERGE), b.labels + MERGE)
  }

  /** `codegenWhileStmt`. */
  function GenWhile(b: Builder, s: AStmt): Builder
    requires s.WhileStmt?
    decreases s, 0
  {
    MoveOn(GenStmt(BeginWhile(b, s.cond), s.body), Ir.Br(b.labels + COND), b.labels + END)
  }

  function GenOutput(e: AExpr, t: nat, k: nat): Gen {
    var g := GenExpr(e, t, k);
    Gen(g.code + [Ir.Printf(g.v)], g.v, g.temps, g.slots)
  }

  /** The right-hand side comes first. */
  function GenAssignment(l: AExpr, r: AExpr, t: nat, k: nat): Gen {
    var gr := GenExpr(r, t, k);
    var gl := GenExpr(l, gr.temps, gr.slots);
    Gen(gr.code + gl.code + [Ir.Store(gr.v, gl.v)], gr.v, gl.temps, gl.slots)
  }

  /** The condition, and the branch to the two cases. */
  function BeginIf(b: Builder, c: AExpr): Builder {
    var g := GenIfCond(c, b.temps, b.slots);
    MoveOn(Create(EmitGen(b, g), 3), Ir.CondBr(g.v, b.labels + THEN, b.labels + ELSE), b.labels + THEN)
  }

  /** The start of the second case, after the code of the first one. */
  function BeginElse(b: Builder, b2: Builder): Builder {
    MoveOn(b2, Ir.Br(b.labels + MERGE), b.labels + ELSE)
  }

  /** The block of the condition. */
  function BeginLoop(b: Builder): Builder { MoveOn(Create(b, 1), Ir.Br(b.labels + COND), b.labels + COND) }

  /** The condition, and from there the branch into or past the loop. */
  function BeginWhile(b: Builder, c: AExpr): Builder {
    var g := GenWhileCond(c, b.temps, b.slots);
    MoveOn(Create(EmitGen(BeginLoop(b), g), 2), Ir.CondBr(g.v, b.labels + BODY, b.labels + END), b.labels + BODY)
  }

  // ---------------------------------------------------------------------------------------------
  // Every block is finished but the current one
  // ---------------------------------------------------------------------------------------------

  /** A block has its terminator unless it is the current one. */
  predicate Sealed(b: Builder, l: nat) {
    l in b.blocks ==> l < b.labels && (b.blocks[l].term.None? <==> l == b.cur)
  }

  /** Exactly one block is open, the current one; every other block has its terminator. */
  ghost predicate Ok(b: Builder) {
    b.cur in b.blocks && b.cur < b.labels && forall l: nat {:trigger Sealed(b, l)} :: Sealed(b, l)
  }

  predicate Extended(old_: Ir.Block, new_: Ir.Block) { if old_.term.Some? then new_ == old_ else old_.instrs <= new_.instrs }

  predicate Kept(b: Builder, b': Builder, l: nat) {
    && (l in b.blocks ==> l in b'.blocks && Extended(b.blocks[l], b'.blocks[l]))
    && (l in b'.blocks ==> l in b.blocks || l >= b.labels)
  }

  /** What lies between two states of the builder: finished blocks stay, the open one is added to, new blocks get new
      labels, and slots are only added. */
  ghost predicate Grew(b: Builder, b': Builder) {
    b.labels <= b'.labels && b.slots <= b'.slots && forall l: nat {:trigger Kept(b, b', l)} :: Kept(b, b', l)
  }

  lemma GrewTrans(b: Builder, b1: Builder, b2: Builder)
    requires Grew(b, b1) && Grew(b1, b2)
    ensures Grew(b, b2)
  {
    forall l: nat ensures Kept(b, b2, l) {
      assert Kept(b, b1, l) && Kept(b1, b2, l);
    }
  }

  lemma EmitGrows(b: Builder, code: seq<Ir.Instr>, temps: nat, slots: nat)
    requires Ok(b) && b.slots <= slots
    ensures Ok(Emit(b, code, temps, slots)) && Grew(b, Emit(b, code, temps, slots))
  {
    var b' := Emit(b, code, temps, slots);
    assert Sealed(b, b.cur);
    forall l: nat ensures Sealed(b', l) && Kept(b, b', l) {
      assert Sealed(b, l);
    }
  }

  lemma CreateGrows(b: Builder, n: nat)
    requires Ok(b)
    ensures Ok(Create(b, n)) && Grew(b, Create(b, n))
  {
    forall l: nat ensures Sealed(Create(b, n), l) && Kept(b, Create(b, n), l) {
      assert Sealed(b, l);
    }
  }

  lemma MoveOnGrows(b: Builder, b1: Builder, term: Ir.Terminator, next: nat)
    requires Grew(b, b1) && Ok(b1) && b.labels <= next < b1.labels && next !in b1.blocks
    ensures Ok(MoveOn(b1, term, next)) && Grew(b, MoveOn(b1, term, next))
  {
    var b2 := MoveOn(b1, term, next);
    assert Sealed(b1, b1.cur);
    forall l: nat ensures Sealed(b2, l) && Kept(b, b2, l) {
      assert Sealed(b1, l) && Kept(b, b1, l);
    }
  }

  /** A label that has not been given out names no block. */
  lemma NewLabel(b: Builder, l: nat)
    requires Ok(b) && l >= b.labels
    ensures l !in b.blocks
  {
    assert Sealed(b, l);
  }

  lemma BeginIfGrows(b: Builder, c: AExpr)
    requires Ok(b)
    ensures var b1, first := BeginIf(b, c), b.labels;
            Ok(b1) && Grew(b, b1) && b1.labels == first + 3 && b1.cur == first + THEN
            && first + ELSE !in b1.blocks && first + MERGE !in b1.blocks
  {
    var g := GenIfCond(c, b.temps, b.slots);
    EmitGrows(b, g.code, g.temps, g.slots);
    var b1 := EmitGen(b, g);
    CreateGrows(b1, 3);
    GrewTrans(b, b1, Create(b1, 3));
    NewLabel(b1, b.labels + THEN);
    NewLabel(b1, b.labels + ELSE);
    NewLabel(b1, b.labels + MERGE);
    MoveOnGrows(b, Create(b1, 3), Ir.CondBr(g.v, b.labels + THEN, b.labels + ELSE), b.labels + THEN);
  }

  lemma BeginLoopGrows(b: Builder)
    requires Ok(b)
    ensures var b1, first := BeginLoop(b), b.labels;
            Ok(b1) && Grew(b, b1) && b1.labels == first + 1 && b1.cur == first + COND
  {
    CreateGrows(b, 1);
    NewLabel(b, b.labels + COND);
    MoveOnGrows(b, Create(b, 1), Ir.Br(b.labels + COND), b.labels + COND);
  }

  lemma BeginWhileGrows(b: Builder, c: AExpr)
    requires Ok(b)
    ensures var b1, first := BeginWhile(b, c), b.labels;
            Ok(b1) && Grew(b, b1) && Grew(BeginLoop(b), b1) && b1.labels == first + 3 && b1.cur == first + BODY
            && first + END !in b1.blocks
  {
    BeginLoopGrows(b);
    var b1 := BeginLoop(b);
    var g := GenWhileCond(c, b.temps, b.slots);
    EmitGrows(b1, g.code, g.temps, g.slots);
    var b2 := EmitGen(b1, g);
    CreateGrows(b2, 2);
    GrewTrans(b1, b2, Create(b2, 2));
    NewLabel(b2, b.labels + BODY);
    NewLabel(b2, b.labels + END);
    MoveOnGrows(b1, Create(b2, 2), Ir.CondBr(g.v, b.labels + BODY, b.labels + END), b.labels + BODY);
    GrewTrans(b, b1, BeginWhile(b, c));
  }

  /** The block `next`, created at the start of the statement, is inserted after the code of a part. */
  lemma NextPart(b: Builder, b1: Builder, b2: Builder, term: Ir.Terminator, next: nat)
    requires Ok(b2) && Grew(b, b1) && Grew(b1, b2) && b.labels <= next < b1.labels && next !in b1.blocks
    ensures Ok(MoveOn(b2, term, next)) && Grew(b, MoveOn(b2, term, next)) && next !in b2.blocks
  {
    assert Kept(b1, b2, next);
    GrewTrans(b, b1, b2);
    MoveOnGrows(b, b2, term, next);
  }

  lemma BeginElseGrows(b: Builder, c: AExpr, b2: Builder)
    requires Ok(b) && Ok(b2) && Grew(BeginIf(b, c), b2)
    ensures Ok(BeginElse(b, b2)) && Grew(b, BeginElse(b, b2)) && BeginElse(b, b2).labels >= b.labels + 3
    ensures b.labels + ELSE !in b2.blocks && b.labels + MERGE !in BeginElse(b, b2).blocks
  {
    BeginIfGrows(b, c);
    NextPart(b, BeginIf(b, c), b2, Ir.Br(b.labels + MERGE), b.labels + ELSE);
    assert Kept(BeginIf(b, c), b2, b.labels + MERGE);
  }

  /** A statement leaves one block open, and touches no finished block. */
  lemma {:induction false} GenGrows(b: Builder, s: AStmt)
    requires Ok(b)
    ensures Ok(GenStmt(b, s)) && Grew(b, GenStmt(b, s))
    decreases s, 1
  {
    match s
    case EmptyStmt =>
    case OutputStmt(e) =>
      var g := GenOutput(e, b.temps, b.slots);
      EmitGrows(b, g.code, g.temps, g.slots);
    case BlockStmt(ss) => GenAllGrows(b, ss);
    case AssignmentStmt(l, r) =>
      var g := GenAssignment(l, r, b.temps, b.slots);
      EmitGrows(b, g.code, g.temps, g.slots);
    case IfStmt(_, _, _) => GenIfGrows(b, s);
    case WhileStmt(_, _) => GenWhileGrows(b, s);
  }

  lemma {:induction false} GenWhileGrows(b: Builder, s: AStmt)
    requires Ok(b) && s.WhileStmt?
    ensures Ok(GenWhile(b, s)) && Grew(b, GenWhile(b, s))
    decreases s, 0
  {
    var b1 := BeginWhile(b, s.cond);
    BeginWhileGrows(b, s.cond);
    GenGrows(b1, s.body);
    NextPart(b, b1, GenStmt(b1, s.body), Ir.Br(b.labels + COND), b.labels + END);
  }

  lemma {:induction false} GenIfGrows(b: Builder, s: AStmt)
    requires Ok(b) && s.IfStmt?
    ensures Ok(GenIf(b, s)) && Grew(b, GenIf(b, s))
    decreases s, 0
  {
    var merge := b.labels + MERGE;
    BeginIfGrows(b, s.cond);
    GenGrows(BeginIf(b, s.cond), s.thenStmt);
    var b2 := GenStmt(BeginIf(b, s.cond), s.thenStmt);
    BeginElseGrows(b, s.cond, b2);
    var b3 := BeginElse(b, b2);
    if s.elseStmt.Some? {
      GenGrows(b3, s.elseStmt.value);
      NextPart(b, b3, GenStmt(b3, s.elseStmt.value), Ir.Br(merge), merge);
    } else {
      MoveOnGrows(b, b3, Ir.Br(merge), merge);
    }
  }

  lemma {:induction false} GenAllGrows(b: Builder, ss: seq<AStmt>)
    requires Ok(b)
    ensures Ok(GenAll(b, ss)) && Grew(b, GenAll(b, ss))
    decreases ss, 0
  {
    if ss != [] {
      var b1 := GenStmt(b, ss[0]);
      GenGrows(b, ss[0]);
      GenAllGrows(b1, ss[1..]);
      GrewTrans(b, b1, GenAll(b1, ss[1..]));
    }
  }

  // ---------------------------------------------------------------------------------------------
  // Jumps lead to blocks of the function
  // ---------------------------------------------------------------------------------------------

  predicate TargetIn(at: nat, blocks: Ir.Cfg, pending: set<nat>) { at in blocks || at in pending }

  predicate TargetsIn(blk: Ir.Block, blocks: Ir.Cfg, pending: set<nat>) {
    match blk.term
    case None => true
    case Some(Br(dest)) => TargetIn(dest, blocks, pending)
    case Some(CondBr(_, ifTrue, ifFalse)) => TargetIn(ifTrue, blocks, pending) && TargetIn(ifFalse, blocks, pending)
  }

  /** Every jump leads to a block of the function, or to one of `pending`. */
  ghost predicate Linked(b: Builder, pending: set<nat>) {
    forall l: nat {:trigger LinkedAt(b, l, pending)} :: LinkedAt(b, l, pending)
  }

  predicate LinkedAt(b: Builder, l: nat, pending: set<nat>) { l in b.blocks ==> TargetsIn(b.blocks[l], b.blocks, pending) }

  lemma EmitLinked(b: Builder, code: seq<Ir.Instr>, temps: nat, slots: nat, pending: set<nat>)
    requires Ok(b) && Linked(b, pending)
    ensures Linked(Emit(b, code, temps, slots), pending)
  {
    var b' := Emit(b, code, temps, slots);
    forall l: nat ensures LinkedAt(b', l, pending) {
      assert LinkedAt(b, l, pending);
    }
  }

  lemma CreateLinked(b: Builder, n: nat, pending: set<nat>)
    requires Linked(b, pending)
    ensures Linked(Create(b, n), pending)
  {
    forall l: nat ensures LinkedAt(Create(b, n), l, pending) {
      assert LinkedAt(b, l, pending);
    }
  }

  lemma MoveOnLinked(b: Builder, term: Ir.Terminator, next: nat, pending: set<nat>, pending': set<nat>)
    requires Ok(b) && Linked(b, pending) && next !in b.blocks && pending <= pending' + {next}
    requires TargetsIn(Ir.Block([], Some(term)), b.blocks, pending' + {next})
    ensures Linked(MoveOn(b, term, next), pending')
  {
    var b' := MoveOn(b, term, next);
    forall l: nat ensures LinkedAt(b', l, pending') {
      assert LinkedAt(b, l, pending);
    }
  }

  lemma {:induction false} GenLinked(b: Builder, s: AStmt, pending: set<nat>)
    requires Ok(b) && Linked(b, pending)
    ensures Linked(GenStmt(b, s), pending)
    decreases s, 1
  {
    match s
    case EmptyStmt =>
    case OutputStmt(e) =>
      var g := GenOutput(e, b.temps, b.slots);
      EmitLinked(b, g.code, g.temps, g.slots, pending);
    case BlockStmt(ss) => GenAllLinked(b, ss, pending);
    case AssignmentStmt(l, r) =>
      var g := GenAssignment(l, r, b.temps, b.slots);
      EmitLinked(b, g.code, g.temps, g.slots, pending);
    case IfStmt(_, _, _) => GenIfLinked(b, s, pending);
    case WhileStmt(_, _) => GenWhileLinked(b, s, pending);
  }

  lemma {:induction false} GenWhileLinked(b: Builder, s: AStmt, pending: set<nat>)
    requires Ok(b) && Linked(b, pending) && s.WhileStmt?
    ensures Linked(GenWhile(b, s), pending)
    decreases s, 0
  {
    var first, b1 := b.labels, BeginWhile(b, s.cond);
    BeginWhileGrows(b, s.cond);
    BeginWhileLinked(b, s.cond, pending);
    GenGrows(b1, s.body);
    GenLinked(b1, s.body, pending + {first + END});
    var b2 := GenStmt(b1, s.body);
    NextPart(b, b1, b2, Ir.Br(first + COND), first + END);
    CondIsInserted(b, s.cond, b2);
    MoveOnLinked(b2, Ir.Br(first + COND), first + END, pending + {first + END}, pending);
  }

  lemma CondIsInserted(b: Builder, c: AExpr, b2: Builder)
    requires Ok(b) && Grew(BeginWhile(b, c), b2)
    ensures b.labels + COND in b2.blocks
  {
    BeginWhileGrows(b, c);
    assert b.labels + COND in BeginLoop(b).blocks;
    assert Kept(BeginLoop(b), BeginWhile(b, c), b.labels + COND);
    assert Kept(BeginWhile(b, c), b2, b.labels + COND);
  }

  lemma {:induction false} GenIfLinked(b: Builder, s: AStmt, pending: set<nat>)
    requires Ok(b) && Linked(b, pending) && s.IfStmt?
    ensures Linked(GenIf(b, s), pending)
    decreases s, 0
  {
    var other, merge := b.labels + ELSE, b.labels + MERGE;
    var b1 := BeginIf(b, s.cond);
    BeginIfGrows(b, s.cond);
    BeginIfLinked(b, s.cond, pending);
    GenGrows(b1, s.thenStmt);
    GenLinked(b1, s.thenStmt, pending + {other, merge});
    var b2 := GenStmt(b1, s.thenStmt);
    BeginElseGrows(b, s.cond, b2);
    MoveOnLinked(b2, Ir.Br(merge), other, pending + {other, merge}, pending + {merge});
    var b3 := BeginElse(b, b2);
    if s.elseStmt.Some? {
      var b4 := GenStmt(b3, s.elseStmt.value);
      GenGrows(b3, s.elseStmt.value);
      GenLinked(b3, s.elseStmt.value, pending + {merge});
      assert Kept(b3, b4, merge);
      MoveOnLinked(b4, Ir.Br(merge), merge, pending + {merge}, pending);
    } else {
      MoveOnLinked(b3, Ir.Br(merge), merge, pending + {merge}, pending);
    }
  }

  lemma {:induction false} GenAllLinked(b: Builder, ss: seq<AStmt>, pending: set<nat>)
    requires Ok(b) && Linked(b, pending)
    ensures Linked(GenAll(b, ss), pending)
    decreases ss, 0
  {
    if ss != [] {
      GenGrows(b, ss[0]);
      GenLinked(b, ss[0], pending);
      GenAllLinked(GenStmt(b, ss[0]), ss[1..], pending);
    }
  }

  lemma BeginIfLinked(b: Builder, c: AExpr, pending: set<nat>)
    requires Ok(b) && Linked(b, pending)
    ensures Linked(BeginIf(b, c), pending + {b.labels + ELSE, b.labels + MERGE})
  {
    var g := GenIfCond(c, b.temps, b.slots);
    EmitGrows(b, g.code, g.temps, g.slots);
    EmitLinked(b, g.code, g.temps, g.slots, pending);
    CreateGrows(EmitGen(b, g), 3);
    CreateLinked(EmitGen(b, g), 3, pending);
    NewLabel(EmitGen(b, g), b.labels + THEN);
    MoveOnLinked(Create(EmitGen(b, g), 3), Ir.CondBr(g.v, b.labels + THEN, b.labels + ELSE), b.labels + THEN,
                 pending, pending + {b.labels + ELSE, b.labels + MERGE});
  }

  lemma BeginWhileLinked(b: Builder, c: AExpr, pending: set<nat>)
    requires Ok(b) && Linked(b, pending)
    ensures Linked(BeginWhile(b, c), pending + {b.labels + END})
  {
    CreateGrows(b, 1);
    CreateLinked(b, 1, pending);
    NewLabel(b, b.labels + COND);
    BeginLoopGrows(b);
    MoveOnLinked(Create(b, 1), Ir.Br(b.labels + COND), b.labels + COND, pending, pending);
    var b1 := BeginLoop(b);
    var g := GenWhileCond(c, b.temps, b.slots);
    EmitGrows(b1, g.code, g.temps, g.slots);
    EmitLinked(b1, g.code, g.temps, g.slots, pending);
    CreateGrows(EmitGen(b1, g), 2);
    CreateLinked(EmitGen(b1, g), 2, pending);
    NewLabel(EmitGen(b1, g), b.labels + BODY);
    MoveOnLinked(Create(EmitGen(b1, g), 2), Ir.CondBr(g.v, b.labels + BODY, b.labels + END), b.labels + BODY,
                 pending, pending + {b.labels + END});
  }

  // ---------------------------------------------------------------------------------------------
  // The order of the blocks
  // ---------------------------------------------------------------------------------------------

  /** The function lists every block once. */
  ghost predicate LaidOut(b: Builder) { forall l: nat {:trigger LaidAt(b, l)} :: LaidAt(b, l) }

  predicate LaidAt(b: Builder, l: nat) { multiset(b.layout)[l] == if l in b.blocks then 1 else 0 }

  lemma EmitLaidOut(b: Builder, code: seq<Ir.Instr>, temps: nat, slots: nat)
    requires Ok(b) && LaidOut(b)
    ensures LaidOut(Emit(b, code, temps, slots))
  {
    forall l: nat ensures LaidAt(Emit(b, code, temps, slots), l) {
      assert LaidAt(b, l);
    }
  }

  lemma CreateLaidOut(b: Builder, n: nat)
    requires LaidOut(b)
    ensures LaidOut(Create(b, n))
  {
    forall l: nat ensures LaidAt(Create(b, n), l) {
      assert LaidAt(b, l);
    }
  }

  lemma MoveOnLaidOut(b: Builder, term: Ir.Terminator, next: nat)
    requires Ok(b) && LaidOut(b) && next !in b.blocks
    ensures LaidOut(MoveOn(b, term, next))
  {
    forall l: nat ensures LaidAt(MoveOn(b, term, next), l) {
      assert LaidAt(b, l);
    }
  }

  lemma {:induction false} GenLaidOut(b: Builder, s: AStmt)
    requires Ok(b) && LaidOut(b)
    ensures LaidOut(GenStmt(b, s))
    decreases s, 1
  {
    match s
    case EmptyStmt =>
    case OutputStmt(e) =>
      var g := GenOutput(e, b.temps, b.slots);
      EmitLaidOut(b, g.code, g.temps, g.slots);
    case BlockStmt(ss) => GenAllLaidOut(b, ss);
    case AssignmentStmt(l, r) =>
      var g := GenAssignment(l, r, b.temps, b.slots);
      EmitLaidOut(b, g.code, g.temps, g.slots);
    case IfStmt(_, _, _) => GenIfLaidOut(b, s);
    case WhileStmt(_, _) => GenWhileLaidOut(b, s);
  }

  lemma {:induction false} GenAllLaidOut(b: Builder, ss: seq<AStmt>)
    requires Ok(b) && LaidOut(b)
    ensures LaidOut(GenAll(b, ss))
    decreases ss, 0
  {
    if ss != [] {
      GenGrows(b, ss[0]);
      GenLaidOut(b, ss[0]);
      GenAllLaidOut(GenStmt(b, ss[0]), ss[1..]);
    }
  }

  lemma {:induction false} GenIfLaidOut(b: Builder, s: AStmt)
    requires Ok(b) && LaidOut(b) && s.IfStmt?
    ensures LaidOut(GenIf(b, s))
    decreases s, 0
  {
    var other, merge := b.labels + ELSE, b.labels + MERGE;
    var b1 := BeginIf(b, s.cond);
    BeginIfGrows(b, s.cond);
    BeginIfLaidOut(b, s.cond);
    GenGrows(b1, s.thenStmt);
    GenLaidOut(b1, s.thenStmt);
    var b2 := GenStmt(b1, s.thenStmt);
    BeginElseGrows(b, s.cond, b2);
    MoveOnLaidOut(b2, Ir.Br(merge), other);
    var b3 := BeginElse(b, b2);
    if s.elseStmt.Some? {
      GenGrows(b3, s.elseStmt.value);
      GenLaidOut(b3, s.elseStmt.value);
      assert Kept(b3, GenStmt(b3, s.elseStmt.value), merge);
      MoveOnLaidOut(GenStmt(b3, s.elseStmt.value), Ir.Br(merge), merge);
    } else {
      MoveOnLaidOut(b3, Ir.Br(merge), merge);
    }
  }

  lemma BeginIfLaidOut(b: Builder, c: AExpr)
    requires Ok(b) && LaidOut(b)
    ensures LaidOut(BeginIf(b, c))
  {
    var g := GenIfCond(c, b.temps, b.slots);
    EmitGrows(b, g.code, g.temps, g.slots);
    EmitLaidOut(b, g.code, g.temps, g.slots);
    CreateGrows(EmitGen(b, g), 3);
    CreateLaidOut(EmitGen(b, g), 3);
    NewLabel(EmitGen(b, g), b.labels + THEN);
    MoveOnLaidOut(Create(EmitGen(b, g), 3), Ir.CondBr(g.v, b.labels + THEN, b.labels + ELSE), b.labels + THEN);
  }

  lemma {:induction false} GenWhileLaidOut(b: Builder, s: AStmt)
    requires Ok(b) && LaidOut(b) && s.WhileStmt?
    ensures LaidOut(GenWhile(b, s))
    decreases s, 0
  {
    var b1 := BeginWhile(b, s.cond);
    BeginWhileGrows(b, s.cond);
    BeginWhileLaidOut(b, s.cond);
    GenGrows(b1, s.body);
    GenLaidOut(b1, s.body);
    var b2 := GenStmt(b1, s.body);
    assert Kept(b1, b2, b.labels + END);
    MoveOnLaidOut(b2, Ir.Br(b.labels + COND), b.labels + END);
  }

  lemma BeginWhileLaidOut(b: Builder, c: AExpr)
    requires Ok(b) && LaidOut(b)
    ensures LaidOut(BeginWhile(b, c))
  {
    CreateGrows(b, 1);
    CreateLaidOut(b, 1);
    NewLabel(b, b.labels + COND);
    MoveOnLaidOut(Create(b, 1), Ir.Br(b.labels + COND), b.labels + COND);
    BeginLoopGrows(b);
    var b1 := BeginLoop(b);
    var g := GenWhileCond(c, b.temps, b.slots);
    EmitGrows(b1, g.code, g.temps, g.slots);
    EmitLaidOut(b1, g.code, g.temps, g.slots);
    CreateGrows(EmitGen(b1, g), 2);
    CreateLaidOut(EmitGen(b1, g), 2);
    NewLabel(EmitGen(b1, g), b.labels + BODY);
    MoveOnLaidOut(Create(EmitGen(b1, g), 2), Ir.CondBr(g.v, b.labels + BODY, b.labels + END), b.labels + BODY);
  }

  // ---------------------------------------------------------------------------------------------
  // The generator
  // ---------------------------------------------------------------------------------------------

  ghost predicate Open(b: Builder) { b.cur in b.blocks && b.blocks[b.cur].term.None? }

  lemma OkIsOpen(b: Builder)
    requires Ok(b)
    ensures Open(b)
  {
    assert Sealed(b, b.cur);
  }

  /** Code emitted in pieces is code emitted at once. */
  lemma EmitTwice(b: Builder, c1: seq<Ir.Instr>, c2: seq<Ir.Instr>, t1: nat, k1: nat, t2: nat, k2: nat)
    ensures Emit(Emit(b, c1, t1, k1), c2, t2, k2) == Emit(b, c1 + c2, t2, k2)
  {
    assert BlockAt(b, b.cur).instrs + c1 + c2 == BlockAt(b, b.cur).instrs + (c1 + c2);
  }

  lemma EmitNothing(b: Builder)
    requires Open(b)
    ensures Emit(b, [], b.temps, b.slots) == b
  {
    assert BlockAt(b, b.cur).instrs + [] == BlockAt(b, b.cur).instrs;
  }

  /** A function begins with its entry block. */
  const ENTRY: Builder := Builder(map[0 := Ir.Block([], None)], [0], 0, 1, 0, 0)

  lemma EntryIsOk()
    ensures Ok(ENTRY) && Linked(ENTRY, {}) && LaidOut(ENTRY)
  {
    forall l: nat ensures Sealed(ENTRY, l) && LinkedAt(ENTRY, l, {}) && LaidAt(ENTRY, l) {
    }
  }

  /** The builder after the code of `g` has been emitted, and the value that comes with it. */
  predicate Generated(b: Builder, b': Builder, g: Gen, v: Ir.Value) { b' == EmitGen(b, g) && v == g.v }

  class IrCodeGenerator {
    var blocks: Ir.Cfg
    var layout: seq<nat>
    var cur: nat
    var labels: nat
    var temps: nat
    var slots: nat

    function View(): Builder
      reads this
    {
      Builder(blocks, layout, cur, labels, temps, slots)
    }

    constructor ()
      ensures View() == ENTRY && Ok(View())
    {
      blocks, layout, cur, labels, temps, slots := ENTRY.blocks, ENTRY.layout, ENTRY.cur, ENTRY.labels, 0, 0;
      new;
      EntryIsOk();
    }

    /** Adds an instruction at the insertion point. */
    method Append(i: Ir.Instr)
      requires Open(View())
      modifies this`blocks
      ensures Open(View()) && View() == Emit(old(View()), [i], old(temps), old(slots))
    {
      blocks := blocks[cur := Ir.Block(blocks[cur].instrs + [i], None)];
    }

    method CodegenExpr(e: AExpr) returns (v: Ir.Value)
      requires Open(View())
      modifies this
      ensures Open(View()) && Generated(old(View()), View(), GenExpr(e, old(temps), old(slots)), v)
      decreases e, 1
    {
      match e
      case NumberExpr(n) =>
        v := Ir.ConstantInt(n);
        EmitNothing(View());
      case AddrOfExpr(x) =>
        v := Ir.Alloca(Ir.VarSlot(x));
        EmitNothing(View());
      case DeclRefExpr(_, _) => v := CodegenDeclRefExpr(e);
      case DerefExpr(_, _) => v := CodegenDerefExpr(e);
      case ArraySubscriptExpr(_, _, _, _) => v := CodegenArraySubscriptExpr(e);
      case InputExpr => v := CodegenInputExpr(e);
      case BinaryExpr(_, _, _) => v := CodegenBinaryExpr(e);
    }

    method CodegenDeclRefExpr(e: AExpr) returns (v: Ir.Value)
      requires Open(View()) && e.DeclRefExpr?
      modifies this
      ensures Open(View()) && Generated(old(View()), View(), GenExpr(e, old(temps), old(slots)), v)
      decreases e, 0
    {
      v := Ir.Alloca(Ir.VarSlot(e.x));
      EmitNothing(View());
      if !e.isLValue {
        v := CreateLoad(v);
      }
    }

    method CodegenDerefExpr(e: AExpr) returns (v: Ir.Value)
      requires Open(View()) && e.DerefExpr?
      modifies this
      ensures Open(View()) && Generated(old(View()), View(), GenExpr(e, old(temps), old(slots)), v)
      decreases e, 0
    {
      ghost var b := View();
      var ptr := CodegenExpr(e.ptr);
      ghost var g := GenExpr(e.ptr, b.temps, b.slots);
      EmitTwice(b, g.code, [Ir.Load(g.temps, g.v)], g.temps, g.slots, g.temps + 1, g.slots);
      v := CreateLoad(ptr);
    }

    method CodegenArraySubscriptExpr(e: AExpr) returns (v: Ir.Value)
      requires Open(View()) && e.ArraySubscriptExpr?
      modifies this
      ensures Open(View()) && Generated(old(View()), View(), GenExpr(e, old(temps), old(slots)), v)
      decreases e, 0
    {
      ghost var b := View();
      var vb := CodegenExpr(e.base);
      var vi := CodegenExpr(e.selector);
      ghost var gb := GenExpr(e.base, b.temps, b.slots);
      ghost var gi := GenExpr(e.selector, gb.temps, gb.slots);
      EmitTwice(b, gb.code, gi.code, gb.temps, gb.slots, gi.temps, gi.slots);
      ghost var code := gb.code + gi.code;
      v := CreateGep(vb, vi, SizeOf(e.elem));
      ghost var gep := Ir.Gep(gi.temps, gb.v, gi.v, SizeOf(e.elem));
      EmitTwice(b, code, [gep], gi.temps, gi.slots, gi.temps + 1, gi.slots);
      if !e.isLValue {
        EmitTwice(b, code + [gep], [Ir.Load(gi.temps + 1, v)], gi.temps + 1, gi.slots, gi.temps + 2, gi.slots);
        v := CreateLoad(v);
      }
    }

    method CodegenInputExpr(e: AExpr) returns (v: Ir.Value)
      requires Open(View()) && e.InputExpr?
      modifies this
      ensures Open(View()) && Generated(old(View()), View(), GenExpr(e, old(temps), old(slots)), v)
      decreases e, 0
    {
      ghost var b := View();
      var ptr := Ir.Alloca(Ir.InputSlot(slots));
      EmitTwice(b, [Ir.Scanf(ptr)], [Ir.Load(b.temps, ptr)], b.temps, b.slots + 1, b.temps + 1, b.slots + 1);
      assert [Ir.Scanf(ptr)] + [Ir.Load(b.temps, ptr)] == [Ir.Scanf(ptr), Ir.Load(b.temps, ptr)];
      slots := slots + 1;
      Append(Ir.Scanf(ptr));
      v := CreateLoad(ptr);
    }

    method CodegenBinaryExpr(e: AExpr) returns (v: Ir.Value)
      requires Open(View()) && e.BinaryExpr?
      modifies this
      ensures Open(View()) && Generated(old(View()), View(), GenExpr(e, old(temps), old(slots)), v)
      decreases e, 0
    {
      ghost var b := View();
      var v1 := CodegenExpr(e.lhs);
      var v2 := CodegenExpr(e.rhs);
      ghost var gl := GenExpr(e.lhs, b.temps, b.slots);
      ghost var gr := GenExpr(e.rhs, gl.temps, gl.slots);
      EmitTwice(b, gl.code, gr.code, gl.temps, gl.slots, gr.temps, gr.slots);
      EmitTwice(b, gl.code + gr.code, [BinaryInstr(e.op, gr.temps, gl.v, gr.v)], gr.temps, gr.slots, gr.temps + 1, gr.slots);
      Append(BinaryInstr(e.op, temps, v1, v2));
      v := Ir.Temp(temps, BinaryKind(e.op), BinaryIsI1(e.op));
      temps := temps + 1;
    }

    method CreateGep(base: Ir.Value, index: Ir.Value, elemSize: nat) returns (v: Ir.Value)
      requires Open(View())
      modifies this`blocks, this`temps
      ensures Open(View()) && v == Ir.Temp(old(temps), Ir.GepInst, false)
      ensures View() == Emit(old(View()), [Ir.Gep(old(temps), base, index, elemSize)], old(temps) + 1, old(slots))
    {
      Append(Ir.Gep(temps, base, index, elemSize));
      v := Ir.Temp(temps, Ir.GepInst, false);
      temps := temps + 1;
    }

    method CreateLoad(ptr: Ir.Value) returns (v: Ir.Value)
      requires Open(View())
      modifies this`blocks, this`temps
      ensures Open(View()) && v == Ir.Temp(old(temps), Ir.LoadInst, false)
      ensures View() == Emit(old(View()), [Ir.Load(old(temps), ptr)], old(temps) + 1, old(slots))
    {
      Append(Ir.Load(temps, ptr));
      v := Ir.Temp(temps, Ir.LoadInst, false);
      temps := temps + 1;
    }

    method CompareNotZero(cond: Ir.Value) returns (v: Ir.Value)
      requires Open(View())
      modifies this`blocks, this`temps
      ensures Open(View()) && v == Ir.Temp(old(temps), Ir.CmpInst, true)
      ensures View() == Emit(old(View()), [Ir.ICmp(old(temps), Ir.NE, cond, Ir.ConstantInt(0))], old(temps) + 1, old(slots))
    {
      Append(Ir.ICmp(temps, Ir.NE, cond, Ir.ConstantInt(0)));
      v := Ir.Temp(temps, Ir.CmpInst, true);
      temps := temps + 1;
    }

    /** Ends the current block, inserts `next` at the end of the function and goes on there. */
    method Jump(term: Ir.Terminator, next: nat)
      requires Open(View())
      modifies this`blocks, this`layout, this`cur
      ensures View() == MoveOn(old(View()), term, next)
    {
      blocks := blocks[cur := Ir.Block(blocks[cur].instrs, Some(term))];
      blocks := blocks[next := Ir.Block([], None)];
      layout := layout + [next];
      cur := next;
    }

    method CodegenIfCond(e: AExpr) returns (v: Ir.Value)
      requires Open(View())
      modifies this
      ensures Open(View()) && Generated(old(View()), View(), GenIfCond(e, old(temps), old(slots)), v)
    {
      ghost var b := View();
      v := CodegenExpr(e);
      ghost var g := GenExpr(e, b.temps, b.slots);
      if !IsI1(v) {
        EmitTwice(b, g.code, [Ir.ICmp(g.temps, Ir.NE, g.v, Ir.ConstantInt(0))], g.temps, g.slots, g.temps + 1, g.slots);
        v := CompareNotZero(v);
      }
    }

    method CodegenWhileCond(e: AExpr) returns (v: Ir.Value)
      requires Open(View())
      modifies this
      ensures Open(View()) && Generated(old(View()), View(), GenWhileCond(e, old(temps), old(slots)), v)
    {
      ghost var b := View();
      v := CodegenExpr(e);
      ghost var g := GenExpr(e, b.temps, b.slots);
      if !IsCmpInst(v) {
        EmitTwice(b, g.code, [Ir.ICmp(g.temps, Ir.NE, g.v, Ir.ConstantInt(0))], g.temps, g.slots, g.temps + 1, g.slots);
        v := CompareNotZero(v);
      }
    }

    method CodegenStmt(s: AStmt)
      requires Ok(View())
      modifies this
      ensures Ok(View()) && Grew(old(View()), View()) && View() == GenStmt(old(View()), s)
      decreases s, 1
    {
      OkIsOpen(View());
      GenGrows(View(), s);
      match s
      case EmptyStmt =>
      case OutputStmt(_) => CodegenOutputStmt(s);
      case BlockStmt(ss) => CodegenBlockStmt(ss);
      case AssignmentStmt(_, _) => CodegenAssignmentStmt(s);
      case IfStmt(_, _, _) => CodegenIfStmt(s);
      case WhileStmt(_, _) => CodegenWhileStmt(s);
    }

    method CodegenOutputStmt(s: AStmt)
      requires Open(View()) && s.OutputStmt?
      modifies this
      ensures View() == GenStmt(old(View()), s)
    {
      ghost var b := View();
      var v := CodegenExpr(s.e);
      ghost var g := GenExpr(s.e, b.temps, b.slots);
      EmitTwice(b, g.code, [Ir.Printf(g.v)], g.temps, g.slots, g.temps, g.slots);
      Append(Ir.Printf(v));
    }

    method CodegenAssignmentStmt(s: AStmt)
      requires Open(View()) && s.AssignmentStmt?
      modifies this
      ensures View() == GenStmt(old(View()), s)
    {
      ghost var b := View();
      var val := CodegenExpr(s.rhs);
      var ptr := CodegenExpr(s.lhs);
      ghost var gr := GenExpr(s.rhs, b.temps, b.slots);
      ghost var gl := GenExpr(s.lhs, gr.temps, gr.slots);
      EmitTwice(b, gr.code, gl.code, gr.temps, gr.slots, gl.temps, gl.slots);
      EmitTwice(b, gr.code + gl.code, [Ir.Store(gr.v, gl.v)], gl.temps, gl.slots, gl.temps, gl.slots);
      Append(Ir.Store(val, ptr));
    }

    method CodegenBlockStmt(ss: seq<AStmt>)
      requires Ok(View())
      modifies this
      ensures View() == GenAll(old(View()), ss)
      decreases ss, 0
    {
      for k := 0 to |ss|
        invariant Ok(View()) && GenAll(View(), ss[k..]) == GenAll(old(View()), ss)
      {
        assert ss[k..][0] == ss[k] && ss[k..][1..] == ss[k + 1..];
        CodegenStmt(ss[k]);
      }
    }

    method CodegenIfStmt(s: AStmt)
      requires Ok(View()) && s.IfStmt?
      modifies this
      ensures View() == GenIf(old(View()), s)
      decreases s, 0
    {
      ghost var b := View();
      OkIsOpen(b);
      BeginIfGrows(b, s.cond);
      var cond := CodegenIfCond(s.cond);
      var thenLabel, elseLabel, mergeLabel := labels, labels + 1, labels + 2;
      labels := labels + 3;
      Jump(Ir.CondBr(cond, thenLabel, elseLabel), thenLabel);
      CodegenStmt(s.thenStmt);
      OkIsOpen(View());
      BeginElseGrows(b, s.cond, View());
      Jump(Ir.Br(mergeLabel), elseLabel);
      if s.elseStmt.Some? {
        CodegenStmt(s.elseStmt.value);
      }
      OkIsOpen(View());
      Jump(Ir.Br(mergeLabel), mergeLabel);
    }

    method CodegenWhileStmt(s: AStmt)
      requires Ok(View()) && s.WhileStmt?
      modifies this
      ensures View() == GenWhile(old(View()), s)
      decreases s, 0
    {
      ghost var b := View();
      OkIsOpen(b);
      BeginLoopGrows(b);
      BeginWhileGrows(b, s.cond);
      var condLabel := labels;
      labels := labels + 1;
      Jump(Ir.Br(condLabel), condLabel);
      OkIsOpen(View());
      var cond := CodegenWhileCond(s.cond);
      var bodyLabel, endLabel := labels, labels + 1;
      labels := labels + 2;
      Jump(Ir.CondBr(cond, bodyLabel, endLabel), bodyLabel);
      CodegenStmt(s.body);
      OkIsOpen(View());
      Jump(Ir.Br(condLabel), endLabel);
    }
  }
}
