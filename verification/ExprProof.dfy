/** Generated code computes what the program means: expressions here, statements below. */
module ExprProof {
  import opened Ast
  import opened IrCodegen
  import opened Int64
  import opened Options
  import Ir

  /** Variables lie where the source semantics has them. */
  ghost predicate FrameFor(frame: Ir.Frame, env: Env) {
    forall x {:trigger frame.slotAt(Ir.VarSlot(x))} :: frame.slotAt(Ir.VarSlot(x)) == env.addr(x)
  }

  /** The machine's memory holds the program's, and beside it, apart from it, the cells for input that the frame has. */
  ghost predicate Holds(frame: Ir.Frame, mem: Memory, m: Ir.Machine) {
    && (forall a :: a in mem ==> a in m.mem && m.mem[a] == mem[a])
    && forall k {:trigger frame.slotAt(Ir.InputSlot(k))} :: 0 <= k < frame.inputs ==>
         frame.slotAt(Ir.InputSlot(k)) in m.mem && frame.slotAt(Ir.InputSlot(k)) !in mem
  }

  ghost predicate TempsKept(m: Ir.Machine, m': Ir.Machine, t: nat) {
    forall i: nat :: i < t && i in m.temps ==> i in m'.temps && m'.temps[i] == m.temps[i]
  }

  predicate Below(v: Ir.Value, t: nat) { v.Temp? ==> v.id < t }

  /** The code of `g` runs from `m` to a state in which its value is that of `r`, using temporaries from `t` on. */
  ghost predicate Computes(frame: Ir.Frame, mem: Memory, m: Ir.Machine, g: Gen, r: Result, t: nat) {
    && Ir.RunAll(g.code, frame, m).Some?
    && ComputesTo(frame, mem, m, Ir.RunAll(g.code, frame, m).value, g, r, t)
  }

  ghost predicate ComputesTo(frame: Ir.Frame, mem: Memory, m: Ir.Machine, m': Ir.Machine, g: Gen, r: Result, t: nat) {
    && Ir.ValueOf(g.v, frame, m') == Some(r.value) && m'.input == r.input && m'.output == m.output
    && Holds(frame, mem, m') && TempsKept(m, m', t) && t <= g.temps && Below(g.v, g.temps)
  }

  /** One more instruction that sets the next temporary. */
  function Then(g: Gen, i: Ir.Instr, kind: Ir.Kind, isI1: bool): Gen {
    Gen(g.code + [i], Ir.Temp(g.temps, kind, isI1), g.temps + 1, g.slots)
  }

  lemma SetKeeps(frame: Ir.Frame, mem: Memory, m: Ir.Machine, m': Ir.Machine, t: nat, dst: nat, n: int)
    requires Holds(frame, mem, m') && TempsKept(m, m', t) && t <= dst
    ensures Holds(frame, mem, Ir.Set(m', dst, n)) && TempsKept(m, Ir.Set(m', dst, n), t)
  {
  }

  /** An instruction that sets the next temporary to `n` adds that value. */
  lemma ThenComputes(frame: Ir.Frame, mem: Memory, m: Ir.Machine, g: Gen, r: Result, t: nat,
                     i: Ir.Instr, kind: Ir.Kind, isI1: bool, n: int)
    requires Computes(frame, mem, m, g, r, t)
    requires Ir.Run(i, frame, Ir.RunAll(g.code, frame, m).value)
               == Some(Ir.Set(Ir.RunAll(g.code, frame, m).value, g.temps, n))
    ensures Computes(frame, mem, m, Then(g, i, kind, isI1), Result(n, r.input), t)
  {
    var m1 := Ir.RunAll(g.code, frame, m).value;
    Ir.RunConcat(g.code, [i], frame, m);
    Ir.RunOne(i, frame, m1);
    SetKeeps(frame, mem, m, m1, t, g.temps, n);
  }

  lemma LoadComputes(frame: Ir.Frame, mem: Memory, m: Ir.Machine, g: Gen, r: Result, t: nat)
    requires Computes(frame, mem, m, g, r, t) && r.value in mem
    ensures Computes(frame, mem, m, Then(g, Ir.Load(g.temps, g.v), Ir.LoadInst, false), Result(mem[r.value], r.input), t)
  {
    ThenComputes(frame, mem, m, g, r, t, Ir.Load(g.temps, g.v), Ir.LoadInst, false, mem[r.value]);
  }

  /** Code that uses no temporary. */
  lemma NothingComputes(frame: Ir.Frame, mem: Memory, m: Ir.Machine, v: Ir.Value, n: int, t: nat, k: nat)
    requires Holds(frame, mem, m) && Ir.ValueOf(v, frame, m) == Some(n) && !v.Temp?
    ensures Computes(frame, mem, m, Gen([], v, t, k), Result(n, m.input), t)
  {
  }

  /** Two pieces of code, one after the other, give both values. */
  lemma BothCompute(frame: Ir.Frame, mem: Memory, m: Ir.Machine, g1: Gen, r1: Result, g2: Gen, r2: Result, t: nat)
    requires Computes(frame, mem, m, g1, r1, t)
    requires Computes(frame, mem, Ir.RunAll(g1.code, frame, m).value, g2, r2, g1.temps)
    ensures Computes(frame, mem, m, Gen(g1.code + g2.code, g2.v, g2.temps, g2.slots), r2, t)
    ensures Ir.ValueOf(g1.v, frame, Ir.RunAll(g1.code + g2.code, frame, m).value) == Some(r1.value)
  {
    Ir.RunConcat(g1.code, g2.code, frame, m);
  }

  /** What has an address has the value that is found there. */
  lemma ValueIsFetched(env: Env, e: Expr, mem: Memory, input: seq<int>)
    requires AddressOk(env.types, e)
    ensures Value(env, e, mem, input) == Fetch(mem, Address(env, e, mem, input))
  {
  }

  function Meaning(env: Env, e: Expr, address: bool, mem: Memory, input: seq<int>): Option<Result> {
    if address then Address(env, e, mem, input) else Value(env, e, mem, input)
  }

  predicate Fine(types: Types, e: Expr, address: bool) { if address then AddressOk(types, e) else ValueOk(types, e) }

  /** In address mode the code of an expression computes the address of the cell it denotes, and in value
      mode its value. */
  lemma {:induction false} ExprComputes(env: Env, frame: Ir.Frame, e: Expr, address: bool, t: nat, k: nat,
                                        mem: Memory, m: Ir.Machine)
    requires FrameFor(frame, env) && Fine(env.types, e, address) && Holds(frame, mem, m)
    requires GenExpr(Annotate(env.types, e, address), t, k).slots <= frame.inputs
    requires Meaning(env, e, address, mem, m.input).Some?
    ensures Computes(frame, mem, m, GenExpr(Annotate(env.types, e, address), t, k),
                     Meaning(env, e, address, mem, m.input).value, t)
    decreases e, 1
  {
    match e
    case Num(n) =>
      NothingComputes(frame, mem, m, Ir.ConstantInt(n), n, t, k);
    case Id(x) =>
      var v := Ir.Alloca(Ir.VarSlot(x));
      NothingComputes(frame, mem, m, v, env.addr(x), t, k);
      if !address {
        LoadComputes(frame, mem, m, Gen([], v, t, k), Result(env.addr(x), m.input), t);
        assert [] + [Ir.Load(t, v)] == [Ir.Load(t, v)];
      }
    case AddrOf(x) =>
      NothingComputes(frame, mem, m, Ir.Alloca(Ir.VarSlot(x)), env.addr(x), t, k);
    case Deref(p) =>
      if address {
        ValueIsFetched(env, p, mem, m.input);
      }
      ExprComputes(env, frame, p, address, t, k, mem, m);
      LoadComputes(frame, mem, m, GenExpr(Annotate(env.types, p, address), t, k),
                   Meaning(env, p, address, mem, m.input).value, t);
    case Subscript(_, _) =>
      SubscriptComputes(env, frame, e, t, k, mem, m);
      if !address {
        LoadComputes(frame, mem, m, GenExpr(Annotate(env.types, e, true), t, k), Address(env, e, mem, m.input).value, t);
      }
    case Input =>
      InputComputes(frame, mem, m, t, k);
    case Binary(_, _, _) =>
      BinaryComputes(env, frame, e, t, k, mem, m);
  }

  lemma InputComputes(frame: Ir.Frame, mem: Memory, m: Ir.Machine, t: nat, k: nat)
    requires Holds(frame, mem, m) && m.input != [] && k < frame.inputs
    ensures Computes(frame, mem, m, GenExpr(InputExpr, t, k), Result(m.input[0], m.input[1..]), t)
  {
    var slot := Ir.Alloca(Ir.InputSlot(k));
    var a := frame.slotAt(Ir.InputSlot(k));
    var m1 := m.(mem := m.mem[a := m.input[0]], input := m.input[1..]);
    Ir.RunOne(Ir.Scanf(slot), frame, m);
    assert Holds(frame, mem, m1);
    var scanned := Gen([Ir.Scanf(slot)], slot, t, k + 1);
    assert Computes(frame, mem, m, scanned, Result(a, m.input[1..]), t);
    ThenComputes(frame, mem, m, scanned, Result(a, m.input[1..]), t, Ir.Load(t, slot), Ir.LoadInst, false, m.input[0]);
    assert [Ir.Scanf(slot)] + [Ir.Load(t, slot)] == [Ir.Scanf(slot), Ir.Load(t, slot)];
  }

  /** The address of an array element. */
  lemma {:induction false} SubscriptComputes(env: Env, frame: Ir.Frame, e: Expr, t: nat, k: nat, mem: Memory, m: Ir.Machine)
    requires FrameFor(frame, env) && e.Subscript? && AddressOk(env.types, e) && Holds(frame, mem, m)
    requires GenExpr(Annotate(env.types, e, true), t, k).slots <= frame.inputs
    requires Address(env, e, mem, m.input).Some?
    ensures Computes(frame, mem, m, GenExpr(Annotate(env.types, e, true), t, k), Address(env, e, mem, m.input).value, t)
    decreases e, 0
  {
    var gb := GenExpr(Annotate(env.types, e.base, true), t, k);
    var rb := Address(env, e.base, mem, m.input).value;
    ExprComputes(env, frame, e.base, true, t, k, mem, m);
    var m1 := Ir.RunAll(gb.code, frame, m).value;
    var gi := GenExpr(Annotate(env.types, e.selector, false), gb.temps, gb.slots);
    var ri := Value(env, e.selector, mem, rb.input).value;
    ExprComputes(env, frame, e.selector, false, gb.temps, gb.slots, mem, m1);
    GepComputes(frame, mem, m, gb, rb, gi, ri, t, SizeOf(ElemTy(env.types, e.base)));
  }

  lemma GepComputes(frame: Ir.Frame, mem: Memory, m: Ir.Machine, gb: Gen, rb: Result, gi: Gen, ri: Result, t: nat, size: nat)
    requires Computes(frame, mem, m, gb, rb, t)
    requires Computes(frame, mem, Ir.RunAll(gb.code, frame, m).value, gi, ri, gb.temps)
    ensures Computes(frame, mem, m, Then(Gen(gb.code + gi.code, gi.v, gi.temps, gi.slots), Ir.Gep(gi.temps, gb.v, gi.v, size),
                                         Ir.GepInst, false), Result(ElementAt(rb.value, ri.value, size), ri.input), t)
  {
    BothCompute(frame, mem, m, gb, rb, gi, ri, t);
    ThenComputes(frame, mem, m, Gen(gb.code + gi.code, gi.v, gi.temps, gi.slots), ri, t,
                 Ir.Gep(gi.temps, gb.v, gi.v, size), Ir.GepInst, false, ElementAt(rb.value, ri.value, size));
  }

  lemma {:induction false} BinaryComputes(env: Env, frame: Ir.Frame, e: Expr, t: nat, k: nat, mem: Memory, m: Ir.Machine)
    requires FrameFor(frame, env) && e.Binary? && ValueOk(env.types, e) && Holds(frame, mem, m)
    requires GenExpr(Annotate(env.types, e, false), t, k).slots <= frame.inputs
    requires Value(env, e, mem, m.input).Some?
    ensures Computes(frame, mem, m, GenExpr(Annotate(env.types, e, false), t, k), Value(env, e, mem, m.input).value, t)
    decreases e, 0
  {
    var gl := GenExpr(Annotate(env.types, e.lhs, false), t, k);
    var rl := Value(env, e.lhs, mem, m.input).value;
    ExprComputes(env, frame, e.lhs, false, t, k, mem, m);
    var m1 := Ir.RunAll(gl.code, frame, m).value;
    var gr := GenExpr(Annotate(env.types, e.rhs, false), gl.temps, gl.slots);
    var rr := Value(env, e.rhs, mem, rl.input).value;
    ExprComputes(env, frame, e.rhs, false, gl.temps, gl.slots, mem, m1);
    OpComputes(frame, mem, m, gl, rl, gr, rr, t, e.op);
  }

  lemma OpComputes(frame: Ir.Frame, mem: Memory, m: Ir.Machine, gl: Gen, rl: Result, gr: Gen, rr: Result, t: nat, op: Op)
    requires Computes(frame, mem, m, gl, rl, t)
    requires Computes(frame, mem, Ir.RunAll(gl.code, frame, m).value, gr, rr, gl.temps)
    requires Ast.Apply(op, rl.value, rr.value).Some?
    ensures Computes(frame, mem, m, Then(Gen(gl.code + gr.code, gr.v, gr.temps, gr.slots), BinaryInstr(op, gr.temps, gl.v, gr.v),
                                         BinaryKind(op), BinaryIsI1(op)),
                     Result(Ast.Apply(op, rl.value, rr.value).value, rr.input), t)
  {
    BothCompute(frame, mem, m, gl, rl, gr, rr, t);
    ThenComputes(frame, mem, m, Gen(gl.code + gr.code, gr.v, gr.temps, gr.slots), rr, t,
                 BinaryInstr(op, gr.temps, gl.v, gr.v), BinaryKind(op), BinaryIsI1(op), Ast.Apply(op, rl.value, rr.value).value);
  }

  /** The generator tells comparisons from integers by the instruction, the language by the expression. */
  lemma ComparisonsAreI1(types: Types, e: Expr, t: nat, k: nat)
    ensures IsI1(GenExpr(Annotate(types, e, false), t, k).v) <==> IsComparison(e)
    ensures IsCmpInst(GenExpr(Annotate(types, e, false), t, k).v) <==> IsComparison(e)
  {
  }

  /** A condition computes 0 exactly when the expression's value is 0. */
  lemma ConditionComputes(env: Env, frame: Ir.Frame, c: Expr, t: nat, k: nat, mem: Memory, m: Ir.Machine) returns (n: int)
    requires FrameFor(frame, env) && ConditionOk(env.types, c) && Holds(frame, mem, m)
    requires Value(env, c, mem, m.input).Some? && GenExpr(Annotate(env.types, c, false), t, k).slots <= frame.inputs
    ensures n == 0 <==> Value(env, c, mem, m.input).value.value == 0
    ensures var r := Result(n, Value(env, c, mem, m.input).value.input);
            && Computes(frame, mem, m, GenIfCond(Annotate(env.types, c, false), t, k), r, t)
            && Computes(frame, mem, m, GenWhileCond(Annotate(env.types, c, false), t, k), r, t)
  {
    var g := GenExpr(Annotate(env.types, c, false), t, k);
    var r := Value(env, c, mem, m.input).value;
    ExprComputes(env, frame, c, false, t, k, mem, m);
    ComparisonsAreI1(env.types, c, t, k);
    n := r.value;
    if !IsI1(g.v) {
      n := Bit(r.value != 0);
      ZeroTested(frame, mem, m, g, r, t);
    }
  }

  lemma ZeroTested(frame: Ir.Frame, mem: Memory, m: Ir.Machine, g: Gen, r: Result, t: nat)
    requires Computes(frame, mem, m, g, r, t)
    ensures Computes(frame, mem, m, CompareWithZero(g), Result(Bit(r.value != 0), r.input), t)
  {
    ThenComputes(frame, mem, m, g, r, t, Ir.ICmp(g.temps, Ir.NE, g.v, Ir.ConstantInt(0)), Ir.CmpInst, true, Bit(r.value != 0));
  }
}
