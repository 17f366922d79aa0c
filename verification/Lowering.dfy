/** The end of the RISC-V back end (src/codegen/asm/RISCV/RISCVAsmRewriter.h:269-337): stack objects get their places, and
    displacements and immediates of more than 12 bits go through the return-address register. */
module Lowering {
  import opened Int64
  import opened Options
  import opened Registers
  import opened RiscV
  import opened RiscVFrame

  // ---------------------------------------------------------------------------------------------
  // Stack objects
  // ---------------------------------------------------------------------------------------------

  /** An incoming argument on the stack, or a local object. */
  datatype StackObject = StackObject(isArg: bool, size: nat)

  /** The offset of every object, with the next argument at `arg` and local objects going down from `local`. */
  function Offsets(objs: seq<StackObject>, arg: int, local: int): (os: seq<int>)
    ensures |os| == |objs|
  {
    if objs == [] then []
    else if objs[0].isArg then [arg] + Offsets(objs[1..], arg + objs[0].size, local)
    else [local - objs[0].size] + Offsets(objs[1..], arg, local - objs[0].size)
  }

  function LocalSize(objs: seq<StackObject>): nat {
    if objs == [] then 0 else (if objs[0].isArg then 0 else objs[0].size) + LocalSize(objs[1..])
  }

  function ArgSize(objs: seq<StackObject>): nat {
    if objs == [] then 0 else (if objs[0].isArg then objs[0].size else 0) + ArgSize(objs[1..])
  }

  /** Every object begins where the one of its kind before it ends: arguments upwards from `arg`, local objects downwards
      from `local`. */
  lemma {:induction false} ObjectsFollow(objs: seq<StackObject>, arg: int, local: int, k: nat)
    requires k < |objs|
    ensures Offsets(objs, arg, local)[k]
         == if objs[k].isArg then arg + ArgSize(objs[..k]) else local - LocalSize(objs[..k]) - objs[k].size
  {
    var o, rest := objs[0], objs[1..];
    var arg', local' := if o.isArg then arg + o.size else arg, if o.isArg then local else local - o.size;
    assert Offsets(objs, arg, local)[1..] == Offsets(rest, arg', local');
    if k > 0 {
      ObjectsFollow(rest, arg', local', k - 1);
      assert objs[..k][0] == o && objs[..k][1..] == rest[..k - 1];
    }
  }

  /** Local objects fill the bytes below `local`, as many as their sizes add up to, arguments lie from `arg` on, and no
      two objects of a kind share a byte. */
  lemma {:induction false} ObjectsApart(objs: seq<StackObject>, arg: int, local: int)
    ensures var os := Offsets(objs, arg, local);
            && (forall k :: 0 <= k < |objs| ==>
                  if objs[k].isArg then arg <= os[k] else local - LocalSize(objs) <= os[k] && os[k] + objs[k].size <= local)
            && (forall j, k :: 0 <= j < k < |objs| && objs[j].isArg == objs[k].isArg ==>
                  if objs[j].isArg then os[j] + objs[j].size <= os[k] else os[k] + objs[k].size <= os[j])
  {
    if objs != [] {
      var o, rest := objs[0], objs[1..];
      var arg', local' := if o.isArg then arg + o.size else arg, if o.isArg then local else local - o.size;
      ObjectsApart(rest, arg', local');
      var os := Offsets(objs, arg, local);
      assert os[1..] == Offsets(rest, arg', local');
      forall k | 0 < k < |objs| ensures os[k] == Offsets(rest, arg', local')[k - 1] && objs[k] == rest[k - 1] {
      }
    }
  }

  /** In the frame: below the saved registers, above the bytes for outgoing arguments. */
  lemma LocalsLieInFrame(f: Needs, objs: seq<StackObject>, k: nat)
    requires f.local == LocalSize(objs) && k < |objs| && !objs[k].isArg
    ensures var top := 0 - REGISTER_SIZE * |AllSaved(f)|;
            && Offsets(objs, 0, top)[k] + objs[k].size <= top
            && AboveOutgoing(f) <= Offsets(objs, 0, top)[k]
  {
    ObjectsApart(objs, 0, 0 - REGISTER_SIZE * |AllSaved(f)|);
  }

  // ---------------------------------------------------------------------------------------------
  // Large displacements and immediates
  // ---------------------------------------------------------------------------------------------

  predicate FarMem(o: Operand) { o.MemOp? && !Fits12(o.disp) }

  predicate FarImm(i: Instr) { i.op.ADDI? && |i.ops| > 2 && i.ops[2].ImmOp? && !Fits12(i.ops[2].val) }

  function LoadRA(n: int): Instr { Instr(LI, [RegOp(RA), ImmOp(n)]) }

  function AddToRA(base: Reg): Instr { Instr(ADD, [RegOp(RA), RegOp(RA), RegOp(base)]) }

  function SetOp(i: Instr, k: nat, o: Operand): Instr
    requires k < |i.ops|
  {
    i.(ops := i.ops[k := o])
  }

  /** A displacement too large: its sum with the base goes into the return-address register first. */
  function NearMem(i: Instr, k: nat): Expanded
    requires k < |i.ops|
  {
    if FarMem(i.ops[k]) then Expanded([LoadRA(i.ops[k].disp), AddToRA(i.ops[k].base)], SetOp(i, k, MemOp(0, RA)))
    else Expanded([], i)
  }

  /** An immediate too large: ADDI becomes ADD. */
  function NearImm(i: Instr): Expanded {
    if FarImm(i) then Expanded([LoadRA(i.ops[2].val)], SetOp(i, 2, RegOp(RA)).(op := ADD)) else Expanded([], i)
  }

  datatype Expanded = Expanded(before: seq<Instr>, instr: Instr)

  /** One operand, then the immediate. */
  function Near(i: Instr, k: nat): (e: Expanded)
    requires k < |i.ops|
    ensures |e.instr.ops| == |i.ops|
  {
    var mem := NearMem(i, k);
    var imm := NearImm(mem.instr);
    Expanded(mem.before + imm.before, imm.instr)
  }

  /** What an instruction becomes, from operand `k` on. */
  function LoweredFrom(i: Instr, k: nat): (c: seq<Instr>)
    ensures c != []
    decreases |i.ops| - k
  {
    if k >= |i.ops| then [i] else Near(i, k).before + LoweredFrom(Near(i, k).instr, k + 1)
  }

  function Lowered(i: Instr): seq<Instr> { LoweredFrom(i, 0) }

  function LoweredAll(code: seq<Instr>): seq<Instr> { if code == [] then [] else Lowered(code[0]) + LoweredAll(code[1..]) }

  ghost predicate AllShaped(code: seq<Instr>) { forall k :: 0 <= k < |code| ==> Shaped(code[k]) }

  lemma AllShapedConcat(a: seq<Instr>, b: seq<Instr>)
    requires AllShaped(a) && AllShaped(b)
    ensures AllShaped(a + b)
  {
  }

  lemma {:induction false} FitStaysFrom(i: Instr, k: nat)
    requires !FarImm(i) && forall j :: k <= j < |i.ops| ==> !FarMem(i.ops[j])
    ensures LoweredFrom(i, k) == [i]
    decreases |i.ops| - k
  {
    if k < |i.ops| {
      FitStaysFrom(i, k + 1);
    }
  }

  /** What fits stays. */
  lemma {:induction false} FitStays(code: seq<Instr>)
    requires AllFit(code) && AllShaped(code)
    ensures LoweredAll(code) == code
  {
    if code != [] {
      assert ImmediatesFit(code[0]) && Shaped(code[0]);
      FitStaysFrom(code[0], 0);
      FitStays(code[1..]);
    }
  }

  lemma {:induction false} LoweredConcat(a: seq<Instr>, b: seq<Instr>)
    ensures LoweredAll(a + b) == LoweredAll(a) + LoweredAll(b)
  {
    if a == [] {
      assert a + b == b;
    } else {
      assert (a + b)[1..] == a[1..] + b;
      LoweredConcat(a[1..], b);
    }
  }

  lemma {:induction false} SavesShaped(rs: seq<Reg>, offset: int)
    ensures AllShaped(SaveAll(rs, offset)) && AllShaped(RestoreAll(rs, offset))
  {
    if rs != [] {
      SavesShaped(rs[1..], offset - REGISTER_SIZE);
      AllShapedConcat([Save(rs[0], offset - REGISTER_SIZE)], SaveAll(rs[1..], offset - REGISTER_SIZE));
      AllShapedConcat([Restore(rs[0], offset - REGISTER_SIZE)], RestoreAll(rs[1..], offset - REGISTER_SIZE));
    }
  }

  /** Prologue and epilogue are left as they are, although they read the return-address register. */
  lemma FrameStays(f: Needs)
    requires NeedsOk(f)
    ensures LoweredAll(Prologue(f)) == Prologue(f) && LoweredAll(Epilogue(f)) == Epilogue(f)
  {
    FrameImmediatesFit(f);
    SavesShaped(AllSaved(f), FirstStep(TotalStackFrameSize(f)));
    FitStays(Prologue(f));
    FitStays(Epilogue(f));
  }

  /** The three forms of a lowered instruction. */
  lemma LoweredForms(i: Instr)
    requires Shaped(i)
    ensures (i.op.LD? || i.op.SD?) && FarMem(i.ops[1]) ==>
              Lowered(i) == [LoadRA(i.ops[1].disp), AddToRA(i.ops[1].base), SetOp(i, 1, MemOp(0, RA))]
    ensures FarImm(i) ==> Lowered(i) == [LoadRA(i.ops[2].val), SetOp(i, 2, RegOp(RA)).(op := ADD)]
    ensures !FarImm(i) && !((i.op.LD? || i.op.SD?) && FarMem(i.ops[1])) ==> Lowered(i) == [i]
  {
    if (i.op.LD? || i.op.SD?) && FarMem(i.ops[1]) {
      var near := SetOp(i, 1, MemOp(0, RA));
      assert LoweredFrom(i, 0) == LoweredFrom(i, 1);
      FitStaysFrom(near, 2);
      assert LoweredFrom(i, 1) == [LoadRA(i.ops[1].disp), AddToRA(i.ops[1].base)] + [] + [near];
    } else if FarImm(i) {
      var near := SetOp(i, 2, RegOp(RA)).(op := ADD);
      FitStaysFrom(near, 1);
      assert LoweredFrom(i, 0) == [] + [LoadRA(i.ops[2].val)] + [near];
    } else {
      FitStaysFrom(i, 0);
    }
  }

  /** Afterwards every immediate and every displacement fits into 12 bits, whatever the code was. */
  lemma {:induction false} LoweredFits(code: seq<Instr>)
    requires AllShaped(code)
    ensures AllFit(LoweredAll(code))
  {
    if code != [] {
      assert Shaped(code[0]);
      LoweredForms(code[0]);
      LoweredFits(code[1..]);
      assert AllFit(Lowered(code[0]));
      AllFitConcat(Lowered(code[0]), LoweredAll(code[1..]));
    }
  }

  // ---------------------------------------------------------------------------------------------
  // What lowered code does
  // ---------------------------------------------------------------------------------------------

  predicate IsFar(i: Instr) { FarImm(i) || exists k :: 0 <= k < |i.ops| && FarMem(i.ops[k]) }

  /** The instruction reads the return-address register. */
  predicate UsesRA(i: Instr) { exists k :: 0 <= k < |i.ops| && RegIn(i.ops[k]) == RA && !(k == 0 && WritesReg(i)) }

  predicate Lowerable(i: Instr) { Shaped(i) && !UsesRA(i) }

  ghost predicate AllLowerable(code: seq<Instr>) { forall k :: 0 <= k < |code| ==> Lowerable(code[k]) }

  lemma AllLowerableConcat(a: seq<Instr>, b: seq<Instr>)
    requires AllLowerable(a) && AllLowerable(b)
    ensures AllLowerable(a + b)
  {
  }

  predicate WritesRA(i: Instr) { WritesReg(i) && RegIn(i.ops[0]) == RA }

  predicate SameReg(m: Machine, t: Machine, r: Reg) {
    (r in m.regs <==> r in t.regs) && (r in m.regs ==> t.regs[r] == m.regs[r])
  }

  /** The same but for the return-address register. */
  ghost predicate SameButRA(m: Machine, t: Machine) {
    t.mem == m.mem && forall r: Reg {:trigger SameReg(m, t, r)} :: r != RA ==> SameReg(m, t, r)
  }

  lemma ReadSame(fr: Frame, m: Machine, t: Machine, o: Operand)
    requires SameButRA(m, t) && RegIn(o) != RA
    ensures ReadOp(fr, t, o) == ReadOp(fr, m, o)
  {
    assert SameReg(m, t, RegIn(o));
  }

  lemma WriteSame(fr: Frame, m: Machine, t: Machine, r: Reg, n: int)
    requires SameButRA(m, t)
    ensures SameButRA(Write(fr, m, r, n), Write(fr, t, r, n))
  {
    forall q: Reg | q != RA ensures SameReg(Write(fr, m, r, n), Write(fr, t, r, n), q) {
      assert SameReg(m, t, q);
    }
  }

  lemma SetRASame(m: Machine, t: Machine, n: int)
    requires SameButRA(m, t)
    ensures SameButRA(m, t.(regs := t.regs[RA := n]))
  {
    var t' := t.(regs := t.regs[RA := n]);
    forall q: Reg | q != RA ensures SameReg(m, t', q) {
      assert SameReg(m, t, q);
    }
  }

  /** `t'` is what `m'` is, and an instruction that writes the return-address register has written the same. */
  ghost predicate Right(i: Instr, m': Machine, t': Machine) { SameButRA(m', t') && (WritesRA(i) ==> SameReg(m', t', RA)) }

  /** The code, from `t`, comes to what the instruction comes to from `m`. */
  ghost predicate RunsRight(fr: Frame, i: Instr, c: seq<Instr>, m: Machine, t: Machine) {
    Exec(fr, i, m).Some? ==> ExecAll(fr, c, t).Some? && Right(i, Exec(fr, i, m).value, ExecAll(fr, c, t).value)
  }

  lemma NearRight(fr: Frame, i: Instr, m: Machine, t: Machine)
    requires Shaped(i) && !UsesRA(i) && SameButRA(m, t)
    ensures RunsRight(fr, i, [i], m, t)
  {
    ExecOne(fr, i, t);
    forall k | 0 <= k < |i.ops| && !(k == 0 && WritesReg(i)) ensures ReadOp(fr, t, i.ops[k]) == ReadOp(fr, m, i.ops[k]) {
      ReadSame(fr, m, t, i.ops[k]);
    }
    if Exec(fr, i, m).Some? && !i.op.SD? {
      WriteSame(fr, m, t, i.ops[0].reg, Produces(fr, i, m).value);
    } else if Exec(fr, i, m).Some? {
      StoreSame(m, t, ReadOp(fr, m, i.ops[1]).value, Produces(fr, i, m).value);
    }
  }

  lemma StoreSame(m: Machine, t: Machine, a: int, n: int)
    requires SameButRA(m, t)
    ensures SameButRA(m.(mem := m.mem[a := n]), t.(mem := t.mem[a := n]))
  {
    var m', t' := m.(mem := m.mem[a := n]), t.(mem := t.mem[a := n]);
    forall q: Reg | q != RA ensures SameReg(m', t', q) {
      assert SameReg(m, t, q);
    }
  }

  /** Base and displacement, added up in the return-address register. */
  lemma SumInRA(fr: Frame, base: Reg, d: int, t: Machine) returns (t': Machine)
    requires Read(fr, t, base).Some? && base != RA
    ensures t' == t.(regs := t.regs[RA := Wrap(Read(fr, t, base).value + d)])
    ensures ExecAll(fr, [LoadRA(d), AddToRA(base)], t) == Some(t')
    ensures ReadOp(fr, t', MemOp(0, RA)) == ReadOp(fr, t, MemOp(d, base))
  {
    var t1 := t.(regs := t.regs[RA := d]);
    t' := t1.(regs := t1.regs[RA := Wrap(d + Read(fr, t, base).value)]);
    ExecTwo(fr, LoadRA(d), AddToRA(base), t);
  }

  lemma FarMemRight(fr: Frame, i: Instr, m: Machine, t: Machine)
    requires Shaped(i) && (i.op.LD? || i.op.SD?) && FarMem(i.ops[1]) && !UsesRA(i) && SameButRA(m, t)
    ensures RunsRight(fr, i, Lowered(i), m, t)
  {
    LoweredForms(i);
    if Exec(fr, i, m).Some? {
      var base, d := i.ops[1].base, i.ops[1].disp;
      var near := SetOp(i, 1, MemOp(0, RA));
      assert RegIn(i.ops[1]) != RA && (i.op.SD? ==> RegIn(i.ops[0]) != RA);
      ReadSame(fr, m, t, RegOp(base));
      var t1 := SumInRA(fr, base, d, t);
      SetRASame(m, t, t1.regs[RA]);
      assert Lowered(i) == [LoadRA(d), AddToRA(base)] + [near];
      ExecConcat(fr, [LoadRA(d), AddToRA(base)], [near], t);
      ExecOne(fr, near, t1);
      var a := ReadOp(fr, m, i.ops[1]).value;
      if i.op.SD? {
        ReadSame(fr, m, t1, i.ops[0]);
        StoreSame(m, t1, a, Produces(fr, i, m).value);
      } else {
        WriteSame(fr, m, t1, i.ops[0].reg, m.mem[a]);
      }
    }
  }

  lemma FarImmRight(fr: Frame, i: Instr, m: Machine, t: Machine)
    requires Shaped(i) && FarImm(i) && !UsesRA(i) && SameButRA(m, t)
    ensures RunsRight(fr, i, Lowered(i), m, t)
  {
    LoweredForms(i);
    if Exec(fr, i, m).Some? {
      var n, near := i.ops[2].val, SetOp(i, 2, RegOp(RA)).(op := ADD);
      var t1 := t.(regs := t.regs[RA := n]);
      assert RegIn(i.ops[1]) != RA;
      ReadSame(fr, m, t, i.ops[1]);
      SetRASame(m, t, n);
      ReadSame(fr, m, t1, i.ops[1]);
      ExecTwo(fr, LoadRA(n), near, t);
      WriteSame(fr, m, t1, i.ops[0].reg, Produces(fr, i, m).value);
    }
  }

  /** An instruction that does not read the return-address register, lowered, does the same. */
  lemma InstrRight(fr: Frame, i: Instr, m: Machine, t: Machine)
    requires Shaped(i) && !UsesRA(i) && SameButRA(m, t)
    ensures RunsRight(fr, i, Lowered(i), m, t)
  {
    LoweredForms(i);
    if (i.op.LD? || i.op.SD?) && FarMem(i.ops[1]) {
      FarMemRight(fr, i, m, t);
    } else if FarImm(i) {
      FarImmRight(fr, i, m, t);
    } else {
      NearRight(fr, i, m, t);
    }
  }

  /** Lowered code that does not read the return-address register does what it did before, that register apart. */
  lemma {:induction false} LoweredRuns(fr: Frame, code: seq<Instr>, m: Machine, t: Machine)
    requires AllLowerable(code) && SameButRA(m, t) && ExecAll(fr, code, m).Some?
    ensures ExecAll(fr, LoweredAll(code), t).Some?
    ensures SameButRA(ExecAll(fr, code, m).value, ExecAll(fr, LoweredAll(code), t).value)
    decreases code
  {
    if code != [] {
      assert Lowerable(code[0]);
      InstrRight(fr, code[0], m, t);
      var t1 := ExecAll(fr, Lowered(code[0]), t).value;
      LoweredRuns(fr, code[1..], Exec(fr, code[0], m).value, t1);
      ExecConcat(fr, Lowered(code[0]), LoweredAll(code[1..]), t);
    }
  }

  // ---------------------------------------------------------------------------------------------
  // Exactly when one instruction is lowered right
  // ---------------------------------------------------------------------------------------------

  /** A far store of the return-address register stores the address instead. */
  lemma FarStoreOfRA(fr: Frame, i: Instr) returns (m: Machine)
    requires i.op.SD? && Shaped(i) && FarMem(i.ops[1]) && i.ops[0].reg == RA && IsPhysical(i.ops[1].base) && i.ops[1].base != RA
    ensures Exec(fr, i, m).Some? && !RunsRight(fr, i, Lowered(i), m, m)
  {
    var base, d := i.ops[1].base, i.ops[1].disp;
    var a := Wrap(d);
    m := Machine(map[base := 0, RA := a + 1], map[a := 0]);
    LoweredForms(i);
    var near := SetOp(i, 1, MemOp(0, RA));
    var t1 := SumInRA(fr, base, d, m);
    assert Lowered(i) == [LoadRA(d), AddToRA(base)] + [near];
    ExecConcat(fr, [LoadRA(d), AddToRA(base)], [near], m);
    ExecOne(fr, near, t1);
    assert Exec(fr, near, t1).value.mem[a] == a;
  }

  /** A far access relative to the return-address register goes to twice the displacement. */
  lemma FarAccessByRA(fr: Frame, i: Instr) returns (m: Machine)
    requires (i.op.SD? || i.op.LD?) && Shaped(i) && FarMem(i.ops[1]) && i.ops[1].base == RA
    requires IsPhysical(RegIn(i.ops[0]))
    ensures Exec(fr, i, m).Some? && !RunsRight(fr, i, Lowered(i), m, m)
  {
    var d, near := i.ops[1].disp, SetOp(i, 1, MemOp(0, RA));
    WrapNext(d + d);
    m := Machine(map[i.ops[0].reg := 0][RA := d + 1], map[Wrap(d + 1 + d) := 0]);
    var t1 := m.(regs := m.regs[RA := d]);
    var t2 := t1.(regs := t1.regs[RA := Wrap(d + d)]);
    LoweredForms(i);
    assert Lowered(i) == [LoadRA(d), AddToRA(RA)] + [near];
    ExecTwo(fr, LoadRA(d), AddToRA(RA), m);
    ExecConcat(fr, [LoadRA(d), AddToRA(RA)], [near], m);
    ExecOne(fr, near, t2);
    NotMapped(fr, near, t2);
  }

  lemma NotMapped(fr: Frame, i: Instr, t: Machine)
    requires (i.op.SD? || i.op.LD?) && Shaped(i) && ReadOp(fr, t, i.ops[1]).Some? && ReadOp(fr, t, i.ops[1]).value !in t.mem
    ensures Exec(fr, i, t).None?
  {
  }

  lemma WrapNext(x: int)
    ensures Wrap(x) != Wrap(x + 1)
  {
  }

  /** A far addition to the return-address register adds the immediate to itself. */
  lemma FarAddToRA(fr: Frame, i: Instr) returns (m: Machine)
    requires Shaped(i) && FarImm(i) && i.ops[1].reg == RA && IsPhysical(i.ops[0].reg)
    ensures Exec(fr, i, m).Some? && !RunsRight(fr, i, Lowered(i), m, m)
  {
    var n, near := i.ops[2].val, SetOp(i, 2, RegOp(RA)).(op := ADD);
    WrapNext(n + n);
    m := Machine(map[RA := n + 1], map[]);
    var t1 := m.(regs := m.regs[RA := n]);
    LoweredForms(i);
    ExecTwo(fr, LoadRA(n), near, m);
    assert Exec(fr, near, t1).value.regs[i.ops[0].reg] == Wrap(n + n);
    assert Exec(fr, i, m).value.regs[i.ops[0].reg] == Wrap(n + 1 + n);
    assert !SameReg(Exec(fr, i, m).value, Exec(fr, near, t1).value, i.ops[0].reg);
  }

  /** An instruction over physical registers is lowered right, whatever the machine, if and only if it does not read the
      return-address register, or needs no lowering. */
  lemma RightExactly(fr: Frame, i: Instr)
    requires Shaped(i) && forall k :: 0 <= k < |i.ops| && !i.ops[k].ImmOp? ==> IsPhysical(RegIn(i.ops[k]))
    ensures (forall m :: RunsRight(fr, i, Lowered(i), m, m)) <==> !(IsFar(i) && UsesRA(i))
  {
    LoweredForms(i);
    if !IsFar(i) {
      forall m ensures RunsRight(fr, i, Lowered(i), m, m) {
        ExecOne(fr, i, m);
      }
    } else if !UsesRA(i) {
      forall m ensures RunsRight(fr, i, Lowered(i), m, m) {
        InstrRight(fr, i, m, m);
      }
    } else {
      var m := WronglyLowered(fr, i);
    }
  }

  lemma WronglyLowered(fr: Frame, i: Instr) returns (m: Machine)
    requires Shaped(i) && forall k :: 0 <= k < |i.ops| && !i.ops[k].ImmOp? ==> IsPhysical(RegIn(i.ops[k]))
    requires IsFar(i) && UsesRA(i)
    ensures !RunsRight(fr, i, Lowered(i), m, m)
  {
    if FarImm(i) {
      m := FarAddToRA(fr, i);
    } else if i.ops[1].base == RA {
      m := FarAccessByRA(fr, i);
    } else {
      m := FarStoreOfRA(fr, i);
    }
  }

  // ---------------------------------------------------------------------------------------------
  // The adjuster
  // ---------------------------------------------------------------------------------------------

  class StackFrameAdjuster {
    var code: seq<Instr>

    constructor (code: seq<Instr>)
      ensures this.code == code
    {
      this.code := code;
    }

    /** Offsets from the frame pointer: arguments up from it, local objects down from the saved registers. */
    method PlaceObjects(objs: seq<StackObject>, stackSizeForCalleeSavedRegs: nat) returns (offsets: seq<int>)
      ensures offsets == Offsets(objs, 0, 0 - (REGISTER_SIZE * 2 + stackSizeForCalleeSavedRegs))
    {
      var arg, local := 0, 0 - (REGISTER_SIZE * 2 + stackSizeForCalleeSavedRegs);
      offsets := [];
      ghost var whole := Offsets(objs, arg, local);
      assert objs[0..] == objs;
      for k := 0 to |objs|
        invariant Placing(whole, offsets, objs[k..], arg, local)
      {
        NextPlaced(whole, offsets, objs, k, arg, local);
        if objs[k].isArg {
          offsets := offsets + [arg];
          arg := arg + objs[k].size;
        } else {
          local := local - objs[k].size;
          offsets := offsets + [local];
        }
      }
    }

    /** One operand of the instruction at `pos`: what is too large for it is inserted in front. */
    method LowerOperand(pos: nat, k: nat) returns (next: nat)
      requires pos < |code| && k < |code[pos].ops|
      modifies this
      ensures var e := Near(old(code[pos]), k);
              code == old(code[..pos]) + e.before + [e.instr] + old(code[pos + 1..]) && next == pos + |e.before|
    {
      ghost var front, rest := code[..pos], code[pos + 1..];
      next := pos;
      var o := code[pos].ops[k];
      if o.MemOp? && (o.disp < -2048 || o.disp > 2047) {
        code := code[..next] + [LoadRA(o.disp), AddToRA(o.base)] + [SetOp(code[next], k, MemOp(0, RA))] + code[next + 1..];
        next := next + 2;
      }
      ghost var e1 := NearMem(old(code[pos]), k);
      assert next == |front + e1.before| && code == (front + e1.before) + [e1.instr] + rest;
      if FarImm(code[next]) {
        var i := code[next];
        code := code[..next] + [LoadRA(i.ops[2].val)] + [SetOp(i, 2, RegOp(RA)).(op := ADD)] + code[next + 1..];
        next := next + 1;
      }
    }

    method LowerAt(at: nat) returns (next: nat)
      requires at < |code|
      modifies this
      ensures code == old(code[..at]) + Lowered(old(code[at])) + old(code[at + 1..]) && next == at + |Lowered(old(code[at]))|
    {
      ghost var front, rest, i, whole := code[..at], code[at + 1..], code[at], Lowered(code[at]);
      ghost var before: seq<Instr> := [];
      var size := |code[at].ops|;
      next := at;
      for k := 0 to size
        invariant |i.ops| == size && next == |front| + |before| && HalfLowered(code, front, before, i, k, rest, whole)
      {
        HalfAt(code, front, before, i, k, rest, whole);
        ghost var c := code;
        next := LowerOperand(next, k);
        HalfStep(c, code, front, before, i, k, rest, whole);
        before, i := before + Near(i, k).before, Near(i, k).instr;
      }
      next := next + 1;
    }

    /** The last loop: all instructions in order, what is inserted left alone. */
    method LowerImmediates()
      modifies this
      ensures code == LoweredAll(old(code))
    {
      ghost var was := code;
      var todo, pos := |code|, 0;
      assert code[..0] + LoweredAll(code[0..]) == LoweredAll(was) && code[0..] == was;
      while todo > 0
        invariant 0 <= todo && 0 <= pos && pos + todo == |code| && code[..pos] + LoweredAll(code[pos..]) == LoweredAll(was)
      {
        ghost var before := code;
        var next := LowerAt(pos);
        AfterLowered(before, code, pos, next);
        pos, todo := next, todo - 1;
      }
      assert code[..pos] == code && code[pos..] == [];
    }
  }

  predicate Placing(whole: seq<int>, offsets: seq<int>, rest: seq<StackObject>, arg: int, local: int) {
    whole == offsets + Offsets(rest, arg, local)
  }

  lemma NextPlaced(whole: seq<int>, offsets: seq<int>, objs: seq<StackObject>, k: nat, arg: int, local: int)
    requires k < |objs| && Placing(whole, offsets, objs[k..], arg, local)
    ensures objs[k].isArg ==> Placing(whole, offsets + [arg], objs[k + 1..], arg + objs[k].size, local)
    ensures !objs[k].isArg ==>
              Placing(whole, offsets + [local - objs[k].size], objs[k + 1..], arg, local - objs[k].size)
  {
    assert objs[k..][0] == objs[k] && objs[k..][1..] == objs[k + 1..];
  }

  /** The operands before `k` are done. */
  predicate HalfLowered(code: seq<Instr>, front: seq<Instr>, before: seq<Instr>, i: Instr, k: nat, rest: seq<Instr>,
                        whole: seq<Instr>) {
    code == front + before + [i] + rest && before + LoweredFrom(i, k) == whole
  }

  lemma HalfAt(code: seq<Instr>, front: seq<Instr>, before: seq<Instr>, i: Instr, k: nat, rest: seq<Instr>, whole: seq<Instr>)
    requires HalfLowered(code, front, before, i, k, rest, whole)
    ensures var at := |front| + |before|;
            at < |code| && code[at] == i && code[..at] == front + before && code[at + 1..] == rest
  {
  }

  lemma HalfStep(code: seq<Instr>, code': seq<Instr>, front: seq<Instr>, before: seq<Instr>, i: Instr, k: nat,
                 rest: seq<Instr>, whole: seq<Instr>)
    requires k < |i.ops| && HalfLowered(code, front, before, i, k, rest, whole)
    requires code' == (front + before) + Near(i, k).before + [Near(i, k).instr] + rest
    ensures HalfLowered(code', front, before + Near(i, k).before, Near(i, k).instr, k + 1, rest, whole)
  {
    Regrouped(front, before, Near(i, k).before);
    Regrouped(before, Near(i, k).before, LoweredFrom(Near(i, k).instr, k + 1));
  }

  lemma Regrouped(a: seq<Instr>, b: seq<Instr>, c: seq<Instr>)
    ensures (a + b) + c == a + (b + c)
  {
  }

  lemma AfterLowered(code: seq<Instr>, code': seq<Instr>, pos: nat, next: nat)
    requires pos < |code| && code' == code[..pos] + Lowered(code[pos]) + code[pos + 1..] && next == pos + |Lowered(code[pos])|
    ensures next <= |code'| && |code'| - next == |code| - pos - 1
    ensures code'[..next] + LoweredAll(code'[next..]) == code[..pos] + LoweredAll(code[pos..])
  {
    assert code[pos..][0] == code[pos] && code[pos..][1..] == code[pos + 1..];
    assert code'[..next] == code[..pos] + Lowered(code[pos]) && code'[next..] == code[pos + 1..];
  }
}
