/** The builder, whose handlers take registers from a counter and append instructions. */
module SelectionBuilder {
  import opened Int64
  import opened Registers
  import opened RiscV
  import opened Selection
  import opened SelectionLists

  class RiscVAsmBuilder {
    var code: seq<Instr>
    var virtRegIndex: nat
    /** The registers of the nodes whose action has been executed. */
    var executed: map<nat, Reg>

    constructor ()
      ensures code == [] && virtRegIndex == 0 && executed == map[]
    {
      code, virtRegIndex, executed := [], 0, map[];
    }

    method CreateVirtReg() returns (r: Reg)
      requires virtRegIndex < LIMIT
      modifies this`virtRegIndex
      ensures r == Virt(old(virtRegIndex)) && virtRegIndex == old(virtRegIndex) + 1
    {
      r := VIRTUAL_REG_FLAG + virtRegIndex;
      virtRegIndex := virtRegIndex + 1;
    }

    method Append(i: Instr)
      modifies this`code
      ensures code == old(code) + [i]
    {
      code := code + [i];
    }

    method HandleRegReg(op: Op, reg1: Reg, reg2: Reg) returns (d: Reg)
      requires virtRegIndex < LIMIT
      modifies this`code, this`virtRegIndex
      ensures d == Virt(old(virtRegIndex)) && virtRegIndex == old(virtRegIndex) + 1
      ensures code == old(code) + [Arith(OpcodeOf(op), d, reg1, reg2)]
    {
      d := CreateVirtReg();
      Append(Arith(OpcodeOf(op), d, reg1, reg2));
    }

    method HandleRegImm(op: Op, reg: Reg, imm: int) returns (d: Reg)
      requires virtRegIndex < LIMIT
      modifies this`code, this`virtRegIndex
      ensures d == Virt(old(virtRegIndex)) && virtRegIndex == old(virtRegIndex) + 1
      ensures code == old(code) + WithImmRight(op, reg, imm, d)
    {
      d := CreateVirtReg();
      Append(LoadImm(d, imm));
      Append(Arith(OpcodeOf(op), d, reg, d));
    }

    method HandleImmReg(op: Op, imm: int, reg: Reg) returns (d: Reg)
      requires virtRegIndex < LIMIT
      modifies this`code, this`virtRegIndex
      ensures d == Virt(old(virtRegIndex)) && virtRegIndex == old(virtRegIndex) + 1
      ensures code == old(code) + WithImmLeft(op, imm, reg, d)
    {
      d := CreateVirtReg();
      Append(LoadImm(d, imm));
      match op
      case Add => Append(Arith(ADD, d, reg, d));
      case Sub => Append(Arith(SUB, d, d, reg));
      case Mul => Append(Arith(MUL, d, d, reg));
      case SDiv => Append(Arith(DIV, d, d, reg));
    }

    method HandleLoad(mem: Operand) returns (d: Reg)
      requires virtRegIndex < LIMIT
      modifies this`code, this`virtRegIndex
      ensures d == Virt(old(virtRegIndex)) && virtRegIndex == old(virtRegIndex) + 1
      ensures code == old(code) + [LoadMem(d, MemOf(mem))]
    {
      d := CreateVirtReg();
      Append(LoadMem(d, if mem.RegOp? then MemOp(0, mem.reg) else mem));
    }

    method StoreMemoryAddressToReg(b: Place, mem: Operand, d: Reg)
      requires mem.MemOp? && virtRegIndex < LIMIT
      modifies this`code, this`virtRegIndex
      ensures virtRegIndex == old(virtRegIndex) + Temps(b, mem)
      ensures code == old(code) + AddressTo(b, d, mem, Virt(old(virtRegIndex)))
    {
      if b.Object? || -2048 <= mem.disp <= 2047 {
        Append(Instr(ADDI, [RegOp(d), RegOp(mem.base), ImmOp(mem.disp)]));
      } else {
        var temp := CreateVirtReg();
        Append(LoadImm(temp, mem.disp));
        Append(Arith(ADD, d, mem.base, temp));
      }
    }

    /** A constant index becomes the displacement. */
    method HandleGepImm(ghost was: seq<Instr>, ghost ob: Out, b: Place, mem: Operand, k: int, size: nat)
      returns (place: Operand)
      requires (if b.At? then mem.RegOp? else mem.MemOp?) && virtRegIndex + 3 <= LIMIT
      requires Grown(was, code, virtRegIndex, executed, ob) && mem == ob.place
      modifies this`code, this`virtRegIndex
      ensures var o := WithImmIndex(ob, b, k, size); Grown(was, code, virtRegIndex, executed, o) && place == o.place
    {
      if b.At? {
        place := MemOp(Wrap(k * size), mem.reg);
      } else {
        var d := CreateVirtReg();
        StoreMemoryAddressToReg(b, mem, d);
        place := MemOp(Wrap(k * size), d);
      }
    }

    /** A computed index is scaled and added to the base. */
    method HandleGepReg(ghost was: seq<Instr>, ghost ob: Out, ghost oi: Out, b: Place, mem: Operand, index: Reg, size: nat)
      returns (place: Operand)
      requires (if b.At? then mem.RegOp? else mem.MemOp?) && virtRegIndex + 3 <= LIMIT
      requires Grown(was + ob.code, code, virtRegIndex, executed, oi) && mem == ob.place && RegOp(index) == oi.place
      modifies this`code, this`virtRegIndex
      ensures var o := WithIndex(ob, b, oi, size); Grown(was, code, virtRegIndex, executed, o) && place == o.place
    {
      var base, d;
      if b.At? {
        base := mem.reg;
        d := CreateVirtReg();
      } else {
        base := CreateVirtReg();
        StoreMemoryAddressToReg(b, mem, base);
        d := CreateVirtReg();
      }
      Append(LoadImm(d, size));
      Append(Arith(MUL, d, d, index));
      Append(Arith(ADD, d, d, base));
      place := MemOp(0, d);
    }

    /** The action of a node, if it has not been executed yet. */
    method ActReg(t: Tree) returns (r: Reg)
      requires Selectable(t) && virtRegIndex + Need(t) <= LIMIT
      modifies this
      ensures var o := SelectReg(t, old(virtRegIndex), old(executed));
              Grown(old(code), code, virtRegIndex, executed, o) && RegOp(r) == o.place
      decreases t, 1
    {
      if t.id in executed {
        return executed[t.id];
      }
      match t
      case Load(_, _) => r := ActLoad(t);
      case Binary(_, _, l, rhs) =>
        if l.Imm? {
          r := ActImmReg(t);
        } else if rhs.Imm? {
          r := ActRegImm(t);
        } else {
          r := ActRegReg(t);
        }
    }

    method ActLoad(t: Tree) returns (r: Reg)
      requires t.Load? && t.id !in executed && Selectable(t) && virtRegIndex + Need(t) <= LIMIT
      modifies this
      ensures var o := SelectReg(t, old(virtRegIndex), old(executed));
              Grown(old(code), code, virtRegIndex, executed, o) && RegOp(r) == o.place
      decreases t, 0
    {
      var mem := ActPlace(t.place);
      r := HandleLoad(mem);
      executed := executed[t.id := r];
    }

    method ActImmReg(t: Tree) returns (r: Reg)
      requires t.Binary? && t.lhs.Imm? && t.id !in executed && Selectable(t) && virtRegIndex + Need(t) <= LIMIT
      modifies this
      ensures var o := SelectReg(t, old(virtRegIndex), old(executed));
              Grown(old(code), code, virtRegIndex, executed, o) && RegOp(r) == o.place
      decreases t, 0
    {
      var r2 := ActReg(t.rhs);
      r := HandleImmReg(t.op, t.lhs.n, r2);
      executed := executed[t.id := r];
    }

    method ActRegImm(t: Tree) returns (r: Reg)
      requires t.Binary? && !t.lhs.Imm? && t.rhs.Imm? && t.id !in executed && Selectable(t) && virtRegIndex + Need(t) <= LIMIT
      modifies this
      ensures var o := SelectReg(t, old(virtRegIndex), old(executed));
              Grown(old(code), code, virtRegIndex, executed, o) && RegOp(r) == o.place
      decreases t, 0
    {
      var r1 := ActReg(t.lhs);
      r := HandleRegImm(t.op, r1, t.rhs.n);
      executed := executed[t.id := r];
    }

    method ActRegReg(t: Tree) returns (r: Reg)
      requires t.Binary? && !t.lhs.Imm? && !t.rhs.Imm? && t.id !in executed && Selectable(t)
      requires virtRegIndex + Need(t) <= LIMIT
      modifies this
      ensures var o := SelectReg(t, old(virtRegIndex), old(executed));
              Grown(old(code), code, virtRegIndex, executed, o) && RegOp(r) == o.place
      decreases t, 0
    {
      ghost var was, ol := code, SelectReg(t.lhs, virtRegIndex, executed);
      var r1 := ActReg(t.lhs);
      ghost var or := SelectReg(t.rhs, virtRegIndex, executed);
      var r2 := ActReg(t.rhs);
      assert code == was + (ol.code + or.code);
      r := HandleRegReg(t.op, r1, r2);
      executed := executed[t.id := r];
    }

    method ActPlace(p: Place) returns (place: Operand)
      requires SelectablePlace(p) && virtRegIndex + NeedPlace(p) <= LIMIT
      modifies this
      ensures var o := SelectPlace(p, old(virtRegIndex), old(executed));
              Grown(old(code), code, virtRegIndex, executed, o) && place == o.place
      decreases p, 1
    {
      match p
      case Object(disp) =>
        place := MemOp(disp, FP);
      case At(t) =>
        var r := ActReg(t);
        place := RegOp(r);
      case Element(_, _, _) =>
        place := ActElement(p);
    }

    method ActElement(p: Place) returns (place: Operand)
      requires p.Element? && SelectablePlace(p) && virtRegIndex + NeedPlace(p) <= LIMIT
      modifies this
      ensures var o := SelectPlace(p, old(virtRegIndex), old(executed));
              Grown(old(code), code, virtRegIndex, executed, o) && place == o.place
      decreases p, 0
    {
      ghost var was := code;
      ghost var ob := SelectPlace(p.base, virtRegIndex, executed);
      var base := ActPlace(p.base);
      if p.index.Imm? {
        place := HandleGepImm(was, ob, p.base, base, p.index.n, p.size);
      } else {
        ghost var oi := SelectReg(p.index, virtRegIndex, executed);
        var index := ActReg(p.index);
        place := HandleGepReg(was, ob, oi, p.base, base, index, p.size);
      }
    }

    method ActSource(f: Source) returns (from: Operand)
      requires SelectableSource(f) && virtRegIndex + NeedSource(f) <= LIMIT
      modifies this
      ensures var o := SelectSource(f, old(virtRegIndex), old(executed));
              Grown(old(code), code, virtRegIndex, executed, o) && from == o.place
    {
      match f
      case Computed(t) =>
        if t.Imm? {
          from := ImmOp(t.n);
        } else {
          var r := ActReg(t);
          from := RegOp(r);
        }
      case AddressOf(p) =>
        from := ActPlace(p);
    }

    method HandleStore(f: Source, from: Operand, to: Operand)
      requires (from.MemOp? <==> f.AddressOf?) && virtRegIndex + 2 <= LIMIT
      modifies this`code, this`virtRegIndex
      ensures virtRegIndex == old(virtRegIndex) + Taken(f, from)
      ensures code == old(code) + StoreFrom(f, from, MemOf(to), Virt(old(virtRegIndex)), Virt(old(virtRegIndex) + 1))
    {
      var mem := if to.RegOp? then MemOp(0, to.reg) else to;
      match from
      case RegOp(r) =>
        Append(StoreMem(r, mem));
      case ImmOp(n) =>
        var d := CreateVirtReg();
        Append(LoadImm(d, n));
        Append(StoreMem(d, mem));
      case MemOp(_, _) =>
        var d := CreateVirtReg();
        StoreMemoryAddressToReg(f.place, from, d);
        Append(StoreMem(d, mem));
    }

    /** The action of a store: value, address, and the store itself. */
    method ActStore(f: Source, to: Place)
      requires SelectableItem(Store(f, to)) && virtRegIndex + NeedItem(Store(f, to)) <= LIMIT
      modifies this
      ensures Grown(old(code), code, virtRegIndex, executed, SelectItem(Store(f, to), old(virtRegIndex), old(executed)))
    {
      ghost var was, os := code, SelectSource(f, virtRegIndex, executed);
      var from := ActSource(f);
      ghost var code1, ot := code, SelectPlace(to, virtRegIndex, executed);
      var mem := ActPlace(to);
      ghost var code2 := code;
      HandleStore(f, from, mem);
      StoreGrown(was, code1, code2, code, f, os, ot);
    }

    /** One instruction. No rule covers one that only names a place. */
    method ActItem(i: Item)
      requires SelectableItem(i) && virtRegIndex + NeedItem(i) <= LIMIT
      modifies this
      ensures Grown(old(code), code, virtRegIndex, executed, SelectItem(i, old(virtRegIndex), old(executed)))
    {
      match i
      case Compute(t) => var r := ActReg(t);
      case Locate(_) =>
      case Store(f, to) => ActStore(f, to);
    }

    /** The instructions of a function in order, each with its action. */
    method BuildAsmFunction(items: seq<Item>)
      requires AllSelectable(items) && virtRegIndex + NeedAll(items) <= LIMIT
      modifies this
      ensures Grown(old(code), code, virtRegIndex, executed, SelectAll(items, old(virtRegIndex), old(executed)))
    {
      ghost var was, whole := code, SelectAll(items, virtRegIndex, executed);
      assert items[0..] == items;
      for k := 0 to |items|
        invariant Remaining(was, whole, code, virtRegIndex, executed, items[k..])
      {
        assert items[k..][0] == items[k] && items[k..][1..] == items[k + 1..];
        ghost var c, n, e := code, virtRegIndex, executed;
        ActItem(items[k]);
        ItemDone(was, whole, c, n, e, items[k..], code, virtRegIndex, executed);
      }
      assert items[|items|..] == [];
    }
  }

  /** The builder has added the code of `o`, and its counter and notes are those of `o`. */
  predicate Grown(was: seq<Instr>, code: seq<Instr>, virtRegIndex: nat, executed: map<nat, Reg>, o: Out) {
    code == was + o.code && virtRegIndex == o.next && executed == o.done
  }

  /** What is left to select completes `whole`. */
  predicate Remaining(was: seq<Instr>, whole: Out, code: seq<Instr>, next: nat, done: map<nat, Reg>, rest: seq<Item>) {
    && AllSelectable(rest) && next + NeedAll(rest) <= LIMIT
    && var o := SelectAll(rest, next, done); was + whole.code == code + o.code && whole.next == o.next && whole.done == o.done
  }

  lemma ItemDone(was: seq<Instr>, whole: Out, code: seq<Instr>, next: nat, done: map<nat, Reg>, rest: seq<Item>,
                 code': seq<Instr>, next': nat, done': map<nat, Reg>)
    requires rest != [] && Remaining(was, whole, code, next, done, rest)
    requires Grown(code, code', next', done', SelectItem(rest[0], next, done))
    ensures Remaining(was, whole, code', next', done', rest[1..])
  {
    var o1, o2 := SelectItem(rest[0], next, done), SelectAll(rest[1..], next', done');
    Associates(code, o1.code, o2.code);
  }

  lemma Associates(a: seq<Instr>, b: seq<Instr>, c: seq<Instr>)
    ensures a + (b + c) == (a + b) + c
  {
  }

  lemma StoreGrown(was: seq<Instr>, code1: seq<Instr>, code2: seq<Instr>, code: seq<Instr>, f: Source, os: Out, ot: Out)
    requires (os.place.MemOp? <==> f.AddressOf?) && ot.next + 2 <= LIMIT && code1 == was + os.code && code2 == code1 + ot.code
    requires code == code2 + StoreFrom(f, os.place, MemOf(ot.place), Virt(ot.next), Virt(ot.next + 1))
    ensures code == was + WithStore(f, os, ot).code
  {
    Associates(was, os.code, ot.code);
    Associates(was, os.code + ot.code, StoreFrom(f, os.place, MemOf(ot.place), Virt(ot.next), Virt(ot.next + 1)));
  }
}
