/** Selected code leaves the tree's value in its register. */
module SelectionProof {
  import opened Int64
  import opened Options
  import opened Registers
  import opened RiscV
  import opened Selection

  /** The instructions by number, and the values of those that have run. */
  datatype Nodes = Nodes(trees: map<nat, Tree>, vals: Values)

  /** A number stands for one tree. */
  predicate Consistent(t: Tree, trees: map<nat, Tree>) {
    match t
    case Imm(_) => true
    case Load(id, p) => id in trees && trees[id] == t && ConsistentPlace(p, trees)
    case Binary(id, _, l, r) => id in trees && trees[id] == t && Consistent(l, trees) && Consistent(r, trees)
  }

  predicate ConsistentPlace(p: Place, trees: map<nat, Tree>) {
    match p
    case Object(_) => true
    case At(t) => Consistent(t, trees)
    case Element(b, i, _) => ConsistentPlace(b, trees) && Consistent(i, trees)
  }

  /** Numbered before the virtual register `next`. */
  predicate Earlier(r: Reg, next: nat) { !IsStackSlot(r) && r < VIRTUAL_REG_FLAG + next }

  /** Nodes whose action has been executed have their value in their register. */
  ghost predicate DoneOk(fr: Frame, nodes: Nodes, done: map<nat, Reg>, next: nat, m: Machine) {
    && (forall id :: id in nodes.vals ==> id in done)
    && forall id :: id in done ==>
      && id in nodes.trees && Earlier(done[id], next) && done[id] in m.regs
      && Value(nodes.trees[id], fr.fp, nodes.vals, m.mem) == Some(m.regs[done[id]])
  }

  /** Memory and earlier registers are as they were. */
  ghost predicate Kept(m: Machine, m': Machine, next: nat) {
    m'.mem == m.mem && forall r :: r in m.regs && Earlier(r, next) ==> r in m'.regs && m'.regs[r] == m.regs[r]
  }

  predicate HasFrame(fr: Frame, m: Machine) { FP in m.regs && m.regs[FP] == fr.fp }

  /** The code of `o` runs from `m` to a state in which its place reads as `v`. */
  ghost predicate Selected(fr: Frame, nodes: Nodes, m: Machine, next: nat, o: Out, v: int) {
    && ExecAll(fr, o.code, m).Some? && SelectedTo(fr, nodes, m, ExecAll(fr, o.code, m).value, next, o, v)
  }

  ghost predicate SelectedTo(fr: Frame, nodes: Nodes, m: Machine, m': Machine, next: nat, o: Out, v: int) {
    && Kept(m, m', next) && DoneOk(fr, nodes, o.done, o.next, m') && next <= o.next
    && ReadOp(fr, m', o.place) == Some(v) && Earlier(RegIn(o.place), o.next)
  }

  lemma KeptDone(fr: Frame, nodes: Nodes, done: map<nat, Reg>, n: nat, n2: nat, m: Machine, m': Machine)
    requires DoneOk(fr, nodes, done, n, m) && Kept(m, m', n) && n <= n2
    ensures DoneOk(fr, nodes, done, n2, m')
  {
  }

  /** More code behind: the registers in use stay, and the new place reads as `v2`. */
  lemma Continued(fr: Frame, nodes: Nodes, m: Machine, next: nat, o: Out, v: int, code: seq<Instr>, m2: Machine, o2: Out, v2: int)
    requires Selected(fr, nodes, m, next, o, v)
    requires ExecAll(fr, code, ExecAll(fr, o.code, m).value) == Some(m2) && Kept(ExecAll(fr, o.code, m).value, m2, o.next)
    requires o2.code == o.code + code && o.next <= o2.next && o2.done == o.done
    requires ReadOp(fr, m2, o2.place) == Some(v2) && Earlier(RegIn(o2.place), o2.next)
    ensures Selected(fr, nodes, m, next, o2, v2)
  {
    ExecConcat(fr, o.code, code, m);
    KeptDone(fr, nodes, o.done, o.next, o2.next, ExecAll(fr, o.code, m).value, m2);
  }

  /** The register of a node is noted. */
  lemma Noted(fr: Frame, nodes: Nodes, m: Machine, next: nat, o: Out, v: int, id: nat)
    requires Selected(fr, nodes, m, next, o, v) && o.place.RegOp?
    requires id in nodes.trees && Value(nodes.trees[id], fr.fp, nodes.vals, m.mem) == Some(v)
    ensures Selected(fr, nodes, m, next, o.(done := o.done[id := o.place.reg]), v)
  {
  }

  // ---------------------------------------------------------------------------------------------
  // The handlers
  // ---------------------------------------------------------------------------------------------

  function WithValue(m: Machine, d: Reg, n: int): Machine { m.(regs := m.regs[d := n]) }

  lemma ArithRuns(fr: Frame, op: Op, d: Reg, a: Reg, b: Reg, m: Machine, v: int)
    requires !IsStackSlot(d) && !IsStackSlot(a) && !IsStackSlot(b) && a in m.regs && b in m.regs
    requires Selection.Apply(op, m.regs[a], m.regs[b]) == Some(v)
    ensures Exec(fr, Arith(OpcodeOf(op), d, a, b), m) == Some(WithValue(m, d, v))
  {
  }

  lemma ImmLeftRuns(fr: Frame, op: Op, n: int, r: Reg, d: Reg, m: Machine, v: int)
    requires !IsStackSlot(d) && !IsStackSlot(r) && r in m.regs && r != d
    requires Selection.Apply(op, n, m.regs[r]) == Some(v)
    ensures ExecAll(fr, WithImmLeft(op, n, r, d), m) == Some(WithValue(m, d, v))
  {
    var m1 := WithValue(m, d, n);
    var second := WithImmLeft(op, n, r, d)[1];
    if op.Add? {
      ArithRuns(fr, op, d, r, d, m1, v);
    } else {
      ArithRuns(fr, op, d, d, r, m1, v);
    }
    assert WithValue(m1, d, v) == WithValue(m, d, v);
    ExecTwo(fr, LoadImm(d, n), second, m);
  }

  lemma ImmRightRuns(fr: Frame, op: Op, r: Reg, n: int, d: Reg, m: Machine, v: int)
    requires !IsStackSlot(d) && !IsStackSlot(r) && r in m.regs && r != d
    requires Selection.Apply(op, m.regs[r], n) == Some(v)
    ensures ExecAll(fr, WithImmRight(op, r, n, d), m) == Some(WithValue(m, d, v))
  {
    var m1 := WithValue(m, d, n);
    ArithRuns(fr, op, d, r, d, m1, v);
    assert WithValue(m1, d, v) == WithValue(m, d, v);
    ExecTwo(fr, LoadImm(d, n), Arith(OpcodeOf(op), d, r, d), m);
  }

  lemma AddImmRuns(fr: Frame, d: Reg, base: Reg, disp: int, temp: Reg, m: Machine) returns (m2: Machine)
    requires !IsStackSlot(d) && !IsStackSlot(base) && !IsStackSlot(temp) && base in m.regs && temp != base && temp != d
    ensures ExecAll(fr, AddImm(d, base, disp, temp), m) == Some(m2) && m2.mem == m.mem
    ensures d in m2.regs && m2.regs[d] == Wrap(m.regs[base] + disp)
    ensures forall r :: r in m.regs && r != d && (-2048 <= disp <= 2047 || r != temp) ==> r in m2.regs && m2.regs[r] == m.regs[r]
  {
    var v := Wrap(m.regs[base] + disp);
    if -2048 <= disp <= 2047 {
      m2 := WithValue(m, d, v);
      ExecOne(fr, Instr(ADDI, [RegOp(d), RegOp(base), ImmOp(disp)]), m);
    } else {
      var m1 := WithValue(m, temp, disp);
      m2 := WithValue(m1, d, v);
      ArithRuns(fr, Op.Add, d, base, temp, m1, v);
      ExecTwo(fr, LoadImm(temp, disp), Arith(ADD, d, base, temp), m);
    }
  }

  lemma ScaleRuns(fr: Frame, d: Reg, size: nat, index: Reg, base: Reg, m: Machine)
    requires !IsStackSlot(d) && !IsStackSlot(index) && !IsStackSlot(base) && index in m.regs && base in m.regs
    requires d != index && d != base
    ensures ExecAll(fr, Scale(d, size, index, base), m) == Some(WithValue(m, d, Wrap(m.regs[base] + m.regs[index] * size)))
  {
    var k, b := m.regs[index], m.regs[base];
    var m1, m2 := WithValue(m, d, size), WithValue(m, d, Wrap(size * k));
    assert size * k == k * size;
    ArithRuns(fr, Op.Mul, d, d, index, m1, Wrap(size * k));
    assert WithValue(m1, d, Wrap(size * k)) == m2;
    ArithRuns(fr, Op.Add, d, d, base, m2, Wrap(Wrap(size * k) + b));
    WrapOfSum(size * k, b);
    assert WithValue(m2, d, Wrap(b + k * size)) == WithValue(m, d, Wrap(b + k * size));
    ExecTwo(fr, LoadImm(d, size), Arith(MUL, d, d, index), m);
    assert Scale(d, size, index, base) == [LoadImm(d, size), Arith(MUL, d, d, index)] + [Arith(ADD, d, d, base)];
    ExecConcat(fr, [LoadImm(d, size), Arith(MUL, d, d, index)], [Arith(ADD, d, d, base)], m);
    ExecOne(fr, Arith(ADD, d, d, base), m2);
  }

  // ---------------------------------------------------------------------------------------------
  // Trees
  // ---------------------------------------------------------------------------------------------

  lemma NothingSelected(fr: Frame, nodes: Nodes, m: Machine, next: nat, done: map<nat, Reg>, place: Operand, v: int)
    requires DoneOk(fr, nodes, done, next, m) && ReadOp(fr, m, place) == Some(v) && Earlier(RegIn(place), next)
    ensures Selected(fr, nodes, m, next, Out([], place, next, done), v)
  {
  }

  lemma KeptFrame(fr: Frame, nodes: Nodes, m: Machine, next: nat, o: Out, v: int)
    requires HasFrame(fr, m) && Selected(fr, nodes, m, next, o, v)
    ensures HasFrame(fr, ExecAll(fr, o.code, m).value)
  {
    assert Earlier(FP, next);
  }

  /** Two results, one after the other: the first one is still there. */
  lemma BothSelected(fr: Frame, nodes: Nodes, m: Machine, next: nat, o1: Out, v1: int, o2: Out, v2: int)
    requires Selected(fr, nodes, m, next, o1, v1)
    requires Selected(fr, nodes, ExecAll(fr, o1.code, m).value, o1.next, o2, v2)
    ensures Selected(fr, nodes, m, next, Out(o1.code + o2.code, o2.place, o2.next, o2.done), v2)
    ensures ReadOp(fr, ExecAll(fr, o1.code + o2.code, m).value, o1.place) == Some(v1)
  {
    ExecConcat(fr, o1.code, o2.code, m);
    assert Earlier(RegIn(o1.place), o1.next);
  }

  lemma VirtIsNew(n: nat, next: nat)
    requires n < LIMIT && next <= n
    ensures !Earlier(Virt(n), next) && Earlier(Virt(n), n + 1) && !IsStackSlot(Virt(n)) && Virt(n) != FP
  {
  }

  /** A result goes to the register `d` that is next. */
  lemma IntoNext(fr: Frame, nodes: Nodes, m: Machine, next: nat, o: Out, v: int, code: seq<Instr>, n: int, id: nat)
    requires Selected(fr, nodes, m, next, o, v) && o.next < LIMIT
    requires var m1 := ExecAll(fr, o.code, m).value; ExecAll(fr, code, m1) == Some(WithValue(m1, Virt(o.next), n))
    requires id in nodes.trees && Value(nodes.trees[id], fr.fp, nodes.vals, m.mem) == Some(n)
    ensures Selected(fr, nodes, m, next, Out(o.code + code, RegOp(Virt(o.next)), o.next + 1, o.done[id := Virt(o.next)]), n)
  {
    var d := Virt(o.next);
    VirtIsNew(o.next, o.next);
    var m1 := ExecAll(fr, o.code, m).value;
    var o2 := Out(o.code + code, RegOp(d), o.next + 1, o.done);
    Continued(fr, nodes, m, next, o, v, code, WithValue(m1, d, n), o2, n);
    Noted(fr, nodes, m, next, o2, n, id);
  }

  /** For every tree without an operator on two immediates, and whatever nodes have been selected before: the
      code leaves the tree's value in the register that is returned, and changes neither memory nor any register
      in use. */
  lemma {:induction false} TreeSelected(fr: Frame, nodes: Nodes, t: Tree, next: nat, done: map<nat, Reg>, m: Machine)
    requires Selectable(t) && next + Need(t) <= LIMIT && Consistent(t, nodes.trees)
    requires HasFrame(fr, m) && DoneOk(fr, nodes, done, next, m) && Value(t, fr.fp, nodes.vals, m.mem).Some?
    ensures Selected(fr, nodes, m, next, SelectReg(t, next, done), Value(t, fr.fp, nodes.vals, m.mem).value)
    decreases t, 2
  {
    match t
    case Imm(_) =>
    case Load(id, p) =>
      if id in done {
        NothingSelected(fr, nodes, m, next, done, RegOp(done[id]), Value(t, fr.fp, nodes.vals, m.mem).value);
      } else {
        LoadSelected(fr, nodes, t, next, done, m);
      }
    case Binary(id, op, l, r) =>
      if id in done {
        NothingSelected(fr, nodes, m, next, done, RegOp(done[id]), Value(t, fr.fp, nodes.vals, m.mem).value);
      } else {
        if l.Imm? {
          ImmLeftSelected(fr, nodes, t, next, done, m);
        } else if r.Imm? {
          ImmRightSelected(fr, nodes, t, next, done, m);
        } else {
          RegistersSelected(fr, nodes, t, next, done, m);
        }
      }
  }

  lemma {:induction false} LoadSelected(fr: Frame, nodes: Nodes, t: Tree, next: nat, done: map<nat, Reg>, m: Machine)
    requires t.Load? && Selectable(t) && next + Need(t) <= LIMIT && Consistent(t, nodes.trees) && t.id !in done
    requires HasFrame(fr, m) && DoneOk(fr, nodes, done, next, m) && Value(t, fr.fp, nodes.vals, m.mem).Some?
    ensures Selected(fr, nodes, m, next, SelectReg(t, next, done), Value(t, fr.fp, nodes.vals, m.mem).value)
    decreases t, 0
  {
    var o := SelectPlace(t.place, next, done);
    PlaceSelected(fr, nodes, t.place, next, done, m);
    var m1 := ExecAll(fr, o.code, m).value;
    var a := Address(t.place, fr.fp, nodes.vals, m.mem).value;
    VirtIsNew(o.next, o.next);
    assert ReadOp(fr, m1, MemOf(o.place)) == Some(a);
    ExecOne(fr, LoadMem(Virt(o.next), MemOf(o.place)), m1);
    IntoNext(fr, nodes, m, next, o, PlaceReads(t.place, fr.fp, nodes.vals, m.mem).value,
             [LoadMem(Virt(o.next), MemOf(o.place))], m.mem[a], t.id);
  }

  /** What the operand of a place reads as: a pointer as it is, other places as their address. */
  function PlaceReads(p: Place, fp: int, vals: Values, mem: map<int, int>): Option<int> {
    if p.At? then Value(p.ptr, fp, vals, mem) else Address(p, fp, vals, mem)
  }

  lemma {:induction false} ImmLeftSelected(fr: Frame, nodes: Nodes, t: Tree, next: nat, done: map<nat, Reg>, m: Machine)
    requires t.Binary? && Selectable(t) && next + Need(t) <= LIMIT && Consistent(t, nodes.trees) && t.id !in done
    requires t.lhs.Imm?
    requires HasFrame(fr, m) && DoneOk(fr, nodes, done, next, m) && Value(t, fr.fp, nodes.vals, m.mem).Some?
    ensures Selected(fr, nodes, m, next, SelectReg(t, next, done), Value(t, fr.fp, nodes.vals, m.mem).value)
    decreases t, 0
  {
    var o, v := SelectReg(t.rhs, next, done), Value(t, fr.fp, nodes.vals, m.mem).value;
    var d := Virt(o.next);
    TreeSelected(fr, nodes, t.rhs, next, done, m);
    VirtIsNew(o.next, o.next);
    ImmLeftRuns(fr, t.op, t.lhs.n, o.place.reg, d, ExecAll(fr, o.code, m).value, v);
    IntoNext(fr, nodes, m, next, o, Value(t.rhs, fr.fp, nodes.vals, m.mem).value, WithImmLeft(t.op, t.lhs.n, o.place.reg, d), v,
             t.id);
  }

  lemma {:induction false} ImmRightSelected(fr: Frame, nodes: Nodes, t: Tree, next: nat, done: map<nat, Reg>, m: Machine)
    requires t.Binary? && Selectable(t) && next + Need(t) <= LIMIT && Consistent(t, nodes.trees) && t.id !in done
    requires t.rhs.Imm?
    requires HasFrame(fr, m) && DoneOk(fr, nodes, done, next, m) && Value(t, fr.fp, nodes.vals, m.mem).Some?
    ensures Selected(fr, nodes, m, next, SelectReg(t, next, done), Value(t, fr.fp, nodes.vals, m.mem).value)
    decreases t, 0
  {
    var o, v := SelectReg(t.lhs, next, done), Value(t, fr.fp, nodes.vals, m.mem).value;
    var d := Virt(o.next);
    TreeSelected(fr, nodes, t.lhs, next, done, m);
    VirtIsNew(o.next, o.next);
    ImmRightRuns(fr, t.op, o.place.reg, t.rhs.n, d, ExecAll(fr, o.code, m).value, v);
    IntoNext(fr, nodes, m, next, o, Value(t.lhs, fr.fp, nodes.vals, m.mem).value, WithImmRight(t.op, o.place.reg, t.rhs.n, d), v,
             t.id);
  }

  lemma {:induction false} RegistersSelected(fr: Frame, nodes: Nodes, t: Tree, next: nat, done: map<nat, Reg>, m: Machine)
    requires t.Binary? && Selectable(t) && next + Need(t) <= LIMIT && Consistent(t, nodes.trees) && t.id !in done
    requires !t.lhs.Imm? && !t.rhs.Imm?
    requires HasFrame(fr, m) && DoneOk(fr, nodes, done, next, m) && Value(t, fr.fp, nodes.vals, m.mem).Some?
    ensures Selected(fr, nodes, m, next, SelectReg(t, next, done), Value(t, fr.fp, nodes.vals, m.mem).value)
    decreases t, 0
  {
    var v := Value(t, fr.fp, nodes.vals, m.mem).value;
    var a, b := Value(t.lhs, fr.fp, nodes.vals, m.mem).value, Value(t.rhs, fr.fp, nodes.vals, m.mem).value;
    var ol := SelectReg(t.lhs, next, done);
    TreeSelected(fr, nodes, t.lhs, next, done, m);
    var m1 := ExecAll(fr, ol.code, m).value;
    KeptFrame(fr, nodes, m, next, ol, a);
    var or := SelectReg(t.rhs, ol.next, ol.done);
    TreeSelected(fr, nodes, t.rhs, ol.next, ol.done, m1);
    BothSelected(fr, nodes, m, next, ol, a, or, b);
    ArithSelected(fr, nodes, t, next, ol, a, Out(ol.code + or.code, or.place, or.next, or.done), b, v, m);
  }

  /** The operator on two registers, the first of them selected before. */
  lemma ArithSelected(fr: Frame, nodes: Nodes, t: Tree, next: nat, ol: Out, a: int, o: Out, b: int, v: int, m: Machine)
    requires t.Binary? && ol.place.RegOp? && o.place.RegOp? && o.next < LIMIT && Selected(fr, nodes, m, next, o, b)
    requires ReadOp(fr, ExecAll(fr, o.code, m).value, ol.place) == Some(a) && Earlier(ol.place.reg, o.next)
    requires Selection.Apply(t.op, a, b) == Some(v)
    requires t.id in nodes.trees && Value(nodes.trees[t.id], fr.fp, nodes.vals, m.mem) == Some(v)
    ensures var d := Virt(o.next);
            Selected(fr, nodes, m, next, Out(o.code + [Arith(OpcodeOf(t.op), d, ol.place.reg, o.place.reg)], RegOp(d), o.next + 1,
                                             o.done[t.id := d]), v)
  {
    var d := Virt(o.next);
    VirtIsNew(o.next, o.next);
    ArithRuns(fr, t.op, d, ol.place.reg, o.place.reg, ExecAll(fr, o.code, m).value, v);
    ExecOne(fr, Arith(OpcodeOf(t.op), d, ol.place.reg, o.place.reg), ExecAll(fr, o.code, m).value);
    IntoNext(fr, nodes, m, next, o, b, [Arith(OpcodeOf(t.op), d, ol.place.reg, o.place.reg)], v, t.id);
  }

  // ---------------------------------------------------------------------------------------------
  // Places
  // ---------------------------------------------------------------------------------------------

  lemma {:induction false} PlaceSelected(fr: Frame, nodes: Nodes, p: Place, next: nat, done: map<nat, Reg>, m: Machine)
    requires SelectablePlace(p) && next + NeedPlace(p) <= LIMIT && ConsistentPlace(p, nodes.trees)
    requires HasFrame(fr, m) && DoneOk(fr, nodes, done, next, m) && Address(p, fr.fp, nodes.vals, m.mem).Some?
    ensures PlaceReads(p, fr.fp, nodes.vals, m.mem).Some?
    ensures Selected(fr, nodes, m, next, SelectPlace(p, next, done), PlaceReads(p, fr.fp, nodes.vals, m.mem).value)
    decreases p, 1
  {
    match p
    case Object(disp) =>
      NothingSelected(fr, nodes, m, next, done, MemOp(disp, FP), Wrap(fr.fp + disp));
    case At(t) =>
      TreeSelected(fr, nodes, t, next, done, m);
    case Element(b, i, size) =>
      var ob := SelectPlace(b, next, done);
      PlaceSelected(fr, nodes, b, next, done, m);
      var vb := PlaceReads(b, fr.fp, nodes.vals, m.mem).value;
      if i.Imm? {
        ImmIndexSelected(fr, nodes, b, i.n, size, next, ob, vb, m);
      } else {
        var m1 := ExecAll(fr, ob.code, m).value;
        KeptFrame(fr, nodes, m, next, ob, vb);
        var oi := SelectReg(i, ob.next, ob.done);
        TreeSelected(fr, nodes, i, ob.next, ob.done, m1);
        IndexSelected(fr, nodes, b, size, next, ob, vb, oi, Value(i, fr.fp, nodes.vals, m.mem).value, m);
      }
  }

  /** The address of a place, from what its operand reads as. */
  lemma AddressFromRead(p: Place, fp: int, vals: Values, mem: map<int, int>)
    requires Address(p, fp, vals, mem).Some?
    ensures PlaceReads(p, fp, vals, mem).Some? && Address(p, fp, vals, mem).value == Wrap(PlaceReads(p, fp, vals, mem).value)
  {
  }

  lemma ElementFromRead(p: Place, fp: int, vals: Values, mem: map<int, int>, k: int, size: nat)
    requires Address(p, fp, vals, mem).Some?
    ensures PlaceReads(p, fp, vals, mem).Some?
    ensures ElementAt(Address(p, fp, vals, mem).value, k, size) == Wrap(PlaceReads(p, fp, vals, mem).value + k * size)
  {
    AddressFromRead(p, fp, vals, mem);
    WrapOfSum(PlaceReads(p, fp, vals, mem).value, k * size);
  }

  lemma ImmIndexSelected(fr: Frame, nodes: Nodes, b: Place, k: int, size: nat, next: nat, ob: Out, vb: int, m: Machine)
    requires (if b.At? then ob.place.RegOp? else ob.place.MemOp?) && ob.next + 3 <= LIMIT
    requires Selected(fr, nodes, m, next, ob, vb) && PlaceReads(b, fr.fp, nodes.vals, m.mem) == Some(vb)
    requires Address(b, fr.fp, nodes.vals, m.mem).Some?
    ensures Selected(fr, nodes, m, next, WithImmIndex(ob, b, k, size),
                     ElementAt(Address(b, fr.fp, nodes.vals, m.mem).value, k, size))
  {
    AddressFromRead(b, fr.fp, nodes.vals, m.mem);
    WrapOfSum(vb, k * size);
    if b.At? {
      PointerImmIndexed(fr, nodes, b, k, size, next, ob, vb, m);
    } else {
      WrapOfSum(Wrap(vb), k * size);
      ObjectImmIndexed(fr, nodes, b, k, size, next, ob, vb, m);
    }
  }

  lemma PointerImmIndexed(fr: Frame, nodes: Nodes, b: Place, k: int, size: nat, next: nat, ob: Out, vb: int, m: Machine)
    requires b.At? && ob.place.RegOp? && ob.next + 3 <= LIMIT && Selected(fr, nodes, m, next, ob, vb)
    ensures Selected(fr, nodes, m, next, WithImmIndex(ob, b, k, size), Wrap(vb + Wrap(k * size)))
  {
    var o := WithImmIndex(ob, b, k, size);
    assert o.code == ob.code + [];
    Continued(fr, nodes, m, next, ob, vb, [], ExecAll(fr, ob.code, m).value, o, Wrap(vb + Wrap(k * size)));
  }

  lemma ObjectImmIndexed(fr: Frame, nodes: Nodes, b: Place, k: int, size: nat, next: nat, ob: Out, vb: int, m: Machine)
    requires !b.At? && ob.place.MemOp? && ob.next + 3 <= LIMIT && Selected(fr, nodes, m, next, ob, vb)
    ensures Selected(fr, nodes, m, next, WithImmIndex(ob, b, k, size), Wrap(vb + Wrap(k * size)))
  {
    var m1 := ExecAll(fr, ob.code, m).value;
    VirtIsNew(ob.next, ob.next);
    VirtIsNew(ob.next + 1, ob.next);
    var d, temp := Virt(ob.next), Virt(ob.next + 1);
    var m2 := AddressRuns(fr, b, d, ob.place, temp, m1, vb, ob.next);
    Continued(fr, nodes, m, next, ob, vb, AddressTo(b, d, ob.place, temp), m2, WithImmIndex(ob, b, k, size),
              Wrap(vb + Wrap(k * size)));
  }

  /** The address of a memory operand goes to a new register. */
  lemma AddressRuns(fr: Frame, b: Place, d: Reg, mem: Operand, temp: Reg, m: Machine, v: int, next: nat) returns (m2: Machine)
    requires mem.MemOp? && ReadOp(fr, m, mem) == Some(v) && Earlier(mem.base, next) && next + 1 < LIMIT
    requires d == Virt(next) && temp == Virt(next + 1)
    ensures ExecAll(fr, AddressTo(b, d, mem, temp), m) == Some(m2) && Kept(m, m2, next)
    ensures d in m2.regs && m2.regs[d] == v
  {
    VirtIsNew(next, next);
    VirtIsNew(next + 1, next);
    if b.Object? {
      m2 := WithValue(m, d, v);
      ExecOne(fr, Instr(ADDI, [RegOp(d), RegOp(mem.base), ImmOp(mem.disp)]), m);
    } else {
      m2 := AddImmRuns(fr, d, mem.base, mem.disp, temp, m);
    }
  }

  lemma IndexSelected(fr: Frame, nodes: Nodes, b: Place, size: nat, next: nat, ob: Out, vb: int, oi: Out, vi: int, m: Machine)
    requires (if b.At? then ob.place.RegOp? else ob.place.MemOp?) && oi.place.RegOp? && oi.next + 3 <= LIMIT
    requires Selected(fr, nodes, m, next, ob, vb) && PlaceReads(b, fr.fp, nodes.vals, m.mem) == Some(vb)
    requires Selected(fr, nodes, ExecAll(fr, ob.code, m).value, ob.next, oi, vi)
    requires Address(b, fr.fp, nodes.vals, m.mem).Some?
    ensures Selected(fr, nodes, m, next, WithIndex(ob, b, oi, size),
                     ElementAt(Address(b, fr.fp, nodes.vals, m.mem).value, vi, size))
  {
    BothSelected(fr, nodes, m, next, ob, vb, oi, vi);
    ElementFromRead(b, fr.fp, nodes.vals, m.mem, vi, size);
    var o := Out(ob.code + oi.code, oi.place, oi.next, oi.done);
    if b.At? {
      PointerIndexed(fr, nodes, b, size, next, ob, vb, oi, o, vi, m);
    } else {
      ObjectIndexed(fr, nodes, b, size, next, ob, vb, oi, o, vi, m);
    }
  }

  lemma PointerIndexed(fr: Frame, nodes: Nodes, b: Place, size: nat, next: nat, ob: Out, vb: int, oi: Out, o: Out, vi: int,
                       m: Machine)
    requires b.At? && ob.place.RegOp? && oi.place.RegOp? && oi.next + 3 <= LIMIT
    requires o == Out(ob.code + oi.code, oi.place, oi.next, oi.done) && Selected(fr, nodes, m, next, o, vi)
    requires ReadOp(fr, ExecAll(fr, o.code, m).value, ob.place) == Some(vb) && Earlier(RegIn(ob.place), oi.next)
    ensures Selected(fr, nodes, m, next, WithIndex(ob, b, oi, size), Wrap(vb + vi * size))
  {
    var d, m1, v := Virt(oi.next), ExecAll(fr, o.code, m).value, Wrap(vb + vi * size);
    VirtIsNew(oi.next, oi.next);
    ScaleRuns(fr, d, size, oi.place.reg, ob.place.reg, m1);
    Continued(fr, nodes, m, next, o, vi, Scale(d, size, oi.place.reg, ob.place.reg), WithValue(m1, d, v),
              WithIndex(ob, b, oi, size), v);
  }

  lemma ObjectIndexed(fr: Frame, nodes: Nodes, b: Place, size: nat, next: nat, ob: Out, vb: int, oi: Out, o: Out, vi: int,
                      m: Machine)
    requires !b.At? && ob.place.MemOp? && oi.place.RegOp? && oi.next + 3 <= LIMIT
    requires o == Out(ob.code + oi.code, oi.place, oi.next, oi.done) && Selected(fr, nodes, m, next, o, vi)
    requires ReadOp(fr, ExecAll(fr, o.code, m).value, ob.place) == Some(vb) && Earlier(RegIn(ob.place), oi.next)
    ensures Selected(fr, nodes, m, next, WithIndex(ob, b, oi, size), Wrap(vb + vi * size))
  {
    var code, m3 := OfAddress(fr, b, ob.place, vb, oi.place.reg, vi, size, oi.next, ExecAll(fr, o.code, m).value);
    InMemory(fr, nodes, m, next, o, vi, code, m3, oi.next + 1 + Temps(b, ob.place), WithIndex(ob, b, oi, size),
             Wrap(vb + vi * size));
  }

  /** More code behind that leaves an address in a register. */
  lemma InMemory(fr: Frame, nodes: Nodes, m: Machine, next: nat, o: Out, v: int, code: seq<Instr>, m2: Machine, n: nat, o2: Out,
                 a: int)
    requires o.next <= n < LIMIT && Selected(fr, nodes, m, next, o, v)
    requires o2 == Out(o.code + code, MemOp(0, Virt(n)), n + 1, o.done)
    requires ExecAll(fr, code, ExecAll(fr, o.code, m).value) == Some(m2) && Kept(ExecAll(fr, o.code, m).value, m2, o.next)
    requires Virt(n) in m2.regs && m2.regs[Virt(n)] == a && InRange(a)
    ensures Selected(fr, nodes, m, next, o2, a)
  {
    VirtIsNew(n, n);
    Continued(fr, nodes, m, next, o, v, code, m2, o2, a);
  }

  /** The base's address into a register, and the scaled index added to it. */
  lemma OfAddress(fr: Frame, b: Place, mem: Operand, vb: int, index: Reg, vi: int, size: nat, next: nat, m: Machine)
    returns (code: seq<Instr>, m3: Machine)
    requires mem.MemOp? && ReadOp(fr, m, mem) == Some(vb) && Earlier(mem.base, next) && next + 3 <= LIMIT
    requires Read(fr, m, index) == Some(vi) && Earlier(index, next)
    ensures var n2 := next + 1 + Temps(b, mem);
            && code == AddressTo(b, Virt(next), mem, Virt(next + 1)) + Scale(Virt(n2), size, index, Virt(next))
            && ExecAll(fr, code, m) == Some(m3) && Kept(m, m3, next)
            && Virt(n2) in m3.regs && m3.regs[Virt(n2)] == Wrap(vb + vi * size)
  {
    var d1, d2 := Virt(next), Virt(next + 1 + Temps(b, mem));
    VirtIsNew(next, next);
    VirtIsNew(next + 1 + Temps(b, mem), next);
    var m2 := AddressRuns(fr, b, d1, mem, Virt(next + 1), m, vb, next);
    ScaleRuns(fr, d2, size, index, d1, m2);
    m3 := WithValue(m2, d2, Wrap(vb + vi * size));
    code := AddressTo(b, d1, mem, Virt(next + 1)) + Scale(d2, size, index, d1);
    ExecConcat(fr, AddressTo(b, d1, mem, Virt(next + 1)), Scale(d2, size, index, d1), m);
  }
}
