/** The back end from end to end, for straight-line functions: instructions of the intermediate language are selected,
    registers allocated and rewritten, the frame put around, and large displacements lowered. */
module SelectedFunctions {
  import opened Options
  import opened Registers
  import opened RegAlloc
  import opened RiscV
  import opened RewriteProof
  import opened Rewriting
  import opened Backend
  import L = Lowering
  import LR = LiveRanges
  import RF = RiscVFrame
  import S = Selection
  import SL = SelectionLists
  import Proof = SelectionProof

  // ---------------------------------------------------------------------------------------------
  // The registers of selected code
  // ---------------------------------------------------------------------------------------------

  predicate Own(r: Reg) { r == FP || IsVirtual(r) }

  /** An instruction over virtual registers and the frame pointer that writes virtual registers only. */
  predicate OwnInstr(i: Instr) {
    && Shaped(i) && (WritesReg(i) ==> IsVirtual(RegIn(i.ops[0])))
    && forall k :: 0 <= k < |i.ops| && !i.ops[k].ImmOp? ==> Own(RegIn(i.ops[k]))
  }

  ghost predicate AllOwn(code: seq<Instr>) { forall k :: 0 <= k < |code| ==> OwnInstr(code[k]) }

  ghost predicate OwnDone(done: map<nat, Reg>) { forall id :: id in done ==> IsVirtual(done[id]) }

  ghost predicate OwnOut(o: S.Out) {
    && AllOwn(o.code) && OwnDone(o.done)
    && match o.place case RegOp(r) => IsVirtual(r) case MemOp(_, b) => Own(b) case ImmOp(_) => true
  }

  lemma AllOwnConcat(a: seq<Instr>, b: seq<Instr>)
    requires AllOwn(a) && AllOwn(b)
    ensures AllOwn(a + b)
  {
  }

  lemma VirtIsVirtual(n: nat)
    requires n < S.LIMIT
    ensures IsVirtual(S.Virt(n))
  {
  }

  lemma LoadOwn(o: S.Out, d: Reg, id: nat)
    requires OwnOut(o) && !o.place.ImmOp? && IsVirtual(d)
    ensures OwnOut(S.Out(o.code + [S.LoadMem(d, S.MemOf(o.place))], RegOp(d), o.next + 1, o.done[id := d]))
  {
    AllOwnConcat(o.code, [S.LoadMem(d, S.MemOf(o.place))]);
  }

  /** More code that leaves its result in `d`. */
  lemma ResultOwn(o: S.Out, code: seq<Instr>, d: Reg, id: nat)
    requires OwnOut(o) && AllOwn(code) && IsVirtual(d)
    ensures OwnOut(S.Out(o.code + code, RegOp(d), o.next + 1, o.done[id := d]))
  {
    AllOwnConcat(o.code, code);
  }

  lemma {:induction false} TreeOwn(t: S.Tree, next: nat, done: map<nat, Reg>)
    requires S.Selectable(t) && next + S.Need(t) <= S.LIMIT && OwnDone(done)
    ensures OwnOut(S.SelectReg(t, next, done))
    decreases t
  {
    match t
    case Imm(_) =>
    case Load(id, p) =>
      if id !in done {
        PlaceOwn(p, next, done);
        var o := S.SelectPlace(p, next, done);
        VirtIsVirtual(o.next);
        LoadOwn(o, S.Virt(o.next), id);
      }
    case Binary(id, op, l, r) =>
      if id !in done {
        BinaryOwn(t, next, done);
      }
  }

  lemma {:induction false} BinaryOwn(t: S.Tree, next: nat, done: map<nat, Reg>)
    requires t.Binary? && t.id !in done && S.Selectable(t) && next + S.Need(t) <= S.LIMIT && OwnDone(done)
    ensures OwnOut(S.SelectReg(t, next, done))
    decreases t, 0
  {
    if t.lhs.Imm? {
      TreeOwn(t.rhs, next, done);
      var o := S.SelectReg(t.rhs, next, done);
      VirtIsVirtual(o.next);
      ResultOwn(o, S.WithImmLeft(t.op, t.lhs.n, o.place.reg, S.Virt(o.next)), S.Virt(o.next), t.id);
    } else if t.rhs.Imm? {
      TreeOwn(t.lhs, next, done);
      var o := S.SelectReg(t.lhs, next, done);
      VirtIsVirtual(o.next);
      ResultOwn(o, S.WithImmRight(t.op, o.place.reg, t.rhs.n, S.Virt(o.next)), S.Virt(o.next), t.id);
    } else {
      var ol := S.SelectReg(t.lhs, next, done);
      TreeOwn(t.lhs, next, done);
      var or := S.SelectReg(t.rhs, ol.next, ol.done);
      TreeOwn(t.rhs, ol.next, ol.done);
      VirtIsVirtual(or.next);
      AllOwnConcat(ol.code, or.code);
      ResultOwn(or.(code := ol.code + or.code), [S.Arith(S.OpcodeOf(t.op), S.Virt(or.next), ol.place.reg, or.place.reg)],
                S.Virt(or.next), t.id);
    }
  }

  lemma {:induction false} PlaceOwn(p: S.Place, next: nat, done: map<nat, Reg>)
    requires S.SelectablePlace(p) && next + S.NeedPlace(p) <= S.LIMIT && OwnDone(done)
    ensures OwnOut(S.SelectPlace(p, next, done))
    decreases p
  {
    match p
    case Object(_) =>
    case At(t) => TreeOwn(t, next, done);
    case Element(b, i, size) =>
      var ob := S.SelectPlace(b, next, done);
      PlaceOwn(b, next, done);
      if i.Imm? {
        ImmIndexOwn(ob, b, i.n, size);
      } else {
        TreeOwn(i, ob.next, ob.done);
        IndexOwn(ob, b, S.SelectReg(i, ob.next, ob.done), size);
      }
  }

  lemma AddressOwn(b: S.Place, mem: Operand, n: nat)
    requires mem.MemOp? && Own(mem.base) && n + 2 <= S.LIMIT
    ensures AllOwn(S.AddressTo(b, S.Virt(n), mem, S.Virt(n + 1)))
  {
    VirtIsVirtual(n);
    VirtIsVirtual(n + 1);
  }

  lemma ImmIndexOwn(ob: S.Out, b: S.Place, k: int, size: nat)
    requires (if b.At? then ob.place.RegOp? else ob.place.MemOp?) && ob.next + 3 <= S.LIMIT && OwnOut(ob)
    ensures OwnOut(S.WithImmIndex(ob, b, k, size))
  {
    if !b.At? {
      VirtIsVirtual(ob.next);
      AddressOwn(b, ob.place, ob.next);
      AllOwnConcat(ob.code, S.AddressTo(b, S.Virt(ob.next), ob.place, S.Virt(ob.next + 1)));
    }
  }

  lemma IndexOwn(ob: S.Out, b: S.Place, oi: S.Out, size: nat)
    requires (if b.At? then ob.place.RegOp? else ob.place.MemOp?) && oi.place.RegOp? && oi.next + 3 <= S.LIMIT
    requires OwnOut(ob) && OwnOut(oi)
    ensures OwnOut(S.WithIndex(ob, b, oi, size))
  {
    AllOwnConcat(ob.code, oi.code);
    if b.At? {
      PointerIndexOwn(ob, b, oi, size);
    } else {
      ObjectIndexOwn(ob, b, oi, size);
    }
  }

  lemma PointerIndexOwn(ob: S.Out, b: S.Place, oi: S.Out, size: nat)
    requires b.At? && ob.place.RegOp? && IsVirtual(ob.place.reg) && oi.place.RegOp? && IsVirtual(oi.place.reg)
    requires oi.next + 3 <= S.LIMIT && AllOwn(ob.code + oi.code) && OwnDone(oi.done)
    ensures OwnOut(S.WithIndex(ob, b, oi, size))
  {
    VirtIsVirtual(oi.next);
    ScaleOwn(S.Virt(oi.next), size, oi.place.reg, ob.place.reg);
    MemOwn(ob.code + oi.code, S.Scale(S.Virt(oi.next), size, oi.place.reg, ob.place.reg), S.WithIndex(ob, b, oi, size));
  }

  lemma ObjectIndexOwn(ob: S.Out, b: S.Place, oi: S.Out, size: nat)
    requires !b.At? && ob.place.MemOp? && Own(ob.place.base) && oi.place.RegOp? && IsVirtual(oi.place.reg)
    requires oi.next + 3 <= S.LIMIT && AllOwn(ob.code + oi.code) && OwnDone(oi.done)
    ensures OwnOut(S.WithIndex(ob, b, oi, size))
  {
    var n2 := oi.next + 1 + S.Temps(b, ob.place);
    VirtIsVirtual(n2);
    ScaledAddressOwn(b, ob.place, oi.next, n2, size, oi.place.reg);
    MemOwn(ob.code + oi.code, S.AddressTo(b, S.Virt(oi.next), ob.place, S.Virt(oi.next + 1))
                              + S.Scale(S.Virt(n2), size, oi.place.reg, S.Virt(oi.next)), S.WithIndex(ob, b, oi, size));
  }

  lemma MemOwn(front: seq<Instr>, code: seq<Instr>, o: S.Out)
    requires AllOwn(front) && AllOwn(code) && o.code == front + code && o.place.MemOp? && Own(o.place.base) && OwnDone(o.done)
    ensures OwnOut(o)
  {
    AllOwnConcat(front, code);
  }

  lemma ScaleOwn(d: Reg, size: nat, index: Reg, base: Reg)
    requires IsVirtual(d) && IsVirtual(index) && IsVirtual(base)
    ensures AllOwn(S.Scale(d, size, index, base))
  {
  }

  lemma ScaledAddressOwn(b: S.Place, mem: Operand, n: nat, n2: nat, size: nat, index: Reg)
    requires mem.MemOp? && Own(mem.base) && n + 2 <= S.LIMIT && n2 < S.LIMIT && IsVirtual(index)
    ensures AllOwn(S.AddressTo(b, S.Virt(n), mem, S.Virt(n + 1)) + S.Scale(S.Virt(n2), size, index, S.Virt(n)))
  {
    VirtIsVirtual(n);
    VirtIsVirtual(n2);
    AddressOwn(b, mem, n);
    ScaleOwn(S.Virt(n2), size, index, S.Virt(n));
    AllOwnConcat(S.AddressTo(b, S.Virt(n), mem, S.Virt(n + 1)), S.Scale(S.Virt(n2), size, index, S.Virt(n)));
  }

  lemma StoreOwn(f: SL.Source, from: Operand, to: Operand, n: nat)
    requires (from.MemOp? <==> f.AddressOf?) && to.MemOp? && Own(to.base) && n + 2 <= S.LIMIT
    requires match from case RegOp(r) => IsVirtual(r) case MemOp(_, b) => Own(b) case ImmOp(_) => true
    ensures AllOwn(SL.StoreFrom(f, from, to, S.Virt(n), S.Virt(n + 1)))
  {
    VirtIsVirtual(n);
    if from.MemOp? {
      AddressOwn(f.place, from, n);
      AllOwnConcat(S.AddressTo(f.place, S.Virt(n), from, S.Virt(n + 1)), [SL.StoreMem(S.Virt(n), to)]);
    }
  }

  lemma ItemOwn(i: SL.Item, next: nat, done: map<nat, Reg>)
    requires SL.SelectableItem(i) && next + SL.NeedItem(i) <= S.LIMIT && OwnDone(done)
    ensures AllOwn(SL.SelectItem(i, next, done).code) && OwnDone(SL.SelectItem(i, next, done).done)
  {
    match i
    case Compute(t) => TreeOwn(t, next, done);
    case Locate(_) =>
    case Store(f, to) => StoreItemOwn(f, to, next, done);
  }

  lemma StoreItemOwn(f: SL.Source, to: S.Place, next: nat, done: map<nat, Reg>)
    requires SL.SelectableItem(SL.Store(f, to)) && next + SL.NeedItem(SL.Store(f, to)) <= S.LIMIT && OwnDone(done)
    ensures var o := SL.SelectItem(SL.Store(f, to), next, done); AllOwn(o.code) && OwnDone(o.done)
  {
    var os := SL.SelectSource(f, next, done);
    SourceOwn(f, next, done);
    var ot := S.SelectPlace(to, os.next, os.done);
    PlaceOwn(to, os.next, os.done);
    WithStoreOwn(f, os, ot);
  }

  lemma WithStoreOwn(f: SL.Source, os: S.Out, ot: S.Out)
    requires (os.place.MemOp? <==> f.AddressOf?) && ot.next + 2 <= S.LIMIT && !ot.place.ImmOp? && OwnOut(os) && OwnOut(ot)
    ensures AllOwn(SL.WithStore(f, os, ot).code) && OwnDone(SL.WithStore(f, os, ot).done)
  {
    StoreOwn(f, os.place, S.MemOf(ot.place), ot.next);
    ThreeOwn(os.code, ot.code, SL.StoreFrom(f, os.place, S.MemOf(ot.place), S.Virt(ot.next), S.Virt(ot.next + 1)));
  }

  lemma ThreeOwn(a: seq<Instr>, b: seq<Instr>, c: seq<Instr>)
    requires AllOwn(a) && AllOwn(b) && AllOwn(c)
    ensures AllOwn(a + b + c)
  {
    AllOwnConcat(a, b);
    AllOwnConcat(a + b, c);
  }

  lemma SourceOwn(f: SL.Source, next: nat, done: map<nat, Reg>)
    requires SL.SelectableSource(f) && next + SL.NeedSource(f) <= S.LIMIT && OwnDone(done)
    ensures OwnOut(SL.SelectSource(f, next, done))
  {
    match f
    case Computed(t) =>
      if !t.Imm? {
        TreeOwn(t, next, done);
      }
    case AddressOf(p) => PlaceOwn(p, next, done);
  }

  lemma {:induction false} ListOwn(items: seq<SL.Item>, next: nat, done: map<nat, Reg>)
    requires SL.AllSelectable(items) && next + SL.NeedAll(items) <= S.LIMIT && OwnDone(done)
    ensures AllOwn(SL.SelectAll(items, next, done).code)
    decreases items
  {
    if items != [] {
      assert SL.SelectableItem(items[0]);
      ItemOwn(items[0], next, done);
      var o := SL.SelectItem(items[0], next, done);
      ListOwn(items[1..], o.next, o.done);
      AllOwnConcat(o.code, SL.SelectAll(items[1..], o.next, o.done).code);
    }
  }

  lemma OwnIsLowerable(code: seq<Instr>)
    requires AllOwn(code)
    ensures L.AllLowerable(code)
  {
    forall k | 0 <= k < |code| ensures L.Lowerable(code[k]) {
      assert OwnInstr(code[k]);
    }
  }

  // ---------------------------------------------------------------------------------------------
  // From the intermediate language to what is put out
  // ---------------------------------------------------------------------------------------------

  /** A list that can be selected: in order, an instruction a number, and not too long for the numbering. */
  ghost predicate ListOk(items: seq<SL.Item>, trees: map<nat, S.Tree>) {
    && SL.AllSelectable(items) && SL.NeedAll(items) <= S.LIMIT && SL.AllConsistent(items, trees) && SL.AllInOrder(items, {})
    && SL.Numbered(trees)
  }

  /** The run leaves the save area alone. */
  ghost predicate KeepsSaveArea(f: RF.Needs, sp: int, before: map<int, int>, after: map<int, int>) {
    forall a :: a in before && sp - REGISTER_SIZE * |RF.AllSaved(f)| <= a < sp ==> a in after && after[a] == before[a]
  }

  lemma SelectedIsPolite(f: RF.Needs, code: seq<Instr>, sp: int, before: Machine, after: Machine)
    requires AllOwn(code) && KeepsSaveArea(f, sp, before.mem, after.mem)
    ensures Polite(f, code, sp, before, after)
  {
    forall k | 0 <= k < |code| && WritesReg(code[k])
      ensures RegIn(code[k].ops[0]) != SP && !IsCalleeSaved(RegIn(code[k].ops[0]))
    {
      assert OwnInstr(code[k]);
    }
  }

  /** The source, run over virtual registers from where the prologue ends. */
  lemma SourceRuns(items: seq<SL.Item>, trees: map<nat, S.Tree>, f: RF.Needs, fr: Frame, caller: Machine, entry: Machine,
                   s': SL.Ran) returns (src': Machine)
    requires ListOk(items, trees) && RF.NeedsOk(f) && RF.StackOk(f, caller) && fr.fp == caller.regs[SP]
    requires ExecAll(fr, RF.Prologue(f), caller) == Some(entry)
    requires SL.RunAll(items, fr.fp, SL.Ran(map[], SourceView(fr, entry).mem)) == Some(s')
    ensures ExecAll(fr, SL.SelectAll(items, 0, map[]).code, SourceView(fr, entry)) == Some(src') && src'.mem == s'.mem
  {
    var entered := RF.PrologueRuns(fr, f, caller);
    var none: map<nat, Reg> := map[];
    assert none.Keys == {} && Proof.HasFrame(fr, SourceView(fr, entry));
    SL.ListFollows(fr, trees, items, SL.Ran(map[], SourceView(fr, entry).mem), 0, map[], SourceView(fr, entry));
    src' := ExecAll(fr, SL.SelectAll(items, 0, map[]).code, SourceView(fr, entry)).value;
  }

  /** For every straight-line function: what is put out fits its encoding, ends with the memory that the instructions of
      the intermediate language end with, and gives back what is the caller's. */
  lemma SelectedRuns(items: seq<SL.Item>, trees: map<nat, S.Tree>, cs: seq<LR.Create>, o: Output, f: RF.Needs, fr: Frame,
                     caller: Machine, entry: Machine, s': SL.Ran) returns (end: Machine)
    requires ListOk(items, trees) && o.source.code == SL.SelectAll(items, 0, map[]).code
    requires BuiltFrom(cs, o.source) && OutputOk(o) && FrameFor(o, f) && CellsApart(f)
    requires fr == FrameOf(o, fr.fp) && CallerReady(fr, f, caller) && ExecAll(fr, RF.Prologue(f), caller) == Some(entry)
    requires SL.RunAll(items, fr.fp, SL.Ran(map[], SourceView(fr, entry).mem)) == Some(s')
    requires KeepsSaveArea(f, fr.fp, SourceView(fr, entry).mem, s'.mem)
    ensures RF.AllFit(L.LoweredAll(Whole(f, o.code)))
    ensures ExecAll(fr, L.LoweredAll(Whole(f, o.code)), caller) == Some(end)
    ensures SameMemory(fr, Machine(map[], s'.mem), end) && GivenBack(f, caller, end)
  {
    var src' := SourceRuns(items, trees, f, fr, caller, entry, s');
    ListOwn(items, 0, map[]);
    OwnIsLowerable(o.source.code);
    SelectedIsPolite(f, o.source.code, fr.fp, SourceView(fr, entry), src');
    end := FunctionLowered(cs, o, f, fr, caller, entry, src');
  }
}
