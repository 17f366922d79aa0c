/** Straight-line lists of instructions, stores among them, selected one after another
    (src/codegen/asm/AsmBuilderHelper.gen:103-157 and 579-590, src/codegen/asm/RISCV/RISCVAsmBuilder.cpp:43-77). */
module SelectionLists {
  import opened Int64
  import opened Options
  import opened Registers
  import opened RiscV
  import opened Selection
  import opened SelectionProof

  /** What a store writes: a value or a number, or the address of a place. */
  datatype Source = Computed(tree: Tree) | AddressOf(place: Place)

  /** An instruction with a value; one that only names a place, which no rule for statements covers; a store. */
  datatype Item = Compute(tree: Tree) | Locate(place: Place) | Store(from: Source, to: Place)

  // ---------------------------------------------------------------------------------------------
  // Meaning
  // ---------------------------------------------------------------------------------------------

  datatype Ran = Ran(vals: Values, mem: map<int, int>)

  function SourceValue(f: Source, fp: int, s: Ran): Option<int> {
    match f
    case Computed(t) => Value(t, fp, s.vals, s.mem)
    case AddressOf(p) => Address(p, fp, s.vals, s.mem)
  }

  /** An instruction's value is computed once, from memory as it is then. */
  function Run(i: Item, fp: int, s: Ran): Option<Ran> {
    match i
    case Compute(t) =>
      var v := Value(t, fp, s.vals, s.mem);
      if t.Imm? || v.None? then None else Some(s.(vals := s.vals[t.id := v.value]))
    case Locate(_) => Some(s)
    case Store(from, to) =>
      var v, a := SourceValue(from, fp, s), Address(to, fp, s.vals, s.mem);
      if v.None? || a.None? || a.value !in s.mem then None else Some(s.(mem := s.mem[a.value := v.value]))
  }

  function RunAll(items: seq<Item>, fp: int, s: Ran): Option<Ran> {
    if items == [] then Some(s) else
    var s1 := Run(items[0], fp, s);
    if s1.None? then None else RunAll(items[1..], fp, s1.value)
  }

  // ---------------------------------------------------------------------------------------------
  // Selection
  // ---------------------------------------------------------------------------------------------

  /** There is a rule: none stores an address through a pointer in a register. */
  predicate SelectableItem(i: Item) {
    match i
    case Compute(t) => Selectable(t)
    case Locate(_) => true
    case Store(from, to) => SelectablePlace(to) && SelectableSource(from) && (from.AddressOf? ==> !to.At?)
  }

  predicate SelectableSource(f: Source) {
    match f
    case Computed(t) => t.Imm? || Selectable(t)
    case AddressOf(p) => SelectablePlace(p) && !p.At?
  }

  predicate AllSelectable(items: seq<Item>) { forall k :: 0 <= k < |items| ==> SelectableItem(items[k]) }

  function NeedSource(f: Source): nat {
    match f
    case Computed(t) => Need(t)
    case AddressOf(p) => NeedPlace(p)
  }

  function NeedItem(i: Item): nat {
    match i
    case Compute(t) => Need(t)
    case Locate(_) => 0
    case Store(from, to) => NeedSource(from) + NeedPlace(to) + 2
  }

  function NeedAll(items: seq<Item>): nat { if items == [] then 0 else NeedItem(items[0]) + NeedAll(items[1..]) }

  function StoreMem(r: Reg, place: Operand): Instr { Instr(SD, [RegOp(r), place]) }

  function SelectSource(f: Source, next: nat, done: map<nat, Reg>): (o: Out)
    requires SelectableSource(f) && next + NeedSource(f) <= LIMIT
    ensures (o.place.MemOp? <==> f.AddressOf?) && next <= o.next <= next + NeedSource(f)
  {
    match f
    case Computed(t) => if t.Imm? then Out([], ImmOp(t.n), next, done) else SelectReg(t, next, done)
    case AddressOf(p) => SelectPlace(p, next, done)
  }

  /** The handlers of a store: numbers and addresses go to a new register first. */
  function StoreFrom(f: Source, from: Operand, to: Operand, d: Reg, temp: Reg): seq<Instr>
    requires from.MemOp? <==> f.AddressOf?
  {
    match from
    case RegOp(r) => [StoreMem(r, to)]
    case ImmOp(n) => [LoadImm(d, n), StoreMem(d, to)]
    case MemOp(_, _) => AddressTo(f.place, d, from, temp) + [StoreMem(d, to)]
  }

  /** How many registers that takes. */
  function Taken(f: Source, from: Operand): nat
    requires from.MemOp? <==> f.AddressOf?
  {
    match from
    case RegOp(_) => 0
    case ImmOp(_) => 1
    case MemOp(_, _) => 1 + Temps(f.place, from)
  }

  function WithStore(f: Source, os: Out, ot: Out): Out
    requires (os.place.MemOp? <==> f.AddressOf?) && ot.next + 2 <= LIMIT
  {
    Out(os.code + ot.code + StoreFrom(f, os.place, MemOf(ot.place), Virt(ot.next), Virt(ot.next + 1)), ot.place,
        ot.next + Taken(f, os.place), ot.done)
  }

  function SelectItem(i: Item, next: nat, done: map<nat, Reg>): (o: Out)
    requires SelectableItem(i) && next + NeedItem(i) <= LIMIT
    ensures next <= o.next <= next + NeedItem(i)
  {
    match i
    case Compute(t) => SelectReg(t, next, done)
    case Locate(_) => Out([], ImmOp(0), next, done)
    case Store(from, to) =>
      var os := SelectSource(from, next, done);
      var ot := SelectPlace(to, os.next, os.done);
      WithStore(from, os, ot)
  }

  /** One instruction after another, as `buildAsmFunction` goes through them. */
  function SelectAll(items: seq<Item>, next: nat, done: map<nat, Reg>): Out
    requires AllSelectable(items) && next + NeedAll(items) <= LIMIT
  {
    if items == [] then Out([], ImmOp(0), next, done) else
    var o1 := SelectItem(items[0], next, done);
    var o2 := SelectAll(items[1..], o1.next, o1.done);
    Out(o1.code + o2.code, o2.place, o2.next, o2.done)
  }

  // ---------------------------------------------------------------------------------------------
  // Which lists
  // ---------------------------------------------------------------------------------------------

  predicate Known(t: Tree, known: set<nat>) { t.Imm? || t.id in known }

  predicate KnownPlace(p: Place, known: set<nat>) {
    match p
    case Object(_) => true
    case At(t) => Known(t, known)
    case Element(b, i, _) => KnownPlace(b, known) && Known(i, known)
  }

  predicate KidsKnown(t: Tree, known: set<nat>) {
    match t
    case Imm(_) => true
    case Load(_, p) => KnownPlace(p, known)
    case Binary(_, _, l, r) => Known(l, known) && Known(r, known)
  }

  predicate KnownSource(f: Source, known: set<nat>) {
    match f
    case Computed(t) => Known(t, known)
    case AddressOf(p) => KnownPlace(p, known)
  }

  /** Operands come before the instruction, and an instruction comes once. */
  predicate InOrder(i: Item, known: set<nat>) {
    match i
    case Compute(t) => KidsKnown(t, known) && (t.Imm? || t.id !in known)
    case Locate(_) => true
    case Store(from, to) =>
      KnownSource(from, known) && KnownPlace(to, known)
  }

  function Adds(i: Item): set<nat> { if i.Compute? && !i.tree.Imm? then {i.tree.id} else {} }

  predicate AllInOrder(items: seq<Item>, known: set<nat>) {
    items == [] || (InOrder(items[0], known) && AllInOrder(items[1..], known + Adds(items[0])))
  }

  predicate ConsistentSource(f: Source, trees: map<nat, Tree>) {
    match f
    case Computed(t) => Consistent(t, trees)
    case AddressOf(p) => ConsistentPlace(p, trees)
  }

  predicate ConsistentItem(i: Item, trees: map<nat, Tree>) {
    match i
    case Compute(t) => Consistent(t, trees)
    case Locate(_) => true
    case Store(from, to) =>
      ConsistentSource(from, trees) && ConsistentPlace(to, trees)
  }

  predicate AllConsistent(items: seq<Item>, trees: map<nat, Tree>) {
    forall k :: 0 <= k < |items| ==> ConsistentItem(items[k], trees)
  }

  predicate Numbered(trees: map<nat, Tree>) { forall id :: id in trees ==> !trees[id].Imm? && trees[id].id == id }

  // ---------------------------------------------------------------------------------------------
  // Values in registers
  // ---------------------------------------------------------------------------------------------

  /** Every instruction that has run has its value in its register, whatever has been stored since. */
  ghost predicate InRegisters(vals: Values, done: map<nat, Reg>, next: nat, m: Machine) {
    && done.Keys == vals.Keys
    && forall id :: id in done ==> Earlier(done[id], next) && done[id] in m.regs && m.regs[done[id]] == vals[id]
  }

  ghost predicate KeptRegs(m: Machine, m': Machine, next: nat) {
    forall r :: r in m.regs && Earlier(r, next) ==> r in m'.regs && m'.regs[r] == m.regs[r]
  }

  /** The code of `o`, from `m`, comes to memory and values as in `s`. */
  ghost predicate Follows(fr: Frame, m: Machine, next: nat, o: Out, s: Ran) {
    ExecAll(fr, o.code, m).Some? && FollowsTo(m, ExecAll(fr, o.code, m).value, next, o, s)
  }

  ghost predicate FollowsTo(m: Machine, m': Machine, next: nat, o: Out, s: Ran) {
    m'.mem == s.mem && InRegisters(s.vals, o.done, o.next, m') && KeptRegs(m, m', next) && next <= o.next
  }

  lemma RecordedDone(fr: Frame, trees: map<nat, Tree>, vals: Values, done: map<nat, Reg>, next: nat, m: Machine)
    requires InRegisters(vals, done, next, m) && Numbered(trees) && vals.Keys <= trees.Keys
    ensures DoneOk(fr, Nodes(trees, vals), done, next, m)
  {
  }

  lemma KeptInRegisters(vals: Values, done: map<nat, Reg>, next: nat, next': nat, m: Machine, m': Machine)
    requires InRegisters(vals, done, next, m) && KeptRegs(m, m', next) && next <= next'
    ensures InRegisters(vals, done, next', m')
  {
  }

  lemma {:induction false} PlaceAddsNothing(p: Place, next: nat, done: map<nat, Reg>)
    requires SelectablePlace(p) && next + NeedPlace(p) <= LIMIT && KnownPlace(p, done.Keys)
    ensures SelectPlace(p, next, done).done == done
  {
    if p.Element? {
      PlaceAddsNothing(p.base, next, done);
    }
  }

  lemma TreeAddsItself(t: Tree, next: nat, done: map<nat, Reg>)
    requires Selectable(t) && next + Need(t) <= LIMIT && KidsKnown(t, done.Keys) && t.id !in done
    ensures SelectReg(t, next, done).done == done[t.id := SelectReg(t, next, done).place.reg]
  {
    if t.Load? {
      PlaceAddsNothing(t.place, next, done);
    }
  }

  // ---------------------------------------------------------------------------------------------
  // One instruction
  // ---------------------------------------------------------------------------------------------

  lemma ComputeFollows(fr: Frame, trees: map<nat, Tree>, t: Tree, s: Ran, next: nat, done: map<nat, Reg>, m: Machine)
    requires Selectable(t) && next + Need(t) <= LIMIT && Consistent(t, trees) && InOrder(Compute(t), done.Keys)
    requires HasFrame(fr, m) && InRegisters(s.vals, done, next, m) && Numbered(trees) && s.vals.Keys <= trees.Keys
    requires m.mem == s.mem && Run(Compute(t), fr.fp, s).Some?
    ensures Follows(fr, m, next, SelectReg(t, next, done), Run(Compute(t), fr.fp, s).value)
  {
    var o, v := SelectReg(t, next, done), Value(t, fr.fp, s.vals, s.mem).value;
    RecordedDone(fr, trees, s.vals, done, next, m);
    TreeSelected(fr, Nodes(trees, s.vals), t, next, done, m);
    TreeAddsItself(t, next, done);
    ValueNoted(fr, s.vals, t.id, v, next, done, m, o);
  }

  lemma ValueNoted(fr: Frame, vals: Values, id: nat, v: int, next: nat, done: map<nat, Reg>, m: Machine, o: Out)
    requires InRegisters(vals, done, next, m) && ExecAll(fr, o.code, m).Some? && next <= o.next && o.place.RegOp?
    requires Kept(m, ExecAll(fr, o.code, m).value, next) && ReadOp(fr, ExecAll(fr, o.code, m).value, o.place) == Some(v)
    requires Earlier(o.place.reg, o.next) && o.done == done[id := o.place.reg]
    ensures Follows(fr, m, next, o, Ran(vals[id := v], m.mem))
  {
    KeptInRegisters(vals, done, next, o.next, m, ExecAll(fr, o.code, m).value);
  }

  lemma SourceSelected(fr: Frame, nodes: Nodes, f: Source, next: nat, done: map<nat, Reg>, m: Machine)
    requires SelectableSource(f) && next + NeedSource(f) <= LIMIT && ConsistentSource(f, nodes.trees)
    requires HasFrame(fr, m) && DoneOk(fr, nodes, done, next, m) && SourceValue(f, fr.fp, Ran(nodes.vals, m.mem)).Some?
    ensures Selected(fr, nodes, m, next, SelectSource(f, next, done), SourceValue(f, fr.fp, Ran(nodes.vals, m.mem)).value)
  {
    match f
    case Computed(t) =>
      if t.Imm? {
        NothingSelected(fr, nodes, m, next, done, ImmOp(t.n), t.n);
      } else {
        TreeSelected(fr, nodes, t, next, done, m);
      }
    case AddressOf(p) =>
      PlaceSelected(fr, nodes, p, next, done, m);
  }

  lemma SourceAddsNothing(f: Source, next: nat, done: map<nat, Reg>)
    requires SelectableSource(f) && next + NeedSource(f) <= LIMIT && KnownSource(f, done.Keys)
    ensures SelectSource(f, next, done).done == done
  {
    if f.AddressOf? {
      PlaceAddsNothing(f.place, next, done);
    }
  }

  /** An operand over registers in use, and what it reads as. */
  ghost predicate AtHand(fr: Frame, m: Machine, next: nat, o: Operand, v: int) {
    ReadOp(fr, m, o) == Some(v) && Earlier(RegIn(o), next)
  }

  /** The store itself, with value and address at hand. */
  lemma StoreRuns(fr: Frame, f: Source, from: Operand, to: Operand, next: nat, m: Machine, v: int, a: int) returns (m': Machine)
    requires (from.MemOp? <==> f.AddressOf?) && to.MemOp? && next + 2 <= LIMIT && a in m.mem
    requires AtHand(fr, m, next, from, v) && AtHand(fr, m, next, to, a)
    ensures ExecAll(fr, StoreFrom(f, from, to, Virt(next), Virt(next + 1)), m) == Some(m')
    ensures m'.mem == m.mem[a := v] && KeptRegs(m, m', next)
  {
    var d, temp := Virt(next), Virt(next + 1);
    VirtIsNew(next, next);
    match from
    case RegOp(r) =>
      m' := m.(mem := m.mem[a := v]);
      ExecOne(fr, StoreMem(r, to), m);
    case ImmOp(n) =>
      var m1 := WithValue(m, d, n);
      m' := m1.(mem := m.mem[a := v]);
      ExecTwo(fr, LoadImm(d, n), StoreMem(d, to), m);
    case MemOp(_, _) =>
      var m1 := AddressRuns(fr, f.place, d, from, temp, m, v, next);
      m' := m1.(mem := m.mem[a := v]);
      ExecConcat(fr, AddressTo(f.place, d, from, temp), [StoreMem(d, to)], m);
      ExecOne(fr, StoreMem(d, to), m1);
  }

  /** Value and address of a store, selected one after the other. */
  lemma OperandsSelected(fr: Frame, nodes: Nodes, f: Source, to: Place, next: nat, done: map<nat, Reg>, m: Machine, os: Out,
                         ot: Out, v: int, a: int)
    requires SelectableItem(Store(f, to)) && next + NeedItem(Store(f, to)) <= LIMIT
    requires ConsistentItem(Store(f, to), nodes.trees) && HasFrame(fr, m) && DoneOk(fr, nodes, done, next, m)
    requires SourceValue(f, fr.fp, Ran(nodes.vals, m.mem)) == Some(v) && Address(to, fr.fp, nodes.vals, m.mem) == Some(a)
    requires os == SelectSource(f, next, done) && ot == SelectPlace(to, os.next, os.done)
    ensures ExecAll(fr, os.code + ot.code, m).Some?
    ensures var m2 := ExecAll(fr, os.code + ot.code, m).value;
            Kept(m, m2, next) && AtHand(fr, m2, ot.next, os.place, v) && AtHand(fr, m2, ot.next, MemOf(ot.place), a)
  {
    SourceSelected(fr, nodes, f, next, done, m);
    KeptFrame(fr, nodes, m, next, os, v);
    var m1 := ExecAll(fr, os.code, m).value;
    PlaceSelected(fr, nodes, to, os.next, os.done, m1);
    var b := PlaceReads(to, fr.fp, nodes.vals, m.mem).value;
    BothSelected(fr, nodes, m, next, os, v, ot, b);
    AddressFromRead(to, fr.fp, nodes.vals, m.mem);
    PlaceIsRead(fr, to, ot.place, ExecAll(fr, os.code + ot.code, m).value, b);
  }

  /** A pointer in a register is used as the address it stands for. */
  lemma PlaceIsRead(fr: Frame, p: Place, place: Operand, m: Machine, b: int)
    requires (if p.At? then place.RegOp? else place.MemOp?) && ReadOp(fr, m, place) == Some(b)
    ensures ReadOp(fr, m, MemOf(place)) == Some(Wrap(b))
  {
  }

  lemma StoreFollows(fr: Frame, trees: map<nat, Tree>, f: Source, to: Place, s: Ran, next: nat, done: map<nat, Reg>, m: Machine)
    requires SelectableItem(Store(f, to)) && next + NeedItem(Store(f, to)) <= LIMIT
    requires ConsistentItem(Store(f, to), trees) && InOrder(Store(f, to), done.Keys)
    requires HasFrame(fr, m) && InRegisters(s.vals, done, next, m) && Numbered(trees) && s.vals.Keys <= trees.Keys
    requires m.mem == s.mem && Run(Store(f, to), fr.fp, s).Some?
    ensures Follows(fr, m, next, SelectItem(Store(f, to), next, done), Run(Store(f, to), fr.fp, s).value)
  {
    var v, a := SourceValue(f, fr.fp, s).value, Address(to, fr.fp, s.vals, s.mem).value;
    RecordedDone(fr, trees, s.vals, done, next, m);
    var os := SelectSource(f, next, done);
    SourceAddsNothing(f, next, done);
    var ot := SelectPlace(to, os.next, os.done);
    PlaceAddsNothing(to, os.next, os.done);
    OperandsSelected(fr, Nodes(trees, s.vals), f, to, next, done, m, os, ot, v, a);
    StoreEnds(fr, f, s.vals, next, done, m, ExecAll(fr, os.code + ot.code, m).value, os, ot, v, a);
  }

  lemma StoreEnds(fr: Frame, f: Source, vals: Values, next: nat, done: map<nat, Reg>, m: Machine, m2: Machine, os: Out, ot: Out,
                  v: int, a: int)
    requires (os.place.MemOp? <==> f.AddressOf?) && next <= ot.next && ot.next + 2 <= LIMIT && ot.done == done
    requires InRegisters(vals, done, next, m) && ExecAll(fr, os.code + ot.code, m) == Some(m2) && Kept(m, m2, next) && a in m.mem
    requires AtHand(fr, m2, ot.next, os.place, v) && AtHand(fr, m2, ot.next, MemOf(ot.place), a) && !ot.place.ImmOp?
    ensures Follows(fr, m, next, WithStore(f, os, ot), Ran(vals, m.mem[a := v]))
  {
    var c := StoreFrom(f, os.place, MemOf(ot.place), Virt(ot.next), Virt(ot.next + 1));
    var o := WithStore(f, os, ot);
    assert o.code == (os.code + ot.code) + c && o.done == done && ot.next <= o.next;
    StoreStep(fr, f, vals, next, done, m, m2, os.code + ot.code, os.place, MemOf(ot.place), ot.next, c, o, v, a);
  }

  lemma StoreStep(fr: Frame, f: Source, vals: Values, next: nat, done: map<nat, Reg>, m: Machine, m2: Machine, front: seq<Instr>,
                  from: Operand, to: Operand, next2: nat, c: seq<Instr>, o: Out, v: int, a: int)
    requires (from.MemOp? <==> f.AddressOf?) && to.MemOp? && next <= next2 <= o.next && next2 + 2 <= LIMIT
    requires c == StoreFrom(f, from, to, Virt(next2), Virt(next2 + 1)) && o.code == front + c && o.done == done
    requires InRegisters(vals, done, next, m) && ExecAll(fr, front, m) == Some(m2) && Kept(m, m2, next) && a in m.mem
    requires AtHand(fr, m2, next2, from, v) && AtHand(fr, m2, next2, to, a)
    ensures Follows(fr, m, next, o, Ran(vals, m.mem[a := v]))
  {
    var m3 := StoreRuns(fr, f, from, to, next2, m2, v, a);
    StoredTo(fr, front, c, m, m2, m3, vals, done, next, next2, o, v, a);
  }

  lemma StoredTo(fr: Frame, front: seq<Instr>, c: seq<Instr>, m: Machine, m2: Machine, m3: Machine, vals: Values,
                 done: map<nat, Reg>, next: nat, next2: nat, o: Out, v: int, a: int)
    requires InRegisters(vals, done, next, m) && Kept(m, m2, next) && next <= next2 <= o.next && o.done == done
    requires ExecAll(fr, front, m) == Some(m2) && ExecAll(fr, c, m2) == Some(m3) && o.code == front + c
    requires m3.mem == m2.mem[a := v] && KeptRegs(m2, m3, next2)
    ensures Follows(fr, m, next, o, Ran(vals, m.mem[a := v]))
  {
    ExecConcat(fr, front, c, m);
    KeptInRegisters(vals, done, next, o.next, m, m3);
  }

  lemma ItemFollows(fr: Frame, trees: map<nat, Tree>, i: Item, s: Ran, next: nat, done: map<nat, Reg>, m: Machine)
    requires SelectableItem(i) && next + NeedItem(i) <= LIMIT && ConsistentItem(i, trees) && InOrder(i, done.Keys)
    requires HasFrame(fr, m) && InRegisters(s.vals, done, next, m) && Numbered(trees) && s.vals.Keys <= trees.Keys
    requires m.mem == s.mem && Run(i, fr.fp, s).Some?
    ensures Follows(fr, m, next, SelectItem(i, next, done), Run(i, fr.fp, s).value)
  {
    match i
    case Compute(t) => ComputeFollows(fr, trees, t, s, next, done, m);
    case Locate(_) =>
    case Store(f, to) => StoreFollows(fr, trees, f, to, s, next, done, m);
  }

  lemma AddsRight(i: Item, fp: int, s: Ran, next: nat, done: map<nat, Reg>, o: Out, m1: Machine)
    requires Run(i, fp, s).Some? && done.Keys == s.vals.Keys && InRegisters(Run(i, fp, s).value.vals, o.done, o.next, m1)
    ensures o.done.Keys == done.Keys + Adds(i)
  {
  }

  // ---------------------------------------------------------------------------------------------
  // The whole list
  // ---------------------------------------------------------------------------------------------

  /** For every list in order, with whatever has run before: the selected code does to memory what the list does, and
      leaves the value of every instruction in its register, loads from places since overwritten included. */
  lemma {:induction false} ListFollows(fr: Frame, trees: map<nat, Tree>, items: seq<Item>, s: Ran, next: nat, done: map<nat, Reg>,
                                       m: Machine)
    requires AllSelectable(items) && next + NeedAll(items) <= LIMIT && AllConsistent(items, trees) && AllInOrder(items, done.Keys)
    requires HasFrame(fr, m) && InRegisters(s.vals, done, next, m) && Numbered(trees) && s.vals.Keys <= trees.Keys
    requires m.mem == s.mem && RunAll(items, fr.fp, s).Some?
    ensures Follows(fr, m, next, SelectAll(items, next, done), RunAll(items, fr.fp, s).value)
    decreases items
  {
    if items != [] {
      var i, rest := items[0], items[1..];
      assert SelectableItem(i) && ConsistentItem(i, trees);
      ItemFollows(fr, trees, i, s, next, done, m);
      var o, s1 := SelectItem(i, next, done), Run(i, fr.fp, s).value;
      var m1 := ExecAll(fr, o.code, m).value;
      AddsRight(i, fr.fp, s, next, done, o, m1);
      assert Earlier(FP, next);
      ListFollows(fr, trees, rest, s1, o.next, o.done, m1);
      ExecConcat(fr, o.code, SelectAll(rest, o.next, o.done).code, m);
    }
  }
}
