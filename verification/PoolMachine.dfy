/** The lock protocol of the guarded pool allocator (src/runtime/aphotic_shield/guarded_pool_allocator.cpp)
    as a machine whose threads take turns: one step for every critical section and for every piece of
    code between two of them. */
module PoolMachine {
  import opened Bits
  import opened Options
  import opened PoolGeometry
  import opened FiniteSets

  type Word = x: nat | x < WORDS

  datatype Error = UNKNOWN | USE_AFTER_FREE | DOUBLE_FREE | INVALID_FREE | BUFFER_OVERFLOW | BUFFER_UNDERFLOW

  datatype Failure = Failure(error: Error, address: nat)

  /** AllocationMetadata: the address is 0 until the slot is first allocated. */
  datatype Meta = Meta(addr: nat, size: nat, isDeallocated: bool)

  /** Where a thread is in `allocate` or `deallocate`. */
  datatype Pc =
    | Idle
    | Reserved(slot: nat, size: nat, alignment: nat)
    | Opened(slot: nat, ptr: nat, size: nat)
    | Checked(slot: nat, ptr: nat)
    | Marked(slot: nat)
    | Unmapped(slot: nat)

  /** `open` holds the start addresses of the accessible pages. */
  datatype State = State(numAllocations: nat, free: seq<nat>, meta: seq<Meta>, open: set<nat>, pc: map<nat, Pc>,
                         trap: Option<Failure>)

  function Initial(c: Config): State {
    State(0, [], seq(c.slots, _ => Meta(0, 0, false)), {}, map[], None)
  }

  function PcOf(st: State, t: nat): Pc { if t in st.pc then st.pc[t] else Idle }

  function At(st: State, t: nat, pc: Pc): State { st.(pc := if pc.Idle? then st.pc - {t} else st.pc[t := pc]) }

  // ---------------------------------------------------------------------------------------------
  // Steps
  // ---------------------------------------------------------------------------------------------

  datatype Step =
    | Reserve(t: nat, size: Word, alignment: Word, pick: nat)
    | OpenPage(t: nat, left: bool)
    | Record(t: nat)
    | Check(t: nat, ptr: nat)
    | Mark(t: nat)
    | Unmap(t: nat)
    | Release(t: nat)

  const MAX_ALIGN: Word := 16

  function EffectiveSize(size: Word): (s: Word)
    ensures s > 0
  {
    if size == 0 then 1 else size
  }

  function EffectiveAlignment(alignment: Word): Word { if alignment == 0 then MAX_ALIGN else alignment }

  /** Requests that `allocate` turns down before it looks at the slots. */
  predicate Acceptable(c: Config, size: Word, alignment: Word) {
    && IsPowerOfTwo(EffectiveAlignment(alignment)) && EffectiveAlignment(alignment) <= c.pageSize
    && EffectiveSize(size) <= MaximumAllocationSize(c)
  }

  /** `reserveSlot`: fresh slots first, then a random one of the free list, whose place the last takes. */
  function ReserveSlot(c: Config, st: State, pick: nat): (State, Option<nat>) {
    if st.numAllocations < c.slots then
      (st.(numAllocations := st.numAllocations + 1), Some(st.numAllocations))
    else if st.free == [] then
      (st, None)
    else
      var k, last := pick % |st.free|, |st.free| - 1;
      (st.(free := st.free[k := st.free[last]][..last]), Some(st.free[k]))
  }

  function FreeSlot(st: State, slot: nat): State { st.(free := st.free + [slot]) }

  /** The pages of a range that begins on a page. */
  function PagesOf(start: nat, bytes: nat, pageSize: nat): set<nat>
    requires pageSize > 0
    decreases bytes
  {
    if bytes < pageSize then {} else {start} + PagesOf(start + pageSize, bytes - pageSize, pageSize)
  }

  predicate Enabled(c: Config, st: State, step: Step) {
    && st.trap.None?
    && match step
       case Reserve(t, _, _, _) => PcOf(st, t).Idle?
       case OpenPage(t, _) => PcOf(st, t).Reserved?
       case Record(t) => PcOf(st, t).Opened?
       case Check(t, ptr) => PcOf(st, t).Idle? && PointerIsMine(c, ptr)
       case Mark(t) => PcOf(st, t).Checked?
       case Unmap(t) => PcOf(st, t).Marked?
       case Release(t) => PcOf(st, t).Unmapped?
  }

  ghost predicate PcInRange(c: Config, pc: Pc) {
    match pc
    case Idle => true
    case Reserved(s, size, alignment) =>
      s < c.slots && 1 <= size <= c.pageSize && IsPow2(alignment) && alignment <= c.pageSize
    case Opened(s, _, _) => s < c.slots
    case Checked(s, _) => s < c.slots
    case Marked(s) => s < c.slots
    case Unmapped(s) => s < c.slots
  }

  /** Sizes and indices are in range, so that every enabled step can be taken. */
  ghost predicate InRange(c: Config, st: State) {
    && ConfigOk(c) && |st.meta| == c.slots && st.numAllocations <= c.slots
    && (forall k :: 0 <= k < |st.free| ==> st.free[k] < st.numAllocations)
    && (forall t {:trigger PcOf(st, t)} :: PcInRange(c, PcOf(st, t)))
  }

  ghost function Apply(c: Config, st: State, step: Step): State
    requires InRange(c, st) && Enabled(c, st, step)
  {
    match step
    case Reserve(t, size, alignment, pick) =>
      if !Acceptable(c, size, alignment) then st else
      var (st', slot) := ReserveSlot(c, st, pick);
      if slot.None? then st' else At(st', t, Reserved(slot.value, EffectiveSize(size), EffectiveAlignment(alignment)))
    case OpenPage(t, left) =>
      var pc := PcOf(st, t);
      assert PcInRange(c, pc);
      var ptr := Place(c, pc.slot, pc.size, pc.alignment, left);
      PagesFit(c, pc.slot);
      At(st.(open := st.open + PagesOf(GetPageAddr(ptr, c.pageSize), RoundUpTo(pc.size, c.pageSize), c.pageSize)),
         t, Opened(pc.slot, ptr, pc.size))
    case Record(t) =>
      var pc := PcOf(st, t);
      assert PcInRange(c, pc);
      At(st.(meta := st.meta[pc.slot := Meta(pc.ptr, pc.size, false)]), t, Idle)
    case Check(t, ptr) =>
      GuardPagesAreTheRest(c, ptr);
      var slot := NearestSlot(c, ptr);
      if st.meta[slot].addr != ptr then st.(trap := Some(Failure(INVALID_FREE, ptr)))
      else At(st, t, Checked(slot, ptr))
    case Mark(t) =>
      var pc := PcOf(st, t);
      assert PcInRange(c, pc);
      if st.meta[pc.slot].isDeallocated then st.(trap := Some(Failure(DOUBLE_FREE, pc.ptr)))
      else At(st.(meta := st.meta[pc.slot := st.meta[pc.slot].(isDeallocated := true)]), t, Marked(pc.slot))
    case Unmap(t) =>
      var pc := PcOf(st, t);
      assert PcInRange(c, pc);
      At(st.(open := st.open - PagesOf(SlotToAddr(c, pc.slot), MaximumAllocationSize(c), c.pageSize)), t, Unmapped(pc.slot))
    case Release(t) =>
      At(FreeSlot(st, PcOf(st, t).slot), t, Idle)
  }

  // ---------------------------------------------------------------------------------------------
  // The invariant
  // ---------------------------------------------------------------------------------------------

  predicate Live(m: Meta) { m.addr != 0 && !m.isDeallocated }

  /** The slot that a thread has taken off the free list or out of use. */
  function HeldSlot(pc: Pc): Option<nat> {
    match pc
    case Reserved(s, _, _) => Some(s)
    case Opened(s, _, _) => Some(s)
    case Marked(s) => Some(s)
    case Unmapped(s) => Some(s)
    case _ => None
  }

  predicate Holds(st: State, t: nat, s: nat) { HeldSlot(PcOf(st, t)) == Some(s) }

  predicate Allocating(st: State, t: nat, s: nat) { Holds(st, t, s) && (PcOf(st, t).Reserved? || PcOf(st, t).Opened?) }

  predicate Freeing(st: State, t: nat, s: nat) { Holds(st, t, s) && (PcOf(st, t).Marked? || PcOf(st, t).Unmapped?) }

  predicate HasOpenPage(pc: Pc) { pc.Opened? || pc.Marked? }

  predicate BlockOn(c: Config, addr: nat, size: nat, s: nat) {
    OnSlot(c, addr, s) && addr + size <= SlotToAddr(c, s) + c.pageSize
  }

  ghost predicate SlotOk(c: Config, st: State, s: nat)
    requires s < |st.meta|
  {
    var m := st.meta[s];
    && (m.addr != 0 ==> BlockOn(c, m.addr, m.size, s))
    && (s >= st.numAllocations ==> m.addr == 0)
    && (s in st.free ==> !Live(m))
    && (Live(m) ==> SlotToAddr(c, s) in st.open)
    && (s < st.numAllocations && s !in st.free && !Live(m) ==> exists t :: Holds(st, t, s))
    && (SlotToAddr(c, s) in st.open && !Live(m) ==> exists t :: Holds(st, t, s) && HasOpenPage(PcOf(st, t)))
  }

  ghost predicate ThreadOk(c: Config, st: State, t: nat)
    requires |st.meta| == c.slots && PcInRange(c, PcOf(st, t))
  {
    var pc := PcOf(st, t);
    && (pc.Checked? ==> st.meta[pc.slot].addr != 0)
    && (pc.Opened? ==> BlockOn(c, pc.ptr, pc.size, pc.slot) && pc.ptr > 0)
    && (HeldSlot(pc).Some? ==>
          && pc.slot < st.numAllocations && pc.slot !in st.free && !Live(st.meta[pc.slot])
          && (SlotToAddr(c, pc.slot) in st.open <==> HasOpenPage(pc)))
    && (pc.Marked? || pc.Unmapped? ==> st.meta[pc.slot].addr != 0)
  }

  ghost predicate OneHolder(st: State) {
    forall t, u, s :: Holds(st, t, s) && Holds(st, u, s) ==> t == u
  }

  predicate Distinct(free: seq<nat>) { forall j, k :: 0 <= j < k < |free| ==> free[j] != free[k] }

  ghost predicate OnlySlotsOpen(c: Config, open: set<nat>) {
    forall a :: a in open ==> exists s :: 0 <= s < c.slots && SlotToAddr(c, s) == a
  }

  ghost predicate Inv(c: Config, st: State) {
    && InRange(c, st) && Distinct(st.free) && OneHolder(st) && OnlySlotsOpen(c, st.open)
    && (forall s {:trigger SlotOk(c, st, s)} :: 0 <= s < c.slots ==> SlotOk(c, st, s))
    && (forall t {:trigger ThreadOk(c, st, t)} :: ThreadOk(c, st, t))
  }

  lemma InitialInv(c: Config)
    requires ConfigOk(c)
    ensures Inv(c, Initial(c))
  {
  }

  // ---------------------------------------------------------------------------------------------
  // Steps touch one slot and one thread
  // ---------------------------------------------------------------------------------------------

  ghost predicate SlotKept(c: Config, st: State, st': State, s: nat)
    requires s < |st.meta| == |st'.meta|
  {
    && st'.meta[s] == st.meta[s] && (s in st'.free <==> s in st.free)
    && (s < st'.numAllocations <==> s < st.numAllocations)
    && (SlotToAddr(c, s) in st'.open <==> SlotToAddr(c, s) in st.open)
  }

  /** Nothing but slot `s0` and thread `t` changes, and `t` holds no other slot before or after. */
  ghost predicate OnlyAt(c: Config, st: State, st': State, t: nat, s0: nat) {
    && s0 < c.slots && |st.meta| == |st'.meta| == c.slots
    && (forall s {:trigger SlotKept(c, st, st', s)} :: 0 <= s < c.slots && s != s0 ==> SlotKept(c, st, st', s))
    && (forall u :: u != t ==> PcOf(st', u) == PcOf(st, u))
    && HeldSlot(PcOf(st, t)) in {None, Some(s0)} && HeldSlot(PcOf(st', t)) in {None, Some(s0)}
    && (st.meta[s0].addr != 0 ==> st'.meta[s0].addr != 0)
    && ((SlotKept(c, st, st', s0) && HeldSlot(PcOf(st', t)).None?) || Unheld(st, t, s0))
  }

  ghost predicate Unheld(st: State, t: nat, s: nat) { forall u :: u != t ==> !Holds(st, u, s) }

  lemma OthersKept(c: Config, st: State, st': State, t: nat, s0: nat)
    requires Inv(c, st) && OnlyAt(c, st, st', t, s0)
    ensures forall s {:trigger SlotOk(c, st', s)} :: 0 <= s < c.slots && s != s0 ==> SlotOk(c, st', s)
    ensures OneHolder(st')
  {
    forall s | 0 <= s < c.slots && s != s0 ensures SlotOk(c, st', s) {
      SlotStays(c, st, st', t, s0, s);
    }
    forall u, v, s | Holds(st', u, s) && Holds(st', v, s) ensures u == v {
      assert u != t ==> Holds(st, u, s);
      assert v != t ==> Holds(st, v, s);
    }
  }

  lemma SlotStays(c: Config, st: State, st': State, t: nat, s0: nat, s: nat)
    requires Inv(c, st) && OnlyAt(c, st, st', t, s0) && s < c.slots && s != s0
    ensures SlotOk(c, st', s)
  {
    assert SlotOk(c, st, s) && SlotKept(c, st, st', s);
    if s < st.numAllocations && s !in st.free && !Live(st.meta[s]) {
      var u :| Holds(st, u, s);
      assert Holds(st', u, s);
    }
    if SlotToAddr(c, s) in st.open && !Live(st.meta[s]) {
      var u :| Holds(st, u, s) && HasOpenPage(PcOf(st, u));
      assert Holds(st', u, s) && HasOpenPage(PcOf(st', u));
    }
  }

  lemma ThreadStays(c: Config, st: State, st': State, t: nat, s0: nat, u: nat)
    requires Inv(c, st) && OnlyAt(c, st, st', t, s0) && u != t
    ensures PcInRange(c, PcOf(st', u)) && ThreadOk(c, st', u)
  {
    assert PcInRange(c, PcOf(st, u)) && ThreadOk(c, st, u);
    var pc := PcOf(st, u);
    if HeldSlot(pc).Some? {
      assert Holds(st, u, pc.slot);
      assert SlotKept(c, st, st', pc.slot);
    } else if pc.Checked? && pc.slot != s0 {
      assert SlotKept(c, st, st', pc.slot);
    }
  }

  /** The invariant after a step, from what the step does to its slot and its thread. */
  lemma InvFromParts(c: Config, st: State, st': State, t: nat, s0: nat)
    requires Inv(c, st) && OnlyAt(c, st, st', t, s0)
    requires st'.numAllocations <= c.slots && (forall k :: 0 <= k < |st'.free| ==> st'.free[k] < st'.numAllocations)
    requires Distinct(st'.free) && OnlySlotsOpen(c, st'.open)
    requires PcInRange(c, PcOf(st', t)) && ThreadOk(c, st', t) && SlotOk(c, st', s0)
    ensures Inv(c, st')
  {
    OthersKept(c, st, st', t, s0);
    forall u: nat ensures PcInRange(c, PcOf(st', u)) && ThreadOk(c, st', u) {
      if u != t {
        ThreadStays(c, st, st', t, s0, u);
      }
    }
  }

  // ---------------------------------------------------------------------------------------------
  // Every step keeps the invariant
  // ---------------------------------------------------------------------------------------------

  lemma SlotStartsDiffer(c: Config, s: nat, s': nat)
    requires ConfigOk(c) && s < c.slots && s' < c.slots && SlotToAddr(c, s) == SlotToAddr(c, s')
    ensures s == s'
  {
    AlignmentMask(0, c.pageSize);
    SlotsAreApart(c, s, s', SlotToAddr(c, s));
  }

  lemma StartsOfOthers(c: Config, s0: nat)
    requires ConfigOk(c) && s0 < c.slots
    ensures forall s :: 0 <= s < c.slots && s != s0 ==> SlotToAddr(c, s) != SlotToAddr(c, s0)
  {
    forall s | 0 <= s < c.slots && s != s0 ensures SlotToAddr(c, s) != SlotToAddr(c, s0) {
      if SlotToAddr(c, s) == SlotToAddr(c, s0) {
        SlotStartsDiffer(c, s, s0);
      }
    }
  }

  lemma OnePage(start: nat, pageSize: nat)
    requires pageSize > 0
    ensures PagesOf(start, pageSize, pageSize) == {start}
  {
    assert PagesOf(start + pageSize, 0, pageSize) == {};
  }

  /** A thread in the middle of an operation is the only one to hold its slot. */
  lemma HolderIsAlone(c: Config, st: State, t: nat)
    requires Inv(c, st) && HeldSlot(PcOf(st, t)).Some?
    ensures Unheld(st, t, PcOf(st, t).slot)
    ensures ThreadOk(c, st, t) && PcInRange(c, PcOf(st, t)) && SlotOk(c, st, PcOf(st, t).slot)
  {
    var s := PcOf(st, t).slot;
    assert PcInRange(c, PcOf(st, t)) && ThreadOk(c, st, t) && Holds(st, t, s) && SlotOk(c, st, s);
  }

  lemma FreshIsUnheld(c: Config, st: State, t: nat, s: nat)
    requires Inv(c, st) && (s >= st.numAllocations || s in st.free)
    ensures forall u :: !Holds(st, u, s)
  {
    forall u ensures !Holds(st, u, s) {
      assert PcInRange(c, PcOf(st, u)) && ThreadOk(c, st, u);
    }
  }

  lemma SwapRemoved(free: seq<nat>, k: nat)
    requires Distinct(free) && k < |free|
    ensures var free' := free[k := free[|free| - 1]][..|free| - 1];
            && Distinct(free') && free[k] !in free'
            && (forall s :: s != free[k] ==> (s in free' <==> s in free))
            && (forall j :: 0 <= j < |free'| ==> free'[j] in free)
  {
    var last := |free| - 1;
    var free' := free[k := free[last]][..last];
    forall s | s != free[k] ensures s in free' <==> s in free {
      if s in free {
        var j :| 0 <= j < |free| && free[j] == s;
        assert free'[if j == last then k else j] == s;
      }
    }
  }

  lemma ReserveInv(c: Config, st: State, t: nat, size: Word, alignment: Word, pick: nat)
    requires Inv(c, st) && Enabled(c, st, Reserve(t, size, alignment, pick))
    ensures Inv(c, Apply(c, st, Reserve(t, size, alignment, pick)))
  {
    var st' := Apply(c, st, Reserve(t, size, alignment, pick));
    if Acceptable(c, size, alignment) && ReserveSlot(c, st, pick).1.Some? {
      var s := ReserveSlot(c, st, pick).1.value;
      PowerOfTwoTest(EffectiveAlignment(alignment));
      if st.numAllocations == c.slots {
        SwapRemoved(st.free, pick % |st.free|);
      }
      FreshIsUnheld(c, st, t, s);
      assert SlotOk(c, st, s);
      assert Holds(st', t, s);
      forall s' | 0 <= s' < c.slots && s' != s ensures SlotKept(c, st, st', s') {
      }
      InvFromParts(c, st, st', t, s);
    }
  }

  lemma OpenPageInv(c: Config, st: State, t: nat, left: bool)
    requires Inv(c, st) && Enabled(c, st, OpenPage(t, left))
    ensures Inv(c, Apply(c, st, OpenPage(t, left)))
  {
    var pc := PcOf(st, t);
    var s := pc.slot;
    var st' := Apply(c, st, OpenPage(t, left));
    HolderIsAlone(c, st, t);
    PlacedInSlot(c, s, pc.size, pc.alignment, left);
    OnePage(SlotToAddr(c, s), c.pageSize);
    StartsOfOthers(c, s);
    PagesFit(c, s);
    assert Holds(st', t, s) && HasOpenPage(PcOf(st', t));
    forall s' | 0 <= s' < c.slots && s' != s ensures SlotKept(c, st, st', s') {
    }
    InvFromParts(c, st, st', t, s);
  }

  lemma RecordInv(c: Config, st: State, t: nat)
    requires Inv(c, st) && Enabled(c, st, Record(t))
    ensures Inv(c, Apply(c, st, Record(t)))
  {
    var s := PcOf(st, t).slot;
    var st' := Apply(c, st, Record(t));
    HolderIsAlone(c, st, t);
    forall s' | 0 <= s' < c.slots && s' != s ensures SlotKept(c, st, st', s') {
    }
    InvFromParts(c, st, st', t, s);
  }

  lemma CheckInv(c: Config, st: State, t: nat, ptr: nat)
    requires Inv(c, st) && Enabled(c, st, Check(t, ptr))
    ensures Inv(c, Apply(c, st, Check(t, ptr)))
  {
    var st' := Apply(c, st, Check(t, ptr));
    GuardPagesAreTheRest(c, ptr);
    var s := NearestSlot(c, ptr);
    if st.meta[s].addr == ptr {
      SlotAfterPcChange(c, st, st', t, s);
      forall s' | 0 <= s' < c.slots ensures SlotKept(c, st, st', s') {
      }
      InvFromParts(c, st, st', t, s);
    } else {
      TrapInv(c, st, st');
    }
  }

  lemma SlotAfterPcChange(c: Config, st: State, st': State, t: nat, s: nat)
    requires Inv(c, st) && s < c.slots && st' == At(st, t, PcOf(st', t)) && PcOf(st, t).Idle?
    ensures SlotOk(c, st', s)
  {
    assert SlotOk(c, st, s);
    if s < st.numAllocations && s !in st.free && !Live(st.meta[s]) {
      var u :| Holds(st, u, s);
      assert Holds(st', u, s);
    }
    if SlotToAddr(c, s) in st.open && !Live(st.meta[s]) {
      var u :| Holds(st, u, s) && HasOpenPage(PcOf(st, u));
      assert Holds(st', u, s) && HasOpenPage(PcOf(st', u));
    }
  }

  lemma TrapInv(c: Config, st: State, st': State)
    requires Inv(c, st) && st' == st.(trap := st'.trap)
    ensures Inv(c, st')
  {
    forall u: nat ensures PcInRange(c, PcOf(st', u)) && ThreadOk(c, st', u) {
      assert PcInRange(c, PcOf(st, u)) && ThreadOk(c, st, u);
    }
    forall s | 0 <= s < c.slots ensures SlotOk(c, st', s) {
      assert SlotOk(c, st, s);
      if s < st.numAllocations && s !in st.free && !Live(st.meta[s]) {
        var u :| Holds(st, u, s);
        assert Holds(st', u, s);
      }
      if SlotToAddr(c, s) in st.open && !Live(st.meta[s]) {
        var u :| Holds(st, u, s) && HasOpenPage(PcOf(st, u));
        assert Holds(st', u, s) && HasOpenPage(PcOf(st', u));
      }
    }
    forall t, u, s | Holds(st', t, s) && Holds(st', u, s) ensures t == u {
      assert Holds(st, t, s) && Holds(st, u, s);
    }
  }

  /** A slot that some thread has checked and that is not marked deallocated is live, so held by no one. */
  lemma LiveIsUnheld(c: Config, st: State, s: nat)
    requires Inv(c, st) && s < c.slots && Live(st.meta[s])
    ensures forall u :: !Holds(st, u, s)
    ensures s < st.numAllocations && s !in st.free && SlotToAddr(c, s) in st.open
  {
    assert SlotOk(c, st, s);
    forall u ensures !Holds(st, u, s) {
      assert PcInRange(c, PcOf(st, u)) && ThreadOk(c, st, u);
    }
  }

  lemma MarkInv(c: Config, st: State, t: nat)
    requires Inv(c, st) && Enabled(c, st, Mark(t))
    ensures Inv(c, Apply(c, st, Mark(t)))
  {
    var st' := Apply(c, st, Mark(t));
    assert PcInRange(c, PcOf(st, t)) && ThreadOk(c, st, t);
    var s := PcOf(st, t).slot;
    if st.meta[s].isDeallocated {
      TrapInv(c, st, st');
    } else {
      LiveIsUnheld(c, st, s);
      assert SlotOk(c, st, s);
      assert Holds(st', t, s) && HasOpenPage(PcOf(st', t));
      forall s' | 0 <= s' < c.slots && s' != s ensures SlotKept(c, st, st', s') {
      }
      InvFromParts(c, st, st', t, s);
    }
  }

  lemma UnmapInv(c: Config, st: State, t: nat)
    requires Inv(c, st) && Enabled(c, st, Unmap(t))
    ensures Inv(c, Apply(c, st, Unmap(t)))
  {
    var s := PcOf(st, t).slot;
    var st' := Apply(c, st, Unmap(t));
    HolderIsAlone(c, st, t);
    OnePage(SlotToAddr(c, s), c.pageSize);
    StartsOfOthers(c, s);
    assert Holds(st', t, s);
    forall s' | 0 <= s' < c.slots && s' != s ensures SlotKept(c, st, st', s') {
    }
    InvFromParts(c, st, st', t, s);
  }

  lemma ReleaseInv(c: Config, st: State, t: nat)
    requires Inv(c, st) && Enabled(c, st, Release(t))
    ensures Inv(c, Apply(c, st, Release(t)))
  {
    var s := PcOf(st, t).slot;
    var st' := Apply(c, st, Release(t));
    HolderIsAlone(c, st, t);
    forall s' | 0 <= s' < c.slots && s' != s ensures SlotKept(c, st, st', s') {
    }
    InvFromParts(c, st, st', t, s);
  }

  lemma StepInv(c: Config, st: State, step: Step)
    requires Inv(c, st) && Enabled(c, st, step)
    ensures Inv(c, Apply(c, st, step))
  {
    match step
    case Reserve(t, size, alignment, pick) => ReserveInv(c, st, t, size, alignment, pick);
    case OpenPage(t, left) => OpenPageInv(c, st, t, left);
    case Record(t) => RecordInv(c, st, t);
    case Check(t, ptr) => CheckInv(c, st, t, ptr);
    case Mark(t) => MarkInv(c, st, t);
    case Unmap(t) => UnmapInv(c, st, t);
    case Release(t) => ReleaseInv(c, st, t);
  }

  // ---------------------------------------------------------------------------------------------
  // Runs
  // ---------------------------------------------------------------------------------------------

  ghost predicate Linked(c: Config, states: seq<State>, steps: seq<Step>, k: nat)
    requires k < |steps| && |states| == |steps| + 1
  {
    InRange(c, states[k]) && Enabled(c, states[k], steps[k]) && states[k + 1] == Apply(c, states[k], steps[k])
  }

  /** A run of any number of threads, in any interleaving. */
  ghost predicate IsRun(c: Config, states: seq<State>, steps: seq<Step>) {
    && ConfigOk(c) && |states| == |steps| + 1 && states[0] == Initial(c)
    && forall k {:trigger Linked(c, states, steps, k)} :: 0 <= k < |steps| ==> Linked(c, states, steps, k)
  }

  lemma {:induction false} RunInv(c: Config, states: seq<State>, steps: seq<Step>, k: nat)
    requires IsRun(c, states, steps) && k < |states|
    ensures Inv(c, states[k])
  {
    if k == 0 {
      InitialInv(c);
    } else {
      RunInv(c, states, steps, k - 1);
      assert Linked(c, states, steps, k - 1);
      StepInv(c, states[k - 1], steps[k - 1]);
    }
  }

  function One(b: bool): nat { if b then 1 else 0 }

  /** A slot is in exactly one state: never reserved, in the free list, being allocated, live, or being
      freed. It is in the free list at most once and held by at most one thread. */
  lemma OneState(c: Config, states: seq<State>, steps: seq<Step>, k: nat, s: nat)
    requires IsRun(c, states, steps) && k < |states| && s < c.slots
    ensures |states[k].meta| == c.slots
    ensures var st := states[k];
            One(s >= st.numAllocations) + One(s in st.free) + One(exists t :: Allocating(st, t, s))
            + One(Live(st.meta[s])) + One(exists t :: Freeing(st, t, s)) == 1
    ensures forall i, j :: 0 <= i < j < |states[k].free| ==> states[k].free[i] != states[k].free[j]
    ensures forall t, u :: Holds(states[k], t, s) && Holds(states[k], u, s) ==> t == u
  {
    RunInv(c, states, steps, k);
    var st := states[k];
    assert SlotOk(c, st, s);
    if s >= st.numAllocations || s in st.free {
      FreshIsUnheld(c, st, 0, s);
    } else if Live(st.meta[s]) {
      LiveIsUnheld(c, st, s);
    } else {
      var t :| Holds(st, t, s);
      assert Allocating(st, t, s) || Freeing(st, t, s);
      assert forall u :: Holds(st, u, s) ==> u == t;
    }
  }

  /** The list of free slots never overflows. */
  lemma FreeListHasRoom(c: Config, states: seq<State>, steps: seq<Step>, k: nat)
    requires IsRun(c, states, steps) && k < |steps| && steps[k].Release?
    ensures |states[k].free| < c.slots
  {
    RunInv(c, states, steps, k);
    assert Linked(c, states, steps, k);
    var st := states[k];
    HolderIsAlone(c, st, steps[k].t);
    DistinctBelow(st.free, c.slots, PcOf(st, steps[k].t).slot);
  }

  lemma DistinctBelow(free: seq<nat>, n: nat, missing: nat)
    requires Distinct(free) && missing < n && missing !in free
    requires forall k :: 0 <= k < |free| ==> free[k] < n
    ensures |free| < n
  {
    BelowSize(n);
    DistinctSize(free);
    SubsetSize(ElementsOf(free), Below(n) - {missing});
  }

  function ElementsOf(free: seq<nat>): set<nat> { set x | x in free }

  lemma {:induction false} DistinctSize(free: seq<nat>)
    requires Distinct(free)
    ensures |ElementsOf(free)| == |free|
  {
    if free != [] {
      var n := |free| - 1;
      DistinctSize(free[..n]);
      assert free == free[..n] + [free[n]];
      assert ElementsOf(free) == ElementsOf(free[..n]) + {free[n]};
    }
  }

  function Below(n: nat): (s: set<nat>)
    ensures forall k: nat :: k in s <==> k < n
  {
    if n == 0 then {} else Below(n - 1) + {n - 1}
  }

  lemma {:induction false} BelowSize(n: nat)
    ensures |Below(n)| == n
  {
    if n > 0 {
      BelowSize(n - 1);
    }
  }

  /** Step `k` hands out slot `s`. */
  ghost predicate HandsOut(states: seq<State>, steps: seq<Step>, k: nat, s: nat)
    requires k < |steps| && |states| == |steps| + 1
  {
    steps[k].Reserve? && !Holds(states[k], steps[k].t, s) && Holds(states[k + 1], steps[k].t, s)
  }

  /** Step `k` records the deallocation of slot `s`. */
  ghost predicate Deallocates(states: seq<State>, steps: seq<Step>, k: nat, s: nat)
    requires k < |steps| && |states| == |steps| + 1
  {
    steps[k].Mark? && Holds(states[k + 1], steps[k].t, s)
  }

  /** Handed out, and not on its way back to the free list. */
  ghost predicate InUse(c: Config, st: State, s: nat)
    requires |st.meta| == c.slots && s < c.slots
  {
    s < st.numAllocations && s !in st.free && forall t :: !Freeing(st, t, s)
  }

  lemma StaysInUse(c: Config, states: seq<State>, steps: seq<Step>, k: nat, s: nat)
    requires IsRun(c, states, steps) && k < |steps| && s < c.slots && |states[k].meta| == |states[k + 1].meta| == c.slots
    requires InUse(c, states[k], s) && !Deallocates(states, steps, k, s)
    ensures InUse(c, states[k + 1], s) && !HandsOut(states, steps, k, s)
  {
    RunInv(c, states, steps, k);
    RunInv(c, states, steps, k + 1);
    assert Linked(c, states, steps, k);
    var st, st' := states[k], states[k + 1];
    if steps[k].Reserve? && st.numAllocations == c.slots && st.free != [] {
      SwapRemoved(st.free, steps[k].pick % |st.free|);
    }
    forall t ensures !Freeing(st', t, s) {
      assert !Freeing(st, t, s);
    }
    if steps[k].Release? {
      assert !Freeing(st, steps[k].t, s);
    }
  }

  /** No slot is handed out twice without a deallocation in between. */
  lemma {:induction false} HandedOutOnce(c: Config, states: seq<State>, steps: seq<Step>, i: nat, j: nat, s: nat)
    requires IsRun(c, states, steps) && i < j < |steps| && s < c.slots
    requires HandsOut(states, steps, i, s) && HandsOut(states, steps, j, s)
    ensures exists k :: i < k < j && Deallocates(states, steps, k, s)
  {
    var k := i + 1;
    RunInv(c, states, steps, i);
    RunInv(c, states, steps, k);
    assert Linked(c, states, steps, i);
    HolderIsAlone(c, states[k], steps[i].t);
    while k < j && !Deallocates(states, steps, k, s)
      invariant i < k <= j && |states[k].meta| == c.slots && InUse(c, states[k], s)
      invariant forall l :: i < l < k ==> !Deallocates(states, steps, l, s)
    {
      RunInv(c, states, steps, k + 1);
      StaysInUse(c, states, steps, k, s);
      k := k + 1;
    }
    if k == j {
      RunInv(c, states, steps, j + 1);
      StaysInUse(c, states, steps, j, s);
      assert false;
    }
  }

  // ---------------------------------------------------------------------------------------------
  // Memory
  // ---------------------------------------------------------------------------------------------

  predicate Accessible(c: Config, st: State, p: nat)
    requires 0 < c.pageSize < WORDS
  {
    GetPageAddr(p, c.pageSize) in st.open
  }

  /** No byte of a guard page is ever accessible. */
  lemma GuardPagesAreClosed(c: Config, states: seq<State>, steps: seq<Step>, k: nat, p: nat)
    requires IsRun(c, states, steps) && k < |states| && PointerIsMine(c, p) && IsGuardPage(c, p)
    ensures c.pageSize < WORDS && !Accessible(c, states[k], p)
  {
    RunInv(c, states, steps, k);
    PagesFit(c, 0);
    if Accessible(c, states[k], p) {
      var s :| 0 <= s < c.slots && SlotToAddr(c, s) == GetPageAddr(p, c.pageSize);
      PageAddrClearsOffset(p, c.pageSize);
      AlignmentMask(p, c.pageSize);
      assert OnSlot(c, p, s);
      NearestInverts(c, p, s);
      assert false;
    }
  }

  lemma LivePageIsOpen(c: Config, st: State, s: nat, p: nat)
    requires Inv(c, st) && s < c.slots && Live(st.meta[s]) && OnSlot(c, p, s)
    ensures 0 < c.pageSize < WORDS && Accessible(c, st, p)
  {
    AlignmentMask(0, c.pageSize);
    LiveIsUnheld(c, st, s);
    PagesFit(c, s);
    SlotsAreAligned(c, s, c.pageSize);
    PageOfByte(SlotToAddr(c, s), p, c.pageSize);
    PageAddrClearsOffset(p, c.pageSize);
  }

  /** Every byte of a live block is accessible, and it belongs to no other live block. */
  lemma LiveBlocks(c: Config, states: seq<State>, steps: seq<Step>, k: nat, s: nat, p: nat)
    requires IsRun(c, states, steps) && k < |states| && s < c.slots && |states[k].meta| == c.slots
    requires Live(states[k].meta[s]) && states[k].meta[s].addr <= p < states[k].meta[s].addr + states[k].meta[s].size
    ensures c.pageSize < WORDS && Accessible(c, states[k], p)
    ensures forall s' :: 0 <= s' < c.slots && s' != s && Live(states[k].meta[s']) ==>
              !(states[k].meta[s'].addr <= p < states[k].meta[s'].addr + states[k].meta[s'].size)
  {
    var st := states[k];
    RunInv(c, states, steps, k);
    assert SlotOk(c, st, s);
    PagesFit(c, s);
    LivePageIsOpen(c, st, s, p);
    forall s' | 0 <= s' < c.slots && Live(st.meta[s']) && st.meta[s'].addr <= p < st.meta[s'].addr + st.meta[s'].size
      ensures s' == s
    {
      assert SlotOk(c, st, s');
      SlotsAreApart(c, s, s', p);
    }
  }
}
