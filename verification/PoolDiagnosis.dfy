/** Whole calls by one thread, and what a crash says about the calls before it
    (src/runtime/aphotic_shield/error_report.cpp). */
module PoolDiagnosis {
  import opened Bits
  import opened Options
  import opened PoolGeometry
  import opened PoolMachine

  // ---------------------------------------------------------------------------------------------
  // Calls
  // ---------------------------------------------------------------------------------------------

  /** `allocate` from beginning to end: the state and the pointer, if there is one. */
  ghost function Allocated(c: Config, st: State, size: Word, alignment: Word, pick: nat, left: bool): (State, Option<nat>)
    requires Quiet(c, st)
  {
    var st1 := Apply(c, st, Reserve(0, size, alignment, pick));
    StepInv(c, st, Reserve(0, size, alignment, pick));
    if PcOf(st1, 0).Idle? then (st1, None) else
    var st2 := Apply(c, st1, OpenPage(0, left));
    StepInv(c, st1, OpenPage(0, left));
    (Apply(c, st2, Record(0)), Some(PcOf(st2, 0).ptr))
  }

  /** `deallocate` from beginning to end, or to the trap. */
  ghost function Deallocated(c: Config, st: State, ptr: nat): State
    requires Quiet(c, st) && PointerIsMine(c, ptr)
  {
    var st1 := Apply(c, st, Check(0, ptr));
    StepInv(c, st, Check(0, ptr));
    if st1.trap.Some? then st1 else
    var st2 := Apply(c, st1, Mark(0));
    StepInv(c, st1, Mark(0));
    if st2.trap.Some? then st2 else
    var st3 := Apply(c, st2, Unmap(0));
    StepInv(c, st2, Unmap(0));
    Apply(c, st3, Release(0))
  }

  /** Between two calls of the only thread, with no trap so far. */
  ghost predicate Quiet(c: Config, st: State) { Inv(c, st) && st.pc == map[] && st.trap.None? }

  lemma AllocatedIsQuiet(c: Config, st: State, size: Word, alignment: Word, pick: nat, left: bool)
    requires Quiet(c, st)
    ensures Quiet(c, Allocated(c, st, size, alignment, pick, left).0)
  {
    var st1 := Apply(c, st, Reserve(0, size, alignment, pick));
    StepInv(c, st, Reserve(0, size, alignment, pick));
    if !PcOf(st1, 0).Idle? {
      var st2 := Apply(c, st1, OpenPage(0, left));
      StepInv(c, st1, OpenPage(0, left));
      StepInv(c, st2, Record(0));
    }
  }

  lemma DeallocatedIsQuiet(c: Config, st: State, ptr: nat)
    requires Quiet(c, st) && PointerIsMine(c, ptr)
    ensures Deallocated(c, st, ptr).trap.None? ==> Quiet(c, Deallocated(c, st, ptr))
  {
    var st1 := Apply(c, st, Check(0, ptr));
    StepInv(c, st, Check(0, ptr));
    if st1.trap.None? {
      var st2 := Apply(c, st1, Mark(0));
      StepInv(c, st1, Mark(0));
      if st2.trap.None? {
        var st3 := Apply(c, st2, Unmap(0));
        StepInv(c, st2, Unmap(0));
        StepInv(c, st3, Release(0));
      }
    }
  }

  /** What `allocate` does, in one piece: an aligned block inside the slot that was reserved. */
  lemma AllocatedEffect(c: Config, st: State, size: Word, alignment: Word, pick: nat, left: bool)
    requires Quiet(c, st)
    ensures var (st1, slot) := ReserveSlot(c, st, pick);
            var z, a := EffectiveSize(size), EffectiveAlignment(alignment);
            if !Acceptable(c, size, alignment) || slot.None? then
              Allocated(c, st, size, alignment, pick, left) == (st, None)
            else
              var s := slot.value;
              && s < c.slots && s < |st.meta| && IsPow2(a) && z <= c.pageSize
              && var p := Place(c, s, z, a, left);
              && p > 0 && BlockOn(c, p, z, s) && p % a == 0
              && Allocated(c, st, size, alignment, pick, left)
                 == (st1.(meta := st.meta[s := Meta(p, z, false)], open := st.open + {SlotToAddr(c, s)}), Some(p))
  {
    var r := ReserveSlot(c, st, pick);
    var st1 := Apply(c, st, Reserve(0, size, alignment, pick));
    StepInv(c, st, Reserve(0, size, alignment, pick));
    if Acceptable(c, size, alignment) && r.1.Some? {
      var s := r.1.value;
      assert PcOf(st1, 0) == Reserved(s, EffectiveSize(size), EffectiveAlignment(alignment));
      assert PcInRange(c, PcOf(st1, 0));
      StepInv(c, st1, OpenPage(0, left));
      PlacedInSlot(c, s, EffectiveSize(size), EffectiveAlignment(alignment), left);
      OnePage(SlotToAddr(c, s), c.pageSize);
      PagesFit(c, s);
      assert st1.pc - {0} == map[];
    }
  }

  /** A request that no pool of this geometry serves. */
  ghost predicate Refused(c: Config, size: Word, alignment: Word) {
    size > c.pageSize || (if alignment == 0 then 16 > c.pageSize else !IsPow2(alignment) || alignment > c.pageSize)
  }

  predicate NoSlotLeft(c: Config, st: State) { st.numAllocations >= c.slots && st.free == [] }

  /** `p` is what was asked for: as many bytes, all on slot `s` and accessible, aligned as asked, by default as the largest
      type, and on record. A request for no byte gets one. */
  ghost predicate Serves(c: Config, st: State, size: Word, alignment: Word, s: nat, p: nat)
    requires 0 < c.pageSize < WORDS
  {
    && s < c.slots == |st.meta| && SlotToAddr(c, s) <= p && p + size <= SlotToAddr(c, s) + c.pageSize
    && (alignment > 0 ==> p % alignment == 0) && (alignment == 0 ==> p % 16 == 0)
    && st.meta[s] == Meta(p, if size == 0 then 1 else size, false)
    && forall q :: SlotToAddr(c, s) <= q < SlotToAddr(c, s) + c.pageSize ==> Accessible(c, st, q)
  }

  /** Blocks on the left begin with their slot, and blocks on the right end less than an alignment before its end. */
  predicate AtItsEnd(c: Config, size: Word, alignment: Word, s: nat, p: nat, left: bool) {
    var a, z := if alignment == 0 then 16 else alignment, if size == 0 then 1 else size;
    if left then p == SlotToAddr(c, s) else SlotToAddr(c, s) + c.pageSize < p + z + a
  }

  /** From `st` to `st'`, with the answer `p`: the request is turned down if and only if it asks for too much or for no
      alignment there is, or no slot is left; what is given out is what was asked for, and other slots stay. */
  ghost predicate AsAsked(c: Config, st: State, st': State, size: Word, alignment: Word, left: bool, p: Option<nat>)
    requires 0 < c.pageSize < WORDS && c.slots > 0
  {
    && (p.None? <==> Refused(c, size, alignment) || NoSlotLeft(c, st)) && (p.None? ==> st' == st)
    && (p.Some? ==>
          && PointerIsMine(c, p.value)
          && var s := NearestSlot(c, p.value);
          && Serves(c, st', size, alignment, s, p.value) && AtItsEnd(c, size, alignment, s, p.value, left)
          && |st.meta| == c.slots && (forall t :: 0 <= t < c.slots && t != s ==> st'.meta[t] == st.meta[t]) && st.open <= st'.open)
  }

  /** What `allocate` does, in the caller's words. */
  lemma RequestServed(c: Config, st: State, size: Word, alignment: Word, pick: nat, left: bool)
    requires Quiet(c, st)
    ensures 0 < c.pageSize < WORDS && c.slots > 0
    ensures var (st', p) := Allocated(c, st, size, alignment, pick, left); AsAsked(c, st, st', size, alignment, left, p)
  {
    AllocatedEffect(c, st, size, alignment, pick, left);
    AllocatedIsQuiet(c, st, size, alignment, pick, left);
    RefusedIsUnacceptable(c, size, alignment);
    var slot := ReserveSlot(c, st, pick).1;
    if Acceptable(c, size, alignment) && slot.Some? {
      var s, z, a := slot.value, EffectiveSize(size), EffectiveAlignment(alignment);
      var p, st' := Place(c, s, z, a, left), Allocated(c, st, size, alignment, pick, left).0;
      PagesFit(c, s);
      NearestInverts(c, p, s);
      SlotsAreAligned(c, s, a);
      SlotOpened(c, st', s);
    }
  }

  lemma SlotOpened(c: Config, st: State, s: nat)
    requires Quiet(c, st) && s < c.slots && SlotToAddr(c, s) in st.open
    ensures 0 < c.pageSize < WORDS
    ensures forall q :: SlotToAddr(c, s) <= q < SlotToAddr(c, s) + c.pageSize ==> Accessible(c, st, q)
  {
    AlignmentMask(0, c.pageSize);
    PagesFit(c, s);
    SlotsAreAligned(c, s, c.pageSize);
    forall q | SlotToAddr(c, s) <= q < SlotToAddr(c, s) + c.pageSize ensures Accessible(c, st, q) {
      PageOfByte(SlotToAddr(c, s), q, c.pageSize);
      PageAddrClearsOffset(q, c.pageSize);
    }
  }

  lemma RefusedIsUnacceptable(c: Config, size: Word, alignment: Word)
    requires ConfigOk(c)
    ensures 0 < c.pageSize < WORDS
    ensures Refused(c, size, alignment) <==> !Acceptable(c, size, alignment)
  {
    AlignmentMask(0, c.pageSize);
    PowerOfTwoTest(EffectiveAlignment(alignment));
    assert Pow2(4) == 16;
    assert IsPow2(16);
    PagesFit(c, 0);
  }

  /** What `deallocate` does, in one piece. */
  lemma DeallocatedEffect(c: Config, st: State, ptr: nat)
    requires Quiet(c, st) && PointerIsMine(c, ptr)
    ensures NearestSlot(c, ptr) < |st.meta|
    ensures var s, st' := NearestSlot(c, ptr), Deallocated(c, st, ptr);
            if st.meta[s].addr != ptr then st' == st.(trap := Some(Failure(INVALID_FREE, ptr)))
            else if st.meta[s].isDeallocated then
              st' == st.(pc := map[0 := Checked(s, ptr)], trap := Some(Failure(DOUBLE_FREE, ptr)))
            else
              st' == st.(meta := st.meta[s := st.meta[s].(isDeallocated := true)],
                         open := st.open - {SlotToAddr(c, s)}, free := st.free + [s])
  {
    GuardPagesAreTheRest(c, ptr);
    var s := NearestSlot(c, ptr);
    var st1 := Apply(c, st, Check(0, ptr));
    StepInv(c, st, Check(0, ptr));
    if st1.trap.None? && !st.meta[s].isDeallocated {
      var st2 := Apply(c, st1, Mark(0));
      StepInv(c, st1, Mark(0));
      var st3 := Apply(c, st2, Unmap(0));
      StepInv(c, st2, Unmap(0));
      OnePage(SlotToAddr(c, s), c.pageSize);
      assert st3.pc - {0} == map[];
    }
  }

  // ---------------------------------------------------------------------------------------------
  // Histories
  // ---------------------------------------------------------------------------------------------

  datatype Op = Allocate(size: Word, alignment: Word, pick: nat, left: bool) | Deallocate(ptr: nat)

  /** What the callers have seen of a slot. */
  datatype Event = Gave(slot: nat, ptr: nat, size: nat) | Took(slot: nat)

  predicate OpOk(c: Config, op: Op) { op.Deallocate? ==> PointerIsMine(c, op.ptr) }

  ghost predicate OpsOk(c: Config, ops: seq<Op>) { ConfigOk(c) && forall k :: 0 <= k < |ops| ==> OpOk(c, ops[k]) }

  ghost function AfterOp(c: Config, st: State, op: Op): (st': State)
    requires Quiet(c, st) && OpOk(c, op)
    ensures st'.trap.None? ==> Quiet(c, st')
  {
    match op
    case Allocate(size, alignment, pick, left) =>
      AllocatedIsQuiet(c, st, size, alignment, pick, left);
      Allocated(c, st, size, alignment, pick, left).0
    case Deallocate(ptr) =>
      DeallocatedIsQuiet(c, st, ptr);
      Deallocated(c, st, ptr)
  }

  /** The calls in order, up to a trap. */
  ghost function AfterOps(c: Config, ops: seq<Op>): (st: State)
    requires OpsOk(c, ops)
    ensures st.trap.None? ==> Quiet(c, st)
  {
    if ops == [] then InitialInv(c); Initial(c) else
    var st := AfterOps(c, ops[..|ops| - 1]);
    if st.trap.Some? then st else AfterOp(c, st, ops[|ops| - 1])
  }

  /** What a call adds to the history: blocks given out and taken back. */
  ghost function EventOf(c: Config, st: State, op: Op): seq<Event>
    requires Quiet(c, st) && OpOk(c, op)
  {
    match op
    case Allocate(size, alignment, pick, left) =>
      var p := Allocated(c, st, size, alignment, pick, left).1;
      if p.None? || !PointerIsMine(c, p.value) then [] else [Gave(NearestSlot(c, p.value), p.value, EffectiveSize(size))]
    case Deallocate(ptr) =>
      if Deallocated(c, st, ptr).trap.Some? then [] else [Took(NearestSlot(c, ptr))]
  }

  ghost function History(c: Config, ops: seq<Op>): seq<Event>
    requires OpsOk(c, ops)
  {
    if ops == [] then [] else
    var st := AfterOps(c, ops[..|ops| - 1]);
    History(c, ops[..|ops| - 1]) + (if st.trap.Some? then [] else EventOf(c, st, ops[|ops| - 1]))
  }

  /** The last event of a slot. */
  function LastOf(h: seq<Event>, s: nat): Option<Event> {
    if h == [] then None else if h[|h| - 1].slot == s then Some(h[|h| - 1]) else LastOf(h[..|h| - 1], s)
  }

  /** The last block that a slot was given out for. */
  function LastGiven(h: seq<Event>, s: nat): (e: Option<Event>)
    ensures e.Some? ==> e.value.Gave?
  {
    if h == [] then None
    else if h[|h| - 1].Gave? && h[|h| - 1].slot == s then Some(h[|h| - 1])
    else LastGiven(h[..|h| - 1], s)
  }

  /** The metadata of a slot says what became of it last. */
  ghost predicate Remembers(m: Meta, h: seq<Event>, s: nat) {
    match LastGiven(h, s)
    case None => m.addr == 0 && !m.isDeallocated && LastOf(h, s).None?
    case Some(e) => m == Meta(e.ptr, e.size, LastOf(h, s) == Some(Took(s))) && e.ptr > 0
  }

  lemma EventAppended(h: seq<Event>, e: Event, s: nat)
    ensures LastOf(h + [e], s) == if e.slot == s then Some(e) else LastOf(h, s)
    ensures LastGiven(h + [e], s) == if e.Gave? && e.slot == s then Some(e) else LastGiven(h, s)
  {
    assert (h + [e])[..|h|] == h;
  }

  lemma {:induction false} HistoryIsRemembered(c: Config, ops: seq<Op>, s: nat)
    requires OpsOk(c, ops) && AfterOps(c, ops).trap.None? && s < c.slots
    ensures Remembers(AfterOps(c, ops).meta[s], History(c, ops), s)
  {
    if ops != [] {
      var before, op := ops[..|ops| - 1], ops[|ops| - 1];
      HistoryIsRemembered(c, before, s);
      OpIsRemembered(c, AfterOps(c, before), op, History(c, before), s);
    }
  }

  lemma OpIsRemembered(c: Config, st: State, op: Op, h: seq<Event>, s: nat)
    requires Quiet(c, st) && OpOk(c, op) && AfterOp(c, st, op).trap.None? && s < c.slots
    requires Remembers(st.meta[s], h, s)
    ensures Remembers(AfterOp(c, st, op).meta[s], h + EventOf(c, st, op), s)
  {
    var es := EventOf(c, st, op);
    if es != [] {
      EventAppended(h, es[0], s);
    } else {
      assert h + es == h;
    }
    match op
    case Allocate(size, alignment, pick, left) =>
      AllocatedEffect(c, st, size, alignment, pick, left);
      var slot := ReserveSlot(c, st, pick).1;
      if Acceptable(c, size, alignment) && slot.Some? {
        NearestInverts(c, Place(c, slot.value, EffectiveSize(size), EffectiveAlignment(alignment), left), slot.value);
      }
    case Deallocate(ptr) =>
      DeallocatedEffect(c, st, ptr);
      GuardPagesAreTheRest(c, ptr);
  }

  // ---------------------------------------------------------------------------------------------
  // Diagnosis
  // ---------------------------------------------------------------------------------------------

  predicate ErrorIsMine(c: Config, st: State, p: nat) {
    (st.trap.Some? && st.trap.value.error != UNKNOWN && st.trap.value.address != 0) || PointerIsMine(c, p)
  }

  function MetaAt(st: State, s: nat): Meta { if s < |st.meta| then st.meta[s] else Meta(0, 0, false) }

  /** `addrToMetadata`. */
  function AddrToMetadata(c: Config, st: State, p: nat): Meta
    requires PointerIsMine(c, p) && c.pageSize > 0 && c.slots > 0
  {
    MetaAt(st, NearestSlot(c, p))
  }

  /** `__aphotic_shield_diagnose_error`. */
  function Diagnose(c: Config, st: State, p: nat): Error
    requires ConfigOk(c)
  {
    if !ErrorIsMine(c, st, p) then UNKNOWN
    else if st.trap.Some? then st.trap.value.error
    else
      GuardPagesAreTheRest(c, p);
      AlignmentMask(0, c.pageSize);
      if IsGuardPage(c, p) then
        var slot := NearestSlot(c, p);
        NearestInverts(c, SlotToAddr(c, slot), slot);
        var meta := AddrToMetadata(c, st, SlotToAddr(c, slot));
        if meta.addr == 0 then UNKNOWN
        else if meta.addr < p then BUFFER_OVERFLOW
        else BUFFER_UNDERFLOW
      else if AddrToMetadata(c, st, p).isDeallocated then USE_AFTER_FREE
      else UNKNOWN
  }

  /** On a slot page: use after free just when the slot's last block has been taken back. */
  lemma VerdictOnSlotPage(c: Config, ops: seq<Op>, p: nat)
    requires OpsOk(c, ops) && AfterOps(c, ops).trap.None?
    requires c.pageSize > 0 && c.slots > 0 && PointerIsMine(c, p) && !IsGuardPage(c, p)
    ensures var s := NearestSlot(c, p);
            Diagnose(c, AfterOps(c, ops), p)
              == if LastOf(History(c, ops), s) == Some(Took(s)) then USE_AFTER_FREE else UNKNOWN
  {
    GuardPagesAreTheRest(c, p);
    HistoryIsRemembered(c, ops, NearestSlot(c, p));
  }

  /** Where the fault comes from a closed page, that is just when the slot was ever given out. */
  lemma VerdictOnClosedPage(c: Config, ops: seq<Op>, p: nat)
    requires OpsOk(c, ops) && AfterOps(c, ops).trap.None?
    requires 0 < c.pageSize < WORDS && c.slots > 0 && PointerIsMine(c, p) && !IsGuardPage(c, p)
    requires !Accessible(c, AfterOps(c, ops), p)
    ensures Diagnose(c, AfterOps(c, ops), p) == USE_AFTER_FREE <==>
              LastGiven(History(c, ops), NearestSlot(c, p)).Some?
  {
    var st, s := AfterOps(c, ops), NearestSlot(c, p);
    GuardPagesAreTheRest(c, p);
    HistoryIsRemembered(c, ops, s);
    if Live(st.meta[s]) {
      LivePageIsOpen(c, st, s, p);
    }
  }

  /** On a guard page: overflow or underflow just when the nearest slot was ever given out, overflow if it
      lies below the fault and underflow if it lies above. */
  lemma VerdictOnGuardPage(c: Config, ops: seq<Op>, p: nat)
    requires OpsOk(c, ops) && AfterOps(c, ops).trap.None?
    requires c.pageSize > 0 && c.slots > 0 && PointerIsMine(c, p) && IsGuardPage(c, p)
    ensures var s := NearestSlot(c, p);
            Diagnose(c, AfterOps(c, ops), p)
              == if LastGiven(History(c, ops), s).None? then UNKNOWN
                 else if SlotToAddr(c, s) < p then BUFFER_OVERFLOW
                 else BUFFER_UNDERFLOW
  {
    var st, s := AfterOps(c, ops), NearestSlot(c, p);
    GuardPagesAreTheRest(c, p);
    HistoryIsRemembered(c, ops, s);
    NearestInverts(c, SlotToAddr(c, s), s);
    assert SlotOk(c, st, s) && !OnSlot(c, p, s);
  }

  /** A block can be taken back just when it is the last one its slot was given out for and has not been
      taken back since; otherwise the verdict at the trap says which of the two failed. */
  lemma VerdictOnDeallocation(c: Config, ops: seq<Op>, ptr: nat, p: nat)
    requires OpsOk(c, ops) && AfterOps(c, ops).trap.None? && PointerIsMine(c, ptr)
    requires 0 < c.pageSize && 0 < c.slots
    ensures OpsOk(c, ops + [Deallocate(ptr)])
    ensures var h, s, st' := History(c, ops), NearestSlot(c, ptr), AfterOps(c, ops + [Deallocate(ptr)]);
            if LastGiven(h, s).None? || LastGiven(h, s).value.ptr != ptr then
              st'.trap.Some? && Diagnose(c, st', p) == INVALID_FREE
            else if LastOf(h, s) == Some(Took(s)) then
              st'.trap.Some? && Diagnose(c, st', p) == DOUBLE_FREE
            else
              st'.trap.None?
  {
    assert (ops + [Deallocate(ptr)])[..|ops|] == ops;
    GuardPagesAreTheRest(c, ptr);
    HistoryIsRemembered(c, ops, NearestSlot(c, ptr));
    DeallocatedEffect(c, AfterOps(c, ops), ptr);
  }
}
