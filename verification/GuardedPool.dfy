/** The allocator itself: one object whose fields the calls update, proved against the whole calls. */
module GuardedPool {
  import opened Bits
  import opened Options
  import opened PoolGeometry
  import opened PoolMachine
  import opened PoolDiagnosis

  lemma NothingAllocated(c: Config, st: State, size: Word, alignment: Word, pick: nat, left: bool)
    requires Quiet(c, st)
    requires !Acceptable(c, size, alignment) || PoolMachine.ReserveSlot(c, st, pick).1.None?
    ensures Allocated(c, st, size, alignment, pick, left) == (st, None)
  {
    AllocatedEffect(c, st, size, alignment, pick, left);
  }

  lemma SlotAllocated(c: Config, st: State, size: Word, alignment: Word, pick: nat, left: bool)
    requires Quiet(c, st) && Acceptable(c, size, alignment) && PoolMachine.ReserveSlot(c, st, pick).1.Some?
    ensures var (st1, slot) := PoolMachine.ReserveSlot(c, st, pick);
            var s, z, a := slot.value, EffectiveSize(size), EffectiveAlignment(alignment);
            && s < c.slots && IsPow2(a) && a <= c.pageSize && 0 < z <= c.pageSize && |st1.meta| == c.slots
            && Allocated(c, st, size, alignment, pick, left) == (Recorded(c, st1, s, z, a, left), Some(Place(c, s, z, a, left)))
            && Quiet(c, Recorded(c, st1, s, z, a, left))
  {
    AllocatedEffect(c, st, size, alignment, pick, left);
    AllocatedIsQuiet(c, st, size, alignment, pick, left);
  }

  /** The slot's page opened, and the block on it in the metadata. */
  ghost function Recorded(c: Config, st: State, s: nat, z: nat, a: nat, left: bool): State
    requires ConfigOk(c) && s < c.slots == |st.meta| && IsPow2(a) && a <= c.pageSize && 0 < z <= c.pageSize
  {
    st.(meta := st.meta[s := Meta(Place(c, s, z, a, left), z, false)], open := st.open + {SlotToAddr(c, s)})
  }

  class GuardedPoolAllocator {
    const c: Config
    var numAllocations: nat
    const metadata: array<Meta>
    const freeSlots: array<nat>
    var freeSlotsLength: nat
    /** The start addresses of the pages that mprotect has opened. */
    var open: set<nat>
    var failure: Option<Failure>

    ghost predicate Shape()
      reads this
    {
      metadata.Length == c.slots == freeSlots.Length && freeSlotsLength <= freeSlots.Length
    }

    ghost function View(): State
      requires Shape()
      reads this, metadata, freeSlots
    {
      State(numAllocations, freeSlots[..freeSlotsLength], metadata[..], open, map[], failure)
    }

    ghost predicate Valid()
      reads this, metadata, freeSlots
    {
      Shape() && Quiet(c, View())
    }

    constructor (c: Config)
      requires ConfigOk(c)
      ensures Valid() && this.c == c && View() == Initial(c) && fresh(metadata) && fresh(freeSlots)
    {
      this.c := c;
      numAllocations, freeSlotsLength, open, failure := 0, 0, {}, None;
      metadata := new Meta[c.slots](_ => Meta(0, 0, false));
      freeSlots := new nat[c.slots](_ => 0);
      new;
      assert View() == Initial(c);
      InitialInv(c);
    }

    method ReserveSlot(pick: nat) returns (slot: Option<nat>)
      requires Valid()
      modifies this`numAllocations, this`freeSlotsLength, freeSlots
      ensures Shape() && (View(), slot) == PoolMachine.ReserveSlot(c, old(View()), pick)
    {
      if numAllocations < c.slots {
        slot := Some(numAllocations);
        numAllocations := numAllocations + 1;
        return;
      }
      if freeSlotsLength == 0 {
        return None;
      }
      var reserved := pick % freeSlotsLength;
      slot := Some(freeSlots[reserved]);
      freeSlotsLength := freeSlotsLength - 1;
      freeSlots[reserved] := freeSlots[freeSlotsLength];
      ghost var free := old(freeSlots[..freeSlotsLength]);
      assert freeSlots[..freeSlotsLength] == free[reserved := free[|free| - 1]][..|free| - 1];
    }

    /** The assertion that the list has room is what `FreeListHasRoom` proves of every run. */
    method FreeSlot(slot: nat)
      requires Shape() && freeSlotsLength < c.slots
      modifies this`freeSlotsLength, freeSlots
      ensures Shape() && View() == PoolMachine.FreeSlot(old(View()), slot)
    {
      freeSlots[freeSlotsLength] := slot;
      freeSlotsLength := freeSlotsLength + 1;
    }

    /** The second half of `Allocate`: the block is placed, its page opened and its metadata recorded. */
    method PlaceBlock(slot: nat, z: nat, a: nat, left: bool) returns (userPtr: nat)
      requires Shape() && ConfigOk(c) && slot < c.slots && IsPow2(a) && a <= c.pageSize && 0 < z <= c.pageSize
      modifies this`open, metadata
      ensures Shape() && userPtr == Place(c, slot, z, a, left)
      ensures View() == Recorded(c, old(View()), slot, z, a, left)
    {
      ghost var meta := metadata[..];
      var slotStart := SlotToAddr(c, slot);
      var slotEnd := slotStart + c.pageSize;
      PlacedInSlot(c, slot, z, a, left);
      OnePage(slotStart, c.pageSize);
      PagesFit(c, slot);
      if left {
        userPtr := AlignUp(slotStart, a);
      } else {
        userPtr := AlignDown(slotEnd - z, a);
      }
      open := open + PagesOf(GetPageAddr(userPtr, c.pageSize), RoundUpTo(z, c.pageSize), c.pageSize);
      metadata[slot] := Meta(userPtr, z, false);
      assert metadata[..] == meta[slot := Meta(userPtr, z, false)];
    }

    method Allocate(size: Word, alignment: Word, pick: nat, left: bool) returns (ptr: Option<nat>)
      requires Valid()
      modifies this, metadata, freeSlots
      ensures Valid()
      ensures (View(), ptr) == Allocated(c, old(View()), size, alignment, pick, left)
      ensures 0 < c.pageSize < WORDS && c.slots > 0 && AsAsked(c, old(View()), View(), size, alignment, left, ptr)
    {
      ghost var st := View();
      RequestServed(c, st, size, alignment, pick, left);
      var z, a := EffectiveSize(size), EffectiveAlignment(alignment);
      if !IsPowerOfTwo(a) || a > c.pageSize || z > MaximumAllocationSize(c) {
        NothingAllocated(c, st, size, alignment, pick, left);
        return None;
      }
      var slot := ReserveSlot(pick);
      if slot.None? {
        NothingAllocated(c, st, size, alignment, pick, left);
        return None;
      }
      SlotAllocated(c, st, size, alignment, pick, left);
      var userPtr := PlaceBlock(slot.value, z, a, left);
      ptr := Some(userPtr);
    }

    method Deallocate(ptr: nat)
      requires Valid() && PointerIsMine(c, ptr)
      modifies this, metadata, freeSlots
      ensures Shape()
      ensures failure.None? ==> Valid()
      ensures View() == Deallocated(c, old(View()), ptr).(pc := map[])
    {
      ghost var st := View();
      DeallocatedEffect(c, st, ptr);
      DeallocatedIsQuiet(c, st, ptr);
      GuardPagesAreTheRest(c, ptr);
      var slot := NearestSlot(c, ptr);
      var slotStart := SlotToAddr(c, slot);
      if metadata[slot].addr != ptr {
        failure := Some(Failure(INVALID_FREE, ptr));
        return;
      }
      if metadata[slot].isDeallocated {
        failure := Some(Failure(DOUBLE_FREE, ptr));
        return;
      }
      LiveLeavesRoom(c, st, slot);
      OnePage(slotStart, c.pageSize);
      metadata[slot] := metadata[slot].(isDeallocated := true);
      open := open - PagesOf(slotStart, MaximumAllocationSize(c), c.pageSize);
      FreeSlot(slot);
    }
  }

  lemma LiveLeavesRoom(c: Config, st: State, s: nat)
    requires Inv(c, st) && s < c.slots && Live(st.meta[s])
    ensures |st.free| < c.slots
  {
    LiveIsUnheld(c, st, s);
    DistinctBelow(st.free, c.slots, s);
  }
}
