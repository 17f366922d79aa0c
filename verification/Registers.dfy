/** The numbering of registers: one 32-bit number names a physical register, a stack slot or a
    virtual register (src/codegen/asm/Register.h). */
module Registers {
  type Reg = r: int | 0 <= r < 0x1_0000_0000

  const NO_REGISTER: Reg := 0
  const FIRST_PHYSICAL_REG: Reg := 1
  const FIRST_STACK_SLOT: Reg := 0x4000_0000
  const VIRTUAL_REG_FLAG: Reg := 0x8000_0000

  /** Registers of both targets have 8 bytes. */
  const REGISTER_SIZE: nat := 8

  predicate IsPhysical(r: Reg) { FIRST_PHYSICAL_REG <= r < FIRST_STACK_SLOT }

  predicate IsStackSlot(r: Reg) { FIRST_STACK_SLOT <= r < VIRTUAL_REG_FLAG }

  predicate IsVirtual(r: Reg) { VIRTUAL_REG_FLAG <= r }

  /** The stack slot with a given frame index. */
  function Index2StackSlot(index: nat): (r: Reg)
    requires index < 0x4000_0000
    ensures IsStackSlot(r) && StackSlot2Index(r) == index
  {
    FIRST_STACK_SLOT + index
  }

  function StackSlot2Index(r: Reg): nat
    requires IsStackSlot(r)
  {
    r - FIRST_STACK_SLOT
  }

  /** A half-open stretch of instruction indices in which a register is live. */
  datatype LiveRange = LiveRange(start: nat, end: nat, usedAcrossCall: bool)

  type RangesMap = map<Reg, seq<LiveRange>>

  /** What the live-range builder leaves behind: every register has a range, none is empty. */
  ghost predicate WellFormed(m: RangesMap) {
    forall r :: r in m ==> m[r] != [] && forall k :: 0 <= k < |m[r]| ==> m[r][k].start < m[r][k].end
  }
}
