/** The save area of a stack frame: one cell for every saved register, from the old stack pointer down. */
module SaveAreas {
  import opened Registers

  /** The cells below `sp`, one for every register. */
  function SaveCell(sp: int, k: nat): int { sp - REGISTER_SIZE * (k + 1) }

  ghost predicate AreaMapped(sp: int, n: nat, mem: map<int, int>) { forall k :: 0 <= k < n ==> SaveCell(sp, k) in mem }

  ghost predicate AreaHolds(sp: int, rs: seq<Reg>, regs: map<Reg, int>, mem: map<int, int>) {
    forall k :: 0 <= k < |rs| ==> SaveCell(sp, k) in mem && rs[k] in regs && mem[SaveCell(sp, k)] == regs[rs[k]]
  }

  predicate AllDistinct(rs: seq<Reg>) { forall j, k :: 0 <= j < k < |rs| ==> rs[j] != rs[k] }

  lemma AreaBelow(sp: int, sp': int, n: nat, mem: map<int, int>)
    requires AreaMapped(sp, n, mem) && n > 0 && sp' == sp - REGISTER_SIZE
    ensures AreaMapped(sp', n - 1, mem)
  {
    forall k: nat | k < n - 1 ensures SaveCell(sp', k) in mem {
      assert SaveCell(sp', k) == SaveCell(sp, k + 1);
    }
  }

  lemma AreaTail(sp: int, sp': int, rs: seq<Reg>, regs: map<Reg, int>, mem: map<int, int>)
    requires AreaHolds(sp, rs, regs, mem) && rs != [] && sp' == sp - REGISTER_SIZE
    ensures SaveCell(sp, 0) in mem && rs[0] in regs && mem[SaveCell(sp, 0)] == regs[rs[0]]
    ensures AreaHolds(sp', rs[1..], regs, mem)
  {
    forall k: nat | k < |rs| - 1
      ensures SaveCell(sp', k) in mem && rs[1..][k] in regs && mem[SaveCell(sp', k)] == regs[rs[1..][k]]
    {
      assert SaveCell(sp', k) == SaveCell(sp, k + 1);
    }
  }

  lemma AreaCons(sp: int, sp': int, rs: seq<Reg>, regs: map<Reg, int>, mem: map<int, int>)
    requires rs != [] && sp' == sp - REGISTER_SIZE && AreaHolds(sp', rs[1..], regs, mem)
    requires SaveCell(sp, 0) in mem && rs[0] in regs && mem[SaveCell(sp, 0)] == regs[rs[0]]
    ensures AreaHolds(sp, rs, regs, mem)
  {
    forall k: nat | k < |rs| ensures SaveCell(sp, k) in mem && rs[k] in regs && mem[SaveCell(sp, k)] == regs[rs[k]] {
      if k > 0 {
        assert SaveCell(sp', k - 1) == SaveCell(sp, k) && rs[1..][k - 1] == rs[k];
      }
    }
  }

  lemma SameArea(sp: int, rs: seq<Reg>, regs: map<Reg, int>, regs': map<Reg, int>, mem: map<int, int>)
    requires AreaHolds(sp, rs, regs, mem) && forall r :: r in rs ==> r in regs' && (r in regs ==> regs'[r] == regs[r])
    ensures AreaHolds(sp, rs, regs', mem)
  {
  }
}
