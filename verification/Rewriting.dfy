/** The rewriter: it allocates registers for one function after another and edits instruction lists in place. */
module Rewriting {
  import opened Registers
  import opened RegAlloc
  import opened RiscV
  import opened SpillCode
  import opened RewriteProof

  datatype AsmFunction = AsmFunction(ranges: RangesMap, localFrameSize: nat, code: seq<Instr>)

  /** A function after rewriting, with what it was made from. */
  datatype Output = Output(source: AsmFunction, alloc: Allocation, lay: Layout, code: seq<Instr>, reserved: nat)

  function ToPhysAll(alloc: Allocation, code: seq<Instr>): seq<Instr> {
    seq(|code|, k requires 0 <= k < |code| => ToPhys(alloc, code[k]))
  }

  /** The second pass on the result of the first. */
  function SpillAll(lay: Layout, alloc: Allocation, code: seq<Instr>): seq<Instr> {
    if code == [] then [] else Code(Expand(lay, alloc, code[0], 0, UsedRegs(code[0].ops), 0)) + SpillAll(lay, alloc, code[1..])
  }

  lemma {:induction false} TwoPasses(lay: Layout, alloc: Allocation, code: seq<Instr>)
    ensures SpillAll(lay, alloc, ToPhysAll(alloc, code)) == RewrittenAll(lay, alloc, code)
  {
    if code != [] {
      assert ToPhysAll(alloc, code)[1..] == ToPhysAll(alloc, code[1..]);
      TwoPasses(lay, alloc, code[1..]);
    }
  }

  lemma NextAvailable(free: seq<Reg>, k: nat, used: seq<Reg>)
    requires k < |free|
    ensures AvailableIn(free[k..], used) == if free[k] !in used then free[k] else AvailableIn(free[k + 1..], used)
  {
    assert free[k..][0] == free[k] && free[k..][1..] == free[k + 1..];
  }

  class AsmRewriter {
    const lsra: LinearScanRegisterAllocator
    var code: seq<Instr>
    var lay: Layout
    var numReserved: nat
    var maxNumReserved: nat

    constructor (ti: TargetInfo)
      requires forall r :: r in ti.freeRegs ==> IsPhysical(r)
      ensures fresh(lsra) && lsra.Valid() && lsra.FreeSet() == ti.freeRegs
    {
      lsra := new LinearScanRegisterAllocator(ti);
      code, lay, numReserved, maxNumReserved := [], Layout(0, 0), 0, 0;
    }

    method GetAvailableRegister(used: seq<Reg>) returns (r: Reg)
      ensures r == Available(used)
    {
      for k := 0 to |FREE_REGS|
        invariant AvailableIn(FREE_REGS[k..], used) == Available(used)
      {
        NextAvailable(FREE_REGS, k, used);
        if FREE_REGS[k] !in used {
          return FREE_REGS[k];
        }
      }
      r := NO_REGISTER;
    }

    /** Registers to physical registers, in place. */
    method RewriteVirtToPhys(alloc: Allocation)
      modifies this`code
      ensures code == ToPhysAll(alloc, old(code))
    {
      ghost var was := code;
      for k := 0 to |code|
        invariant |code| == |was|
        invariant forall j :: 0 <= j < k ==> code[j] == ToPhys(alloc, was[j])
        invariant forall j :: k <= j < |was| ==> code[j] == was[j]
      {
        code := code[k := ToPhys(alloc, code[k])];
      }
    }

    /** Operand `k` of the instruction at `pos` becomes a register, with its spill code directly before and
        directly behind the instruction. */
    method SpillOperand(pos: nat, k: nat, used: seq<Reg>, alloc: Allocation) returns (a: Reg)
      requires pos < |code| && k < |code[pos].ops| && IsSpilled(alloc, code[pos].ops[k])
      modifies this`code, this`numReserved
      ensures a == Available(used) && numReserved == old(numReserved) + 1
      ensures code == Inserted(old(code), pos, SpillCodeFor(lay, alloc, old(code[pos]), k, a, old(numReserved)))
    {
      a := GetAvailableRegister(used);
      numReserved := numReserved + 1;
      var slot, saved := StackSlot2Index(alloc[RegIn(code[pos].ops[k])]), ReservedCell(lay, numReserved);
      var i := SetReg(code[pos], k, a);
      code := code[..pos] + [StoreTo(lay, a, saved), LoadFrom(lay, a, slot)] + [i]
              + [StoreTo(lay, a, slot), LoadFrom(lay, a, saved)] + code[pos + 1..];
    }

    /** Spill code for the instruction at `at`, operand by operand. */
    method RewriteSpilledAt(at: nat, alloc: Allocation) returns (next: nat)
      requires at < |code|
      modifies this`code, this`numReserved, this`maxNumReserved
      ensures var i := old(code[at]);
              var e := Expand(lay, alloc, i, 0, UsedRegs(i.ops), 0);
              && code == old(code[..at]) + Code(e) + old(code[at + 1..]) && next == at + |Code(e)|
              && maxNumReserved == if e.reserved > old(maxNumReserved) then e.reserved else old(maxNumReserved)
    {
      ghost var i, front, rest := code[at], code[..at], code[at + 1..];
      ghost var e := Expand(lay, alloc, i, 0, UsedRegs(i.ops), 0);
      ghost var before: seq<Instr>, after: seq<Instr> := [], [];
      var size, used, pos := |code[at].ops|, UsedRegs(code[at].ops), at;
      next := at + 1;
      numReserved := 0;
      Begins(lay, alloc, code, at);
      for k := 0 to size
        invariant IsAt(code, front, before, i, after, rest, pos) && |i.ops| == size
        invariant next == at + |before| + 1 + |after| && |front| == at && maxNumReserved == old(maxNumReserved)
        invariant Left(lay, alloc, e, before, i, after, k, used, numReserved)
      {
        HasAt(code, front, before, i, after, rest, pos);
        if IsSpilled(alloc, code[pos].ops[k]) {
          ghost var was, n := code, numReserved;
          var a := SpillOperand(pos, k, used, alloc);
          before, i, after := OperandStep(lay, alloc, e, was, front, before, i, after, rest, pos, k, used, n);
          used := used + [a];
          pos, next := pos + 2, next + 4;
        } else {
          NotSpilled(lay, alloc, e, before, i, after, k, used, numReserved);
        }
      }
      Ends(lay, alloc, e, before, i, after, used, numReserved);
      if numReserved > maxNumReserved {
        maxNumReserved := numReserved;
      }
    }

    /** The second pass over the whole list. It leaves out the spill code itself, in which there is nothing
        to replace. */
    method RewriteSpilled(alloc: Allocation)
      modifies this`code, this`numReserved, this`maxNumReserved
      ensures code == SpillAll(lay, alloc, old(code)) && maxNumReserved == MaxSpill(lay, alloc, old(code), old(maxNumReserved))
    {
      ghost var was, max := code, maxNumReserved;
      var todo, pos := |code|, 0;
      assert code[..0] + SpillAll(lay, alloc, code[0..]) == SpillAll(lay, alloc, was) && code[0..] == was;
      while todo > 0
        invariant 0 <= todo && 0 <= pos && Halfway(lay, alloc, was, max, code, pos, todo, maxNumReserved)
      {
        ghost var before, now := code, maxNumReserved;
        var next := RewriteSpilledAt(pos, alloc);
        HalfwayStep(lay, alloc, was, max, before, code, pos, next, todo, now, maxNumReserved);
        pos, todo := next, todo - 1;
      }
      assert code[..pos] == code && code[pos..] == [];
    }

    /** One function: allocation, then the two passes. */
    method RewriteFunction(f: AsmFunction) returns (out: Output)
      requires lsra.Valid() && WellFormed(f.ranges) && |f.ranges| <= 0x4000_0000
      requires forall r :: r in lsra.FreeSet() ==> r in FREE_REGS
      modifies this, lsra
      ensures lsra.Valid() && lsra.FreeSet() <= old(lsra.FreeSet())
      ensures out.source == f && GoodFrom(lsra.ti, out, old(lsra.FreeSet()))
    {
      lsra.DoRegAlloc(f.ranges);
      var alloc := lsra.virtToAlloc;
      code, lay, maxNumReserved := f.code, Layout(f.localFrameSize, |lsra.spilled|), 0;
      RewriteVirtToPhys(alloc);
      RewriteSpilled(alloc);
      TwoPasses(lay, alloc, f.code);
      MaxSpillIsMax(lay, alloc, f.code, 0);
      out := Output(f, alloc, lay, code, maxNumReserved);
    }

    /** `rewrite`: one function after another, empty ones left alone. Registers still active at the end of a
        function stay taken, so that the free ones only become fewer; what each function gets is sound. */
    method Rewrite(functions: seq<AsmFunction>) returns (outs: seq<Output>, ghost frees: seq<set<Reg>>)
      requires lsra.Valid() && forall r :: r in lsra.FreeSet() ==> r in FREE_REGS
      requires forall f :: f in functions ==> WellFormed(f.ranges) && |f.ranges| <= 0x4000_0000
      modifies this, lsra
      ensures lsra.Valid() && lsra.FreeSet() <= old(lsra.FreeSet())
      ensures Sources(outs) == NonEmpty(functions) && (forall o :: o in outs ==> OutputOk(o))
      ensures AllocatedFrom(lsra.ti, outs, frees, old(lsra.FreeSet()))
    {
      outs, frees := [], [];
      for k := 0 to |functions|
        invariant lsra.Valid() && lsra.FreeSet() <= old(lsra.FreeSet())
        invariant Sources(outs) == NonEmpty(functions[..k]) && AllocatedFrom(lsra.ti, outs, frees, old(lsra.FreeSet()))
        invariant outs == [] ==> lsra.FreeSet() == old(lsra.FreeSet())
      {
        assert functions[k] in functions;
        NonEmptyNext(functions, k);
        if functions[k].code != [] {
          ghost var free := lsra.FreeSet();
          var out := RewriteFunction(functions[k]);
          SourcesNext(outs, out);
          NextAllocated(lsra.ti, outs, frees, old(lsra.FreeSet()), out, free);
          outs, frees := outs + [out], frees + [free];
        }
      }
      assert functions[..|functions|] == functions;
      AllocatedAreOk(lsra.ti, outs, frees, old(lsra.FreeSet()));
    }
  }

  /** The list with `todo` instructions left, from `pos` on. */
  ghost predicate Halfway(lay: Layout, alloc: Allocation, was: seq<Instr>, max: nat, code: seq<Instr>, pos: nat,
                          todo: nat, now: nat) {
    && pos + todo == |code|
    && code[..pos] + SpillAll(lay, alloc, code[pos..]) == SpillAll(lay, alloc, was)
    && MaxSpill(lay, alloc, code[pos..], now) == MaxSpill(lay, alloc, was, max)
  }

  lemma HalfwayStep(lay: Layout, alloc: Allocation, was: seq<Instr>, max: nat, code: seq<Instr>, code': seq<Instr>,
                    pos: nat, next: nat, todo: nat, now: nat, now': nat)
    requires todo > 0 && Halfway(lay, alloc, was, max, code, pos, todo, now)
    requires var e := Expand(lay, alloc, code[pos], 0, UsedRegs(code[pos].ops), 0);
             && code' == code[..pos] + Code(e) + code[pos + 1..] && next == pos + |Code(e)|
             && now' == if e.reserved > now then e.reserved else now
    ensures Halfway(lay, alloc, was, max, code', next, todo - 1, now')
  {
    var front, i, rest := code[..pos], code[pos], code[pos + 1..];
    var c := Code(Expand(lay, alloc, i, 0, UsedRegs(i.ops), 0));
    assert code[pos..] == [i] + rest && code[pos..][1..] == rest;
    assert code'[..next] == front + c && code'[next..] == rest;
    assert front + (c + SpillAll(lay, alloc, rest)) == (front + c) + SpillAll(lay, alloc, rest);
  }

  /** Like `MaxReserved`, on the result of the first pass and from a given maximum on. */
  function MaxSpill(lay: Layout, alloc: Allocation, code: seq<Instr>, max: nat): nat {
    if code == [] then max else
    var n := Expand(lay, alloc, code[0], 0, UsedRegs(code[0].ops), 0).reserved;
    MaxSpill(lay, alloc, code[1..], if n > max then n else max)
  }

  lemma {:induction false} MaxSpillIsMax(lay: Layout, alloc: Allocation, code: seq<Instr>, max: nat)
    ensures var n := MaxReserved(lay, alloc, code);
            MaxSpill(lay, alloc, ToPhysAll(alloc, code), max) == if n > max then n else max
  {
    if code != [] {
      assert ToPhysAll(alloc, code)[1..] == ToPhysAll(alloc, code[1..]);
      var n := Rewritten(lay, alloc, code[0]).reserved;
      MaxSpillIsMax(lay, alloc, code[1..], if n > max then n else max);
    }
  }

  /** Registers are allocated without interference, with a cell for every spilled register, and the code is the rewritten
      one. */
  ghost predicate OutputOk(o: Output) {
    && WellFormed(o.source.ranges) && NonInterfering(o.source.ranges, o.alloc) && AllocFits(o.lay, o.alloc)
    && o.lay.local == o.source.localFrameSize && o.code == RewrittenAll(o.lay, o.alloc, o.source.code)
    && o.reserved == MaxReserved(o.lay, o.alloc, o.source.code)
    && o.lay.spilled == |SpilledBy(Intervals(o.source.ranges), o.alloc)|
  }

  /** With the registers of `free`, no more is spilled than must be, in each call class, where the intervals are separable. */
  ghost predicate SpillsFewest(ti: TargetInfo, o: Output, free: set<Reg>) {
    WellFormed(o.source.ranges) &&
    (Separable(ti, Intervals(o.source.ranges), free, o.source.ranges.Keys) ==>
       forall across :: FewestOfClass(ti, Intervals(o.source.ranges), free, o.source.ranges.Keys, o.alloc, across))
  }

  ghost predicate GoodFrom(ti: TargetInfo, o: Output, free: set<Reg>) { OutputOk(o) && SpillsFewest(ti, o, free) }

  /** What each output was allocated from: the first from all registers, later ones from no others. */
  ghost predicate AllocatedFrom(ti: TargetInfo, outs: seq<Output>, frees: seq<set<Reg>>, free0: set<Reg>) {
    && |frees| == |outs| && (outs != [] ==> frees[0] == free0)
    && forall k :: 0 <= k < |outs| ==> GoodFrom(ti, outs[k], frees[k]) && frees[k] <= free0
  }

  lemma NextAllocated(ti: TargetInfo, outs: seq<Output>, frees: seq<set<Reg>>, free0: set<Reg>, out: Output, free: set<Reg>)
    requires AllocatedFrom(ti, outs, frees, free0) && GoodFrom(ti, out, free) && free <= free0
    requires outs == [] ==> free == free0
    ensures AllocatedFrom(ti, outs + [out], frees + [free], free0)
  {
  }

  lemma AllocatedAreOk(ti: TargetInfo, outs: seq<Output>, frees: seq<set<Reg>>, free0: set<Reg>)
    requires AllocatedFrom(ti, outs, frees, free0)
    ensures forall o :: o in outs ==> OutputOk(o)
  {
    forall o | o in outs ensures OutputOk(o) {
      var k :| 0 <= k < |outs| && outs[k] == o;
      assert GoodFrom(ti, outs[k], frees[k]);
    }
  }

  ghost predicate AllocFits(lay: Layout, alloc: Allocation) {
    forall v :: v in alloc ==>
      (IsPhysical(alloc[v]) && alloc[v] in FREE_REGS) || (IsStackSlot(alloc[v]) && StackSlot2Index(alloc[v]) < lay.spilled)
  }

  function Sources(outs: seq<Output>): seq<AsmFunction> {
    if outs == [] then [] else [outs[0].source] + Sources(outs[1..])
  }

  function NonEmpty(fs: seq<AsmFunction>): seq<AsmFunction> {
    if fs == [] then [] else (if fs[0].code == [] then [] else [fs[0]]) + NonEmpty(fs[1..])
  }

  lemma {:induction false} NonEmptyNext(fs: seq<AsmFunction>, k: nat)
    requires k < |fs|
    ensures NonEmpty(fs[..k + 1]) == NonEmpty(fs[..k]) + (if fs[k].code == [] then [] else [fs[k]])
  {
    if k > 0 {
      assert fs[..k + 1][1..] == fs[1..][..k] && fs[..k][1..] == fs[1..][..k - 1];
      NonEmptyNext(fs[1..], k - 1);
    }
  }

  lemma {:induction false} SourcesNext(outs: seq<Output>, o: Output)
    ensures Sources(outs + [o]) == Sources(outs) + [o.source]
  {
    if outs != [] {
      assert (outs + [o])[1..] == outs[1..] + [o];
      SourcesNext(outs[1..], o);
    }
  }

  /** Every function that `Rewrite` puts out ends, run as rewritten on a frame with the cells it asks for, with
      the memory that it ends with when run over virtual registers. */
  lemma OutputRuns(o: Output, fr: Frame, src: Machine, t: Machine)
    requires OutputOk(o) && fr.lay == o.lay && fr.reserved >= o.reserved
    requires CodeOk(o.source.ranges, o.source.code, 0) && RewriteProof.Starts(fr, o.source.ranges, src, t)
    requires ExecAll(fr, o.source.code, src).Some?
    ensures ExecAll(fr, o.code, t).Some?
    ensures SameMemory(fr, ExecAll(fr, o.source.code, src).value, ExecAll(fr, o.code, t).value)
    ensures SameNamed(o.source.ranges, ExecAll(fr, o.source.code, src).value, ExecAll(fr, o.code, t).value)
  {
    RewrittenRuns(fr, o.source.ranges, o.alloc, o.source.code, src, t);
  }

  /** What replacing an operand puts in the place of an instruction, and around it. */
  function SpillCodeFor(lay: Layout, alloc: Allocation, i: Instr, k: nat, a: Reg, n: nat): Expansion
    requires k < |i.ops| && IsSpilled(alloc, i.ops[k])
  {
    Wrapped(lay, a, StackSlot2Index(alloc[RegIn(i.ops[k])]), n, Expansion([], SetReg(i, k, a), [], n + 1))
  }

  function Inserted(code: seq<Instr>, pos: nat, e: Expansion): seq<Instr>
    requires pos < |code|
  {
    code[..pos] + e.before + [e.instr] + e.after + code[pos + 1..]
  }

  /** The instruction `i` stands at `pos`, with the spill code `before` and `after` around it. */
  ghost predicate IsAt(code: seq<Instr>, front: seq<Instr>, before: seq<Instr>, i: Instr, after: seq<Instr>,
                       rest: seq<Instr>, pos: nat) {
    code == front + (before + [i] + after) + rest && pos == |front| + |before|
  }

  /** Expanding from operand `k` on completes the expansion `e`. */
  ghost predicate Left(lay: Layout, alloc: Allocation, e: Expansion, before: seq<Instr>, i: Instr, after: seq<Instr>,
                       k: nat, used: seq<Reg>, n: nat) {
    var x := Expand(lay, alloc, i, k, used, n);
    Code(e) == before + Code(x) + after && e.reserved == x.reserved
  }

  lemma Begins(lay: Layout, alloc: Allocation, code: seq<Instr>, at: nat)
    requires at < |code|
    ensures IsAt(code, code[..at], [], code[at], [], code[at + 1..], at)
    ensures var i := code[at]; var used := UsedRegs(i.ops);
            Left(lay, alloc, Expand(lay, alloc, i, 0, used, 0), [], i, [], 0, used, 0)
  {
    var i := code[at];
    var x := Expand(lay, alloc, i, 0, UsedRegs(i.ops), 0);
    assert Code(x) == [] + Code(x) + [];
    assert code == code[..at] + ([] + [i] + []) + code[at + 1..];
  }

  lemma HasAt(code: seq<Instr>, front: seq<Instr>, before: seq<Instr>, i: Instr, after: seq<Instr>, rest: seq<Instr>,
              pos: nat)
    requires IsAt(code, front, before, i, after, rest, pos)
    ensures pos < |code| && code[pos] == i
  {
  }

  lemma NotSpilled(lay: Layout, alloc: Allocation, e: Expansion, before: seq<Instr>, i: Instr, after: seq<Instr>,
                   k: nat, used: seq<Reg>, n: nat)
    requires k < |i.ops| && !IsSpilled(alloc, i.ops[k]) && Left(lay, alloc, e, before, i, after, k, used, n)
    ensures Left(lay, alloc, e, before, i, after, k + 1, used, n)
  {
  }

  lemma Ends(lay: Layout, alloc: Allocation, e: Expansion, before: seq<Instr>, i: Instr, after: seq<Instr>,
             used: seq<Reg>, n: nat)
    requires Left(lay, alloc, e, before, i, after, |i.ops|, used, n)
    ensures Code(e) == before + [i] + after && e.reserved == n
  {
  }

  lemma OperandStep(lay: Layout, alloc: Allocation, e: Expansion, code: seq<Instr>, front: seq<Instr>,
                    before: seq<Instr>, i: Instr, after: seq<Instr>, rest: seq<Instr>, pos: nat, k: nat, used: seq<Reg>, n: nat)
    returns (before': seq<Instr>, i': Instr, after': seq<Instr>)
    requires IsAt(code, front, before, i, after, rest, pos)
    requires k < |i.ops| && IsSpilled(alloc, i.ops[k]) && Left(lay, alloc, e, before, i, after, k, used, n)
    ensures |before'| == |before| + 2 && |after'| == |after| + 2 && |i'.ops| == |i.ops|
    ensures Left(lay, alloc, e, before', i', after', k + 1, used + [Available(used)], n + 1)
    ensures pos < |code| && IsAt(Inserted(code, pos, SpillCodeFor(lay, alloc, i, k, Available(used), n)),
                                 front, before', i', after', rest, pos + 2)
  {
    var a := Available(used);
    var x := Expand(lay, alloc, SetReg(i, k, a), k + 1, used + [a], n + 1);
    var c := SpillCodeFor(lay, alloc, i, k, a, n);
    before', i', after' := before + c.before, c.instr, c.after + after;
    InsertedAround(front, before, i, after, rest, c.before, i', c.after, x);
  }

  /** Inserting code on both sides of an instruction inside a longer list. */
  lemma InsertedAround(front: seq<Instr>, before: seq<Instr>, i: Instr, after: seq<Instr>, rest: seq<Instr>,
                       b: seq<Instr>, i': Instr, a: seq<Instr>, x: Expansion)
    ensures var code := front + (before + [i] + after) + rest;
            var pos := |front| + |before|;
            && code[..pos] + b + [i'] + a + code[pos + 1..] == front + ((before + b) + [i'] + (a + after)) + rest
    ensures before + ((b + x.before) + [x.instr] + (x.after + a)) + after == (before + b) + Code(x) + (a + after)
  {
    var code := front + (before + [i] + after) + rest;
    var pos := |front| + |before|;
    assert code[..pos] == front + before && code[pos + 1..] == after + rest;
  }
}
