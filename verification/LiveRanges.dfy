/** Building live ranges while instructions are appended (src/codegen/asm/AsmBuilder.h,
    src/codegen/asm/RISCV/RISCVAsmBuilder.cpp): registers are touched at the index that the next instruction
    will have. */
module LiveRanges {
  import opened Registers

  /** An instruction, as far as live ranges go: the registers it names and whether it is a call. */
  datatype Item = Item(regs: seq<Reg>, call: bool)

  /** The function under construction; `calls` has the index behind every call. */
  datatype Builder = Builder(code: seq<Item>, calls: seq<nat>, ranges: RangesMap)

  const EMPTY: Builder := Builder([], [], map[])

  predicate SpansCall(calls: seq<nat>, start: nat, end: nat) { exists k :: 0 <= k < |calls| && start <= calls[k] < end }

  // ---------------------------------------------------------------------------------------------
  // Touching a register
  // ---------------------------------------------------------------------------------------------

  /** One range for a virtual register, from its first touch to behind its last. */
  function TouchedVirtual(rs: seq<LiveRange>, calls: seq<nat>, n: nat): seq<LiveRange> {
    var start, flag := if rs == [] then n else rs[|rs| - 1].start, rs != [] && rs[|rs| - 1].usedAcrossCall;
    var r := LiveRange(start, n + 1, flag || SpansCall(calls, start, n + 1));
    if rs == [] then [r] else rs[|rs| - 1 := r]
  }

  /** Ranges with holes for a physical register; a touch right behind the last range extends it. */
  function TouchedPhysical(rs: seq<LiveRange>, calls: seq<nat>, n: nat): seq<LiveRange> {
    if rs == [] then [LiveRange(n, n + 1, SpansCall(calls, n, n + 1))] else
    var last := rs[|rs| - 1];
    if last.start == n && last.end == n + 1 then
      rs[|rs| - 1 := last.(usedAcrossCall := last.usedAcrossCall || SpansCall(calls, n, n + 1))]
    else if last.end == n then
      rs[|rs| - 1 := LiveRange(last.start, n + 1, last.usedAcrossCall || SpansCall(calls, last.start, n + 1))]
    else rs + [LiveRange(n, n + 1, SpansCall(calls, n, n + 1))]
  }

  function RangesOf(m: RangesMap, r: Reg): seq<LiveRange> { if r in m then m[r] else [] }

  /** `updateRegLiveRanges`. */
  function Touched(b: Builder, r: Reg): Builder {
    var n, rs := |b.code|, RangesOf(b.ranges, r);
    if IsVirtual(r) then b.(ranges := b.ranges[r := TouchedVirtual(rs, b.calls, n)])
    else if IsPhysical(r) then b.(ranges := b.ranges[r := TouchedPhysical(rs, b.calls, n)])
    else b
  }

  function TouchedAll(b: Builder, rs: seq<Reg>): Builder
    decreases rs
  {
    if rs == [] then b else TouchedAll(Touched(b, rs[0]), rs[1..])
  }

  /** An instruction is appended; behind a call its index is noted. */
  function Appended(b: Builder, i: Item): Builder {
    var b' := b.(code := b.code + [i]);
    if i.call then b'.(calls := b'.calls + [|b'.code|]) else b'
  }

  /** The ways to create an instruction: most touch what they name and append it; ADDI with an immediate out of
      range touches its registers first, and becomes LI into a new register and ADD. */
  datatype Create = Plain(i: Item) | AddImmediate(dst: Reg, src: Reg, imm: int, temp: Reg)

  predicate FitsImmediate(imm: int) { -2048 <= imm <= 2047 }

  function CreatePlain(b: Builder, i: Item): Builder { Appended(TouchedAll(b, i.regs), i) }

  function Created(b: Builder, c: Create): Builder {
    match c
    case Plain(i) => CreatePlain(b, i)
    case AddImmediate(d, s, imm, temp) =>
      var b1 := TouchedAll(b, [d, s]);
      if FitsImmediate(imm) then Appended(b1, Item([d, s], false))
      else CreatePlain(CreatePlain(b1, Item([temp], false)), Item([d, s, temp], false))
  }

  function CreatedAll(b: Builder, cs: seq<Create>): Builder {
    if cs == [] then b else Created(CreatedAll(b, cs[..|cs| - 1]), cs[|cs| - 1])
  }

  // ---------------------------------------------------------------------------------------------
  // Ranges and touches
  // ---------------------------------------------------------------------------------------------

  /** The touches so far. */
  datatype Touch = Touch(reg: Reg, at: nat)

  ghost predicate InRange(rs: seq<LiveRange>, k: nat) { exists j :: 0 <= j < |rs| && rs[j].start <= k < rs[j].end }

  /** First and last touch of a register. */
  ghost predicate IsFirst(ts: set<Touch>, r: Reg, k: nat) { Touch(r, k) in ts && forall t :: t in ts && t.reg == r ==> k <= t.at }

  ghost predicate IsLast(ts: set<Touch>, r: Reg, k: nat) { Touch(r, k) in ts && forall t :: t in ts && t.reg == r ==> t.at <= k }

  /** A virtual register has one range, from its first to behind its last touch, flagged just when the index
      behind some call lies in it. */
  ghost predicate VirtualExact(b: Builder, ts: set<Touch>, v: Reg) {
    IsVirtual(v) && v in b.ranges ==>
      && |b.ranges[v]| == 1
      && var r := b.ranges[v][0];
      && r.start < r.end && IsFirst(ts, v, r.start) && IsLast(ts, v, r.end - 1)
      && r.usedAcrossCall == SpansCall(b.calls, r.start, r.end)
  }

  predicate FlagExact(b: Builder, r: LiveRange) { r.usedAcrossCall == SpansCall(b.calls, r.start, r.end) }

  /** The ranges of a physical register make up the indices at which it was touched, and each is flagged just when the index
      behind some call lies in it. */
  ghost predicate PhysicalExact(b: Builder, ts: set<Touch>, p: Reg) {
    IsPhysical(p) && p in b.ranges ==>
      && b.ranges[p] != [] && (forall j :: 0 <= j < |b.ranges[p]| ==> b.ranges[p][j].start < b.ranges[p][j].end)
      && (forall j :: 0 <= j < |b.ranges[p]| ==> FlagExact(b, b.ranges[p][j]))
      && forall k: nat {:trigger InRange(b.ranges[p], k)} {:trigger Touch(p, k)} :: InRange(b.ranges[p], k) <==> Touch(p, k) in ts
  }

  ghost predicate RegExact(b: Builder, ts: set<Touch>, r: Reg) {
    && VirtualExact(b, ts, r) && PhysicalExact(b, ts, r)
    && (r in b.ranges ==> IsVirtual(r) || IsPhysical(r))
    && (r in b.ranges <==> exists k :: Touch(r, k) in ts)
  }

  /** Ranges are exact, touches lie within the list or right behind it, and so do the notes about calls. */
  ghost predicate Exact(b: Builder, ts: set<Touch>) {
    && (forall r {:trigger RegExact(b, ts, r)} :: RegExact(b, ts, r))
    && (forall t :: t in ts ==> t.at <= |b.code| && (IsVirtual(t.reg) || IsPhysical(t.reg)))
  }

  lemma EmptyExact()
    ensures Exact(EMPTY, {})
  {
    forall r ensures RegExact(EMPTY, {}, r) {
    }
  }

  predicate Ranged(r: Reg) { IsVirtual(r) || IsPhysical(r) }

  function TouchOf(r: Reg, n: nat): set<Touch> { if Ranged(r) then {Touch(r, n)} else {} }

  function TouchesOf(rs: seq<Reg>, n: nat): set<Touch> { set r | r in rs && Ranged(r) :: Touch(r, n) }

  lemma TouchedVirtualExact(b: Builder, ts: set<Touch>, v: Reg)
    requires Exact(b, ts) && IsVirtual(v)
    ensures VirtualExact(Touched(b, v), ts + TouchOf(v, |b.code|), v)
  {
    assert RegExact(b, ts, v);
    var n, ts' := |b.code|, ts + TouchOf(v, |b.code|);
    var rs := RangesOf(b.ranges, v);
    if rs == [] {
      assert forall t :: t in ts' && t.reg == v ==> t.at == n;
    } else {
      var r := rs[0];
      assert r.end <= n + 1;
      if SpansCall(b.calls, r.start, r.end) {
        var k :| 0 <= k < |b.calls| && r.start <= b.calls[k] < r.end;
        assert r.start <= b.calls[k] < n + 1;
      }
    }
  }

  /** A touch adds its index to the ranges of a physical register, and nothing else. */
  lemma TouchedPhysicalRanges(rs: seq<LiveRange>, calls: seq<nat>, n: nat, k: nat)
    requires forall j :: 0 <= j < |rs| ==> rs[j].start < rs[j].end
    ensures InRange(TouchedPhysical(rs, calls, n), k) <==> InRange(rs, k) || k == n
    ensures TouchedPhysical(rs, calls, n) != []
    ensures forall j :: 0 <= j < |TouchedPhysical(rs, calls, n)| ==>
              TouchedPhysical(rs, calls, n)[j].start < TouchedPhysical(rs, calls, n)[j].end
  {
    var rs' := TouchedPhysical(rs, calls, n);
    if InRange(rs, k) {
      var j :| 0 <= j < |rs| && rs[j].start <= k < rs[j].end;
      assert rs'[j].start <= k < rs'[j].end;
    }
    if k == n {
      assert rs'[|rs'| - 1].start <= n < rs'[|rs'| - 1].end;
    }
    if InRange(rs', k) && k != n {
      var j :| 0 <= j < |rs'| && rs'[j].start <= k < rs'[j].end;
      assert j < |rs| && rs[j].start <= k < rs[j].end;
    }
  }

  lemma TouchedPhysicalExact(b: Builder, ts: set<Touch>, p: Reg)
    requires Exact(b, ts) && IsPhysical(p)
    ensures PhysicalExact(Touched(b, p), ts + TouchOf(p, |b.code|), p)
  {
    assert RegExact(b, ts, p);
    var n, rs := |b.code|, RangesOf(b.ranges, p);
    forall k: nat ensures InRange(TouchedPhysical(rs, b.calls, n), k) <==> Touch(p, k) in ts + TouchOf(p, n) {
      TouchedPhysicalRanges(rs, b.calls, n, k);
      if p in b.ranges {
        assert InRange(b.ranges[p], k) <==> Touch(p, k) in ts;
      }
    }
    TouchedPhysicalRanges(rs, b.calls, n, n);
  }

  lemma TouchedExact(b: Builder, ts: set<Touch>, r: Reg)
    requires Exact(b, ts)
    ensures Exact(Touched(b, r), ts + TouchOf(r, |b.code|)) && Touched(b, r).code == b.code && Touched(b, r).calls == b.calls
  {
    var b', ts' := Touched(b, r), ts + TouchOf(r, |b.code|);
    forall q ensures RegExact(b', ts', q) {
      assert RegExact(b, ts, q);
      if q == r && IsVirtual(r) {
        TouchedVirtualExact(b, ts, r);
        assert Touch(r, |b.code|) in ts';
      } else if q == r && IsPhysical(r) {
        TouchedPhysicalExact(b, ts, r);
        assert Touch(r, |b.code|) in ts';
      } else {
        OtherExact(b, ts, r, q);
      }
    }
  }

  lemma OtherExact(b: Builder, ts: set<Touch>, r: Reg, q: Reg)
    requires RegExact(b, ts, q) && (q != r || !Ranged(r))
    ensures RegExact(Touched(b, r), ts + TouchOf(r, |b.code|), q)
  {
    var b', ts' := Touched(b, r), ts + TouchOf(r, |b.code|);
    assert forall k :: Touch(q, k) in ts' <==> Touch(q, k) in ts;
  }

  lemma {:induction false} TouchedAllExact(b: Builder, ts: set<Touch>, rs: seq<Reg>)
    requires Exact(b, ts)
    ensures Exact(TouchedAll(b, rs), ts + TouchesOf(rs, |b.code|))
    ensures TouchedAll(b, rs).code == b.code && TouchedAll(b, rs).calls == b.calls
    decreases rs
  {
    if rs == [] {
      assert ts + TouchesOf(rs, |b.code|) == ts;
    } else {
      TouchedExact(b, ts, rs[0]);
      TouchedAllExact(Touched(b, rs[0]), ts + TouchOf(rs[0], |b.code|), rs[1..]);
      assert TouchesOf(rs, |b.code|) == TouchOf(rs[0], |b.code|) + TouchesOf(rs[1..], |b.code|) by {
        assert rs == [rs[0]] + rs[1..];
      }
      assert ts + TouchOf(rs[0], |b.code|) + TouchesOf(rs[1..], |b.code|) == ts + TouchesOf(rs, |b.code|);
    }
  }

  /** The index noted behind a call lies behind everything touched so far. */
  lemma AppendedExact(b: Builder, ts: set<Touch>, i: Item)
    requires Exact(b, ts)
    ensures Exact(Appended(b, i), ts)
  {
    var b' := Appended(b, i);
    forall r ensures RegExact(b', ts, r) {
      assert RegExact(b, ts, r);
      if IsVirtual(r) && r in b.ranges {
        var x := b.ranges[r][0];
        assert x.end - 1 <= |b.code|;
        CallBehind(b, b', x.start, x.end);
      }
      if IsPhysical(r) && r in b.ranges {
        forall j | 0 <= j < |b.ranges[r]| ensures FlagExact(b', b.ranges[r][j]) {
          FlagStays(b, b', ts, r, j);
        }
      }
    }
  }

  lemma FlagStays(b: Builder, b': Builder, ts: set<Touch>, p: Reg, j: nat)
    requires Exact(b, ts) && PhysicalExact(b, ts, p) && IsPhysical(p) && p in b.ranges && j < |b.ranges[p]|
    requires b'.calls == b.calls || b'.calls == b.calls + [|b.code| + 1]
    ensures FlagExact(b', b.ranges[p][j])
  {
    var x := b.ranges[p][j];
    assert FlagExact(b, x);
    assert InRange(b.ranges[p], x.end - 1) && Touch(p, x.end - 1) in ts;
    CallBehind(b, b', x.start, x.end);
  }

  lemma CallBehind(b: Builder, b': Builder, start: nat, end: nat)
    requires end <= |b.code| + 1 && (b'.calls == b.calls || b'.calls == b.calls + [|b.code| + 1])
    ensures SpansCall(b'.calls, start, end) == SpansCall(b.calls, start, end)
  {
    if SpansCall(b.calls, start, end) {
      var k :| 0 <= k < |b.calls| && start <= b.calls[k] < end;
      assert start <= b'.calls[k] < end;
    }
  }

  // ---------------------------------------------------------------------------------------------
  // Touches and occurrences
  // ---------------------------------------------------------------------------------------------

  predicate Occurs(code: seq<Item>, r: Reg, k: nat) { k < |code| && r in code[k].regs && Ranged(r) }

  function Occurrences(code: seq<Item>): set<Touch> {
    set k, r | 0 <= k < |code| && r in code[k].regs && Ranged(r) :: Touch(r, k)
  }

  lemma OccurrencesAppended(code: seq<Item>, i: Item)
    ensures Occurrences(code + [i]) == Occurrences(code) + TouchesOf(i.regs, |code|)
  {
    var code' := code + [i];
    forall t ensures t in Occurrences(code') <==> t in Occurrences(code) + TouchesOf(i.regs, |code|) {
      if t in Occurrences(code) {
        assert code'[t.at] == code[t.at];
      }
    }
  }

  lemma PlainExact(b: Builder, extra: set<Touch>, i: Item)
    requires Exact(b, Occurrences(b.code) + extra)
    ensures CreatePlain(b, i).code == b.code + [i] && Exact(CreatePlain(b, i), Occurrences(b.code + [i]) + extra)
    ensures CreatePlain(b, i).calls == if i.call then b.calls + [|b.code| + 1] else b.calls
  {
    var ts := Occurrences(b.code) + extra;
    TouchedAllExact(b, ts, i.regs);
    AppendedExact(TouchedAll(b, i.regs), ts + TouchesOf(i.regs, |b.code|), i);
    OccurrencesAppended(b.code, i);
    assert ts + TouchesOf(i.regs, |b.code|) == Occurrences(b.code + [i]) + extra;
  }

  /** The temporary is a new virtual register. */
  predicate CreateOk(c: Create) { c.AddImmediate? ==> IsVirtual(c.temp) && c.temp != c.dst && c.temp != c.src }

  predicate Splits(c: Create) { c.AddImmediate? && !FitsImmediate(c.imm) }

  /** What is touched at the index of an instruction that does not name it. */
  function ExtraOf(b: Builder, c: Create): set<Touch> { if Splits(c) then TouchesOf([c.dst, c.src], |b.code|) else {} }

  function CodeOf(c: Create): seq<Item> {
    match c
    case Plain(i) => [i]
    case AddImmediate(d, s, imm, temp) =>
      if FitsImmediate(imm) then [Item([d, s], false)] else [Item([temp], false), Item([d, s, temp], false)]
  }

  lemma CreatedExact(b: Builder, extra: set<Touch>, c: Create)
    requires Exact(b, Occurrences(b.code) + extra)
    ensures Created(b, c).code == b.code + CodeOf(c)
    ensures Exact(Created(b, c), Occurrences(Created(b, c).code) + (extra + ExtraOf(b, c)))
  {
    match c
    case Plain(i) =>
      PlainExact(b, extra, i);
      assert extra + {} == extra;
    case AddImmediate(d, s, imm, temp) =>
      if FitsImmediate(imm) {
        PlainExact(b, extra, Item([d, s], false));
        assert extra + {} == extra;
      } else {
        var touched := TouchesOf([d, s], |b.code|);
        var b1 := TouchedAll(b, [d, s]);
        TouchedAllExact(b, Occurrences(b.code) + extra, [d, s]);
        assert Occurrences(b.code) + extra + touched == Occurrences(b1.code) + (extra + touched);
        PlainExact(b1, extra + touched, Item([temp], false));
        PlainExact(CreatePlain(b1, Item([temp], false)), extra + touched, Item([d, s, temp], false));
        assert b.code + [Item([temp], false)] + [Item([d, s, temp], false)] == b.code + CodeOf(c);
      }
  }

  function Built(cs: seq<Create>): Builder { CreatedAll(EMPTY, cs) }

  function Extras(cs: seq<Create>): set<Touch> {
    if cs == [] then {} else
    var before := cs[..|cs| - 1];
    Extras(before) + ExtraOf(Built(before), cs[|cs| - 1])
  }

  /** After any sequence of creations, the ranges are exact about the touches: the occurrences in the code, and
      what the split ADDIs touch besides. */
  lemma {:induction false} BuiltExact(cs: seq<Create>)
    ensures Exact(Built(cs), Occurrences(Built(cs).code) + Extras(cs))
  {
    if cs == [] {
      EmptyExact();
      assert Occurrences(EMPTY.code) + Extras([]) == {};
    } else {
      var before := cs[..|cs| - 1];
      BuiltExact(before);
      CreatedExact(Built(before), Extras(before), cs[|cs| - 1]);
    }
  }

  // ---------------------------------------------------------------------------------------------
  // Calls
  // ---------------------------------------------------------------------------------------------

  predicate IsCallAt(code: seq<Item>, k: nat) { k < |code| && code[k].call }

  /** Just the indices behind calls are noted. */
  ghost predicate CallsNoted(b: Builder) {
    && (forall k :: 0 <= k < |b.calls| ==> b.calls[k] > 0 && IsCallAt(b.code, b.calls[k] - 1))
    && (forall k: nat {:trigger IsCallAt(b.code, k)} :: IsCallAt(b.code, k) ==> k + 1 in b.calls)
  }

  lemma {:induction false} TouchedAllCalls(b: Builder, rs: seq<Reg>)
    ensures TouchedAll(b, rs).code == b.code && TouchedAll(b, rs).calls == b.calls
    decreases rs
  {
    if rs != [] {
      TouchedAllCalls(Touched(b, rs[0]), rs[1..]);
    }
  }

  lemma AppendedNoted(b: Builder, i: Item)
    requires CallsNoted(b)
    ensures CallsNoted(Appended(b, i))
  {
    var b' := Appended(b, i);
    forall k: nat | IsCallAt(b'.code, k) ensures k + 1 in b'.calls {
      if k < |b.code| {
        assert IsCallAt(b.code, k);
      }
    }
    forall k | 0 <= k < |b'.calls| ensures b'.calls[k] > 0 && IsCallAt(b'.code, b'.calls[k] - 1) {
      if k < |b.calls| {
        assert IsCallAt(b.code, b.calls[k] - 1);
      }
    }
  }

  lemma CreatedNoted(b: Builder, c: Create)
    requires CallsNoted(b)
    ensures CallsNoted(Created(b, c))
  {
    match c
    case Plain(i) =>
      TouchedAllCalls(b, i.regs);
      AppendedNoted(TouchedAll(b, i.regs), i);
    case AddImmediate(d, s, imm, temp) =>
      var b1 := TouchedAll(b, [d, s]);
      TouchedAllCalls(b, [d, s]);
      if FitsImmediate(imm) {
        AppendedNoted(b1, Item([d, s], false));
      } else {
        var li, add := Item([temp], false), Item([d, s, temp], false);
        TouchedAllCalls(b1, [temp]);
        AppendedNoted(TouchedAll(b1, [temp]), li);
        TouchedAllCalls(CreatePlain(b1, li), [d, s, temp]);
        AppendedNoted(TouchedAll(CreatePlain(b1, li), [d, s, temp]), add);
      }
  }

  lemma {:induction false} BuiltNoted(cs: seq<Create>)
    ensures CallsNoted(Built(cs))
  {
    if cs != [] {
      BuiltNoted(cs[..|cs| - 1]);
      CreatedNoted(Built(cs[..|cs| - 1]), cs[|cs| - 1]);
    }
  }

  // ---------------------------------------------------------------------------------------------
  // What a function ends up with
  // ---------------------------------------------------------------------------------------------

  /** Every occurrence of a register lies in its ranges. */
  lemma OccurrencesCovered(cs: seq<Create>, r: Reg, k: nat)
    requires Occurs(Built(cs).code, r, k)
    ensures r in Built(cs).ranges && Built(cs).ranges[r] != [] && InRange(Built(cs).ranges[r], k)
    ensures IsVirtual(r) ==> |Built(cs).ranges[r]| == 1
  {
    var b, ts := Built(cs), Occurrences(Built(cs).code) + Extras(cs);
    BuiltExact(cs);
    assert Touch(r, k) in ts && RegExact(b, ts, r);
    if IsVirtual(r) {
      assert b.ranges[r][0].start <= k < b.ranges[r][0].end;
    }
  }

  /** Ranges are never empty. */
  lemma BuiltWellFormed(cs: seq<Create>)
    ensures WellFormed(Built(cs).ranges)
  {
    BuiltExact(cs);
    forall r | r in Built(cs).ranges
      ensures Built(cs).ranges[r] != []
      ensures forall k :: 0 <= k < |Built(cs).ranges[r]| ==> Built(cs).ranges[r][k].start < Built(cs).ranges[r][k].end
    {
      assert RegExact(Built(cs), Occurrences(Built(cs).code) + Extras(cs), r);
    }
  }

  lemma SpansIffCall(b: Builder, start: nat, end: nat)
    requires CallsNoted(b)
    ensures SpansCall(b.calls, start, end) <==> exists k: nat :: IsCallAt(b.code, k) && start <= k + 1 < end
  {
    if SpansCall(b.calls, start, end) {
      var j :| 0 <= j < |b.calls| && start <= b.calls[j] < end;
      assert IsCallAt(b.code, b.calls[j] - 1);
    }
    if k: nat :| IsCallAt(b.code, k) && start <= k + 1 < end {
      var j :| 0 <= j < |b.calls| && b.calls[j] == k + 1;
    }
  }

  /** A virtual register is flagged just when the index behind some call lies in its range. */
  lemma FlaggedIffSpansCall(cs: seq<Create>, v: Reg)
    requires IsVirtual(v) && v in Built(cs).ranges
    ensures |Built(cs).ranges[v]| == 1
    ensures var r := Built(cs).ranges[v][0];
            r.usedAcrossCall <==> exists k: nat :: IsCallAt(Built(cs).code, k) && r.start <= k + 1 < r.end
  {
    BuiltExact(cs);
    BuiltNoted(cs);
    assert RegExact(Built(cs), Occurrences(Built(cs).code) + Extras(cs), v);
    SpansIffCall(Built(cs), Built(cs).ranges[v][0].start, Built(cs).ranges[v][0].end);
  }

  /** So is each range of a physical register. */
  lemma PhysicalFlagged(cs: seq<Create>, p: Reg, j: nat)
    requires IsPhysical(p) && p in Built(cs).ranges && j < |Built(cs).ranges[p]|
    ensures var r := Built(cs).ranges[p][j];
            r.usedAcrossCall <==> exists k: nat :: IsCallAt(Built(cs).code, k) && r.start <= k + 1 < r.end
  {
    BuiltExact(cs);
    BuiltNoted(cs);
    assert RegExact(Built(cs), Occurrences(Built(cs).code) + Extras(cs), p);
    assert FlagExact(Built(cs), Built(cs).ranges[p][j]);
    SpansIffCall(Built(cs), Built(cs).ranges[p][j].start, Built(cs).ranges[p][j].end);
  }

  /** So a register that occurs at or before a call and behind it is flagged. */
  lemma LiveAcrossCallIsFlagged(cs: seq<Create>, v: Reg, j: nat, c: nat, k: nat)
    requires IsVirtual(v) && Occurs(Built(cs).code, v, j) && IsCallAt(Built(cs).code, c) && Occurs(Built(cs).code, v, k)
    requires j <= c < k
    ensures v in Built(cs).ranges && |Built(cs).ranges[v]| == 1 && Built(cs).ranges[v][0].usedAcrossCall
  {
    OccurrencesCovered(cs, v, j);
    OccurrencesCovered(cs, v, k);
    FlaggedIffSpansCall(cs, v);
  }

  // ---------------------------------------------------------------------------------------------
  // Where ranges are not what they are documented to be
  // ---------------------------------------------------------------------------------------------

  ghost predicate FirstOccurrence(code: seq<Item>, r: Reg, k: nat) {
    Occurs(code, r, k) && forall j: nat :: Occurs(code, r, j) ==> k <= j
  }

  ghost predicate LastOccurrence(code: seq<Item>, r: Reg, k: nat) {
    Occurs(code, r, k) && forall j: nat :: Occurs(code, r, j) ==> j <= k
  }

  predicate NamedIn(code: seq<Item>, r: Reg) { exists k :: 0 <= k < |code| && r in code[k].regs }

  /** An ADDI that is split names `r` before any instruction does. */
  predicate EarlyAt(cs: seq<Create>, i: nat, r: Reg) {
    i < |cs| && Splits(cs[i]) && (cs[i].dst == r || cs[i].src == r) && !NamedIn(Built(cs[..i]).code, r)
  }

  predicate SplitAt(cs: seq<Create>, i: nat, r: Reg) { i < |cs| && Splits(cs[i]) && (cs[i].dst == r || cs[i].src == r) }

  /** The part of the code that was there before creation `i`, and what comes behind it. */
  lemma {:induction false} CodeBefore(cs: seq<Create>, i: nat)
    requires i < |cs|
    ensures Built(cs[..i]).code + CodeOf(cs[i]) <= Built(cs).code
    decreases |cs|
  {
    var before := cs[..|cs| - 1];
    BuiltExact(before);
    CreatedExact(Built(before), Extras(before), cs[|cs| - 1]);
    if i < |cs| - 1 {
      CodeBefore(before, i);
      assert before[..i] == cs[..i] && before[i] == cs[i];
    } else {
      assert cs[..i] == before;
    }
  }

  /** Where an extra touch comes from. */
  lemma {:induction false} ExtraIsSplit(cs: seq<Create>, r: Reg, k: nat) returns (i: nat)
    requires Touch(r, k) in Extras(cs)
    ensures SplitAt(cs, i, r) && |Built(cs[..i]).code| == k && Ranged(r)
    decreases |cs|
  {
    var before := cs[..|cs| - 1];
    if Touch(r, k) in Extras(before) {
      i := ExtraIsSplit(before, r, k);
      assert before[..i] == cs[..i] && before[i] == cs[i];
    } else {
      i := |cs| - 1;
    }
  }

  lemma {:induction false} SplitIsExtra(cs: seq<Create>, r: Reg, i: nat)
    requires SplitAt(cs, i, r) && Ranged(r)
    ensures Touch(r, |Built(cs[..i]).code|) in Extras(cs)
    decreases |cs|
  {
    var before := cs[..|cs| - 1];
    if i < |cs| - 1 {
      assert before[..i] == cs[..i] && before[i] == cs[i];
      SplitIsExtra(before, r, i);
    }
  }

  /** The instruction at the index of a split ADDI is the LI of the temporary. */
  lemma SplitNamesTemp(cs: seq<Create>, i: nat, r: Reg)
    requires SplitAt(cs, i, r) && CreateOk(cs[i])
    ensures !Occurs(Built(cs).code, r, |Built(cs[..i]).code|)
    ensures Occurs(Built(cs).code, r, |Built(cs[..i]).code| + 1) <==> Ranged(r)
  {
    CodeBefore(cs, i);
    var front, c := Built(cs[..i]).code, CodeOf(cs[i]);
    assert (front + c)[|front|] == c[0] && (front + c)[|front| + 1] == c[1];
  }

  /** The range of a virtual register ends right behind its last occurrence. It starts at its first one just when
      no split ADDI was the first to name the register. */
  lemma RangeOfVirtual(cs: seq<Create>, v: Reg)
    requires IsVirtual(v) && v in Built(cs).ranges && forall i :: 0 <= i < |cs| ==> CreateOk(cs[i])
    ensures |Built(cs).ranges[v]| == 1 && Built(cs).ranges[v][0].end > 0
    ensures LastOccurrence(Built(cs).code, v, Built(cs).ranges[v][0].end - 1)
    ensures FirstOccurrence(Built(cs).code, v, Built(cs).ranges[v][0].start) <==> forall i: nat :: !EarlyAt(cs, i, v)
  {
    var b, ts := Built(cs), Occurrences(Built(cs).code) + Extras(cs);
    BuiltExact(cs);
    assert RegExact(b, ts, v);
    var r := b.ranges[v][0];
    forall j: nat | Occurs(b.code, v, j) ensures r.start <= j <= r.end - 1 {
      assert Touch(v, j) in ts;
    }
    if !Occurs(b.code, v, r.end - 1) {
      var i := ExtraIsSplit(cs, v, r.end - 1);
      SplitNamesTemp(cs, i, v);
      assert false;
    }
    if Occurs(b.code, v, r.start) {
      if i: nat :| EarlyAt(cs, i, v) {
        EarlyStart(cs, i, v, r.start);
      }
    } else {
      var i := ExtraIsSplit(cs, v, r.start);
      CodeBefore(cs, i);
      if NamedIn(Built(cs[..i]).code, v) {
        var k :| 0 <= k < |Built(cs[..i]).code| && v in Built(cs[..i]).code[k].regs;
        assert Occurs(b.code, v, k);
      }
      assert EarlyAt(cs, i, v);
    }
  }

  /** A range that starts early does not start at an occurrence. */
  lemma EarlyStart(cs: seq<Create>, i: nat, v: Reg, start: nat)
    requires IsVirtual(v) && EarlyAt(cs, i, v) && CreateOk(cs[i])
    requires forall k :: Touch(v, k) in Occurrences(Built(cs).code) + Extras(cs) ==> start <= k
    ensures !Occurs(Built(cs).code, v, start)
  {
    SplitIsExtra(cs, v, i);
    SplitNamesTemp(cs, i, v);
    CodeBefore(cs, i);
    var front := Built(cs[..i]).code;
    if start < |front| && Occurs(Built(cs).code, v, start) {
      assert false;
    }
  }

  /** The ranges of a physical register are its occurrences just when it was not given to a split ADDI. */
  lemma RangesOfPhysical(cs: seq<Create>, p: Reg)
    requires IsPhysical(p) && p in Built(cs).ranges && forall i :: 0 <= i < |cs| ==> CreateOk(cs[i])
    ensures (forall k: nat :: InRange(Built(cs).ranges[p], k) <==> Occurs(Built(cs).code, p, k))
            <==> forall i: nat :: !SplitAt(cs, i, p)
  {
    var b, ts := Built(cs), Occurrences(Built(cs).code) + Extras(cs);
    BuiltExact(cs);
    assert RegExact(b, ts, p);
    if i: nat :| SplitAt(cs, i, p) {
      SplitIsExtra(cs, p, i);
      SplitNamesTemp(cs, i, p);
      assert InRange(b.ranges[p], |Built(cs[..i]).code|);
    } else {
      forall k: nat ensures InRange(b.ranges[p], k) <==> Occurs(b.code, p, k) {
        assert InRange(b.ranges[p], k) <==> Touch(p, k) in ts;
        if Touch(p, k) in Extras(cs) {
          var i := ExtraIsSplit(cs, p, k);
        }
      }
    }
  }

  // ---------------------------------------------------------------------------------------------
  // The builder
  // ---------------------------------------------------------------------------------------------

  class AsmBuilder {
    var code: seq<Item>
    var currentCallInstIndexes: seq<nat>
    var regLiveRangesMap: RangesMap

    function View(): Builder
      reads this
    {
      Builder(code, currentCallInstIndexes, regLiveRangesMap)
    }

    constructor ()
      ensures View() == EMPTY
    {
      code, currentCallInstIndexes, regLiveRangesMap := [], [], map[];
    }

    method HasCallIn(start: nat, end: nat) returns (found: bool)
      ensures found == SpansCall(currentCallInstIndexes, start, end)
    {
      for k := 0 to |currentCallInstIndexes|
        invariant forall j :: 0 <= j < k ==> !(start <= currentCallInstIndexes[j] < end)
      {
        if start <= currentCallInstIndexes[k] < end {
          return true;
        }
      }
      return false;
    }

    method UpdateRegLiveRanges(reg: Reg)
      modifies this`regLiveRangesMap
      ensures View() == Touched(old(View()), reg)
    {
      var start, end := |code|, |code| + 1;
      var rs := RangesOf(regLiveRangesMap, reg);
      ghost var was := rs;
      if IsVirtual(reg) {
        if rs != [] {
          start := rs[|rs| - 1].start;
          rs := rs[|rs| - 1 := rs[|rs| - 1].(end := end)];
        } else {
          rs := [LiveRange(start, end, false)];
        }
      } else if IsPhysical(reg) {
        if rs != [] {
          var last := rs[|rs| - 1];
          if last.start == start && last.end == end {
          } else if last.end == start {
            rs := rs[|rs| - 1 := last.(end := end)];
            start := last.start;
          } else {
            rs := rs + [LiveRange(start, end, false)];
          }
        } else {
          rs := [LiveRange(start, end, false)];
        }
      } else {
        return;
      }
      var across := HasCallIn(start, end);
      if across {
        rs := rs[|rs| - 1 := rs[|rs| - 1].(usedAcrossCall := true)];
      }
      assert IsVirtual(reg) ==> rs == TouchedVirtual(was, currentCallInstIndexes, |code|);
      assert IsPhysical(reg) ==> rs == TouchedPhysical(was, currentCallInstIndexes, |code|);
      regLiveRangesMap := regLiveRangesMap[reg := rs];
    }

    method UpdateAll(regs: seq<Reg>)
      modifies this`regLiveRangesMap
      ensures View() == TouchedAll(old(View()), regs)
    {
      for k := 0 to |regs|
        invariant TouchedAll(View(), regs[k..]) == TouchedAll(old(View()), regs)
      {
        assert regs[k..][0] == regs[k] && regs[k..][1..] == regs[k + 1..];
        UpdateRegLiveRanges(regs[k]);
      }
    }

    /** The ranges come first, then the instruction, then the note about a call. */
    method CreateInst(i: Item)
      modifies this
      ensures View() == CreatePlain(old(View()), i)
    {
      UpdateAll(i.regs);
      code := code + [i];
      if i.call {
        currentCallInstIndexes := currentCallInstIndexes + [|code|];
      }
    }

    method CreateADDIInst(dst: Reg, src: Reg, imm: int, temp: Reg)
      modifies this
      ensures View() == Created(old(View()), AddImmediate(dst, src, imm, temp))
    {
      UpdateAll([dst, src]);
      if -2048 <= imm <= 2047 {
        code := code + [Item([dst, src], false)];
      } else {
        CreateInst(Item([temp], false));
        CreateInst(Item([dst, src, temp], false));
      }
    }
  }

  /** The range of the destination of a split ADDI can start before the register occurs. */
  method SplitAddiStartsEarly(dst: Reg, src: Reg, temp: Reg) returns (start: nat)
    requires IsVirtual(dst) && IsVirtual(src) && IsVirtual(temp) && dst != src && temp != dst && temp != src
    ensures start == 0
    ensures FirstOccurrence(Built([AddImmediate(dst, src, 2048, temp)]).code, dst, 1)
  {
    ghost var c := AddImmediate(dst, src, 2048, temp);
    var b := new AsmBuilder();
    b.CreateADDIInst(dst, src, 2048, temp);
    assert [c][..0] == [];
    assert Built([c]) == Created(Built([]), c) == b.View();
    CreatedExact(EMPTY, {}, c) by {
      EmptyExact();
      assert Occurrences(EMPTY.code) + {} == {};
    }
    assert b.code == [] + CodeOf(c);
    BuiltExact([c]);
    SplitIsExtra([c], dst, 0);
    assert RegExact(b.View(), Occurrences(b.code) + Extras([c]), dst);
    start := b.regLiveRangesMap[dst][0].start;
  }
}
