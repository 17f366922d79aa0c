/** The order in which a function lists its blocks (src/codegen/ir/IRCodeGeneratorImpl.cpp:389-475): each is inserted at the
    end when its turn comes. */
module BlockOrder {
  import opened Ast
  import opened IrCodegen
  import Ir

  function TargetsOf(term: Ir.Terminator): set<nat> {
    match term
    case Br(dest) => {dest}
    case CondBr(_, ifTrue, ifFalse) => {ifTrue, ifFalse}
  }

  predicate JumpsTo(b: Builder, l: nat, at: nat) {
    l in b.blocks && b.blocks[l].term.Some? && at in TargetsOf(b.blocks[l].term.value)
  }

  /** A block of the function jumps there. */
  ghost predicate Called(b: Builder, at: nat) { exists j :: 0 <= j < |b.layout| && JumpsTo(b, b.layout[j], at) }

  ghost predicate LedTo(b: Builder, k: nat) {
    k < |b.layout| ==> exists j :: 0 <= j < k && JumpsTo(b, b.layout[j], b.layout[k])
  }

  /** Every block but the first is jumped to from one before it, so that the first leads to all, and the block left open is
      last. */
  ghost predicate InOrder(b: Builder) {
    b.layout != [] && b.layout[|b.layout| - 1] == b.cur && forall k: nat {:trigger LedTo(b, k)} :: k > 0 ==> LedTo(b, k)
  }

  /** From one state of the builder to a later one: blocks are only added, at the end, and under new labels. */
  ghost predicate Appends(b: Builder, b': Builder) {
    b.layout <= b'.layout && forall k :: |b.layout| <= k < |b'.layout| ==> b.labels <= b'.layout[k]
  }

  lemma AppendsTrans(b: Builder, b1: Builder, b2: Builder)
    requires Appends(b, b1) && Appends(b1, b2) && b.labels <= b1.labels
    ensures Appends(b, b2)
  {
    forall k | |b.layout| <= k < |b2.layout| ensures b.labels <= b2.layout[k] {
      if k < |b1.layout| {
        assert b2.layout[k] == b1.layout[k];
      }
    }
  }

  predicate FinishedAt(b: Builder, b': Builder, l: nat) {
    l in b.blocks && b.blocks[l].term.Some? ==> l in b'.blocks && b'.blocks[l] == b.blocks[l]
  }

  /** Finished blocks stay. */
  ghost predicate Keeps(b: Builder, b': Builder) { forall l: nat {:trigger FinishedAt(b, b', l)} :: FinishedAt(b, b', l) }

  lemma GrewKeeps(b: Builder, b': Builder)
    requires Grew(b, b')
    ensures Keeps(b, b')
  {
    forall l: nat ensures FinishedAt(b, b', l) {
      assert Kept(b, b', l);
    }
  }

  lemma MoveOnKeeps(b: Builder, term: Ir.Terminator, next: nat)
    requires Ok(b) && next !in b.blocks
    ensures Keeps(b, MoveOn(b, term, next))
  {
    assert Sealed(b, b.cur);
    forall l: nat ensures FinishedAt(b, MoveOn(b, term, next), l) {
    }
  }

  lemma JumpStays(b: Builder, b': Builder, l: nat, at: nat)
    requires Keeps(b, b') && JumpsTo(b, l, at)
    ensures JumpsTo(b', l, at)
  {
    assert FinishedAt(b, b', l);
  }

  lemma CalledStays(b: Builder, b': Builder, at: nat)
    requires Keeps(b, b') && b.layout <= b'.layout && Called(b, at)
    ensures Called(b', at)
  {
    var j :| 0 <= j < |b.layout| && JumpsTo(b, b.layout[j], at);
    JumpStays(b, b', b.layout[j], at);
    assert b'.layout[j] == b.layout[j];
  }

  lemma LedToStays(b: Builder, b': Builder, k: nat)
    requires Keeps(b, b') && b.layout <= b'.layout && k < |b.layout| && LedTo(b, k)
    ensures LedTo(b', k)
  {
    var j :| 0 <= j < k && JumpsTo(b, b.layout[j], b.layout[k]);
    JumpStays(b, b', b.layout[j], b.layout[k]);
    assert b'.layout[j] == b.layout[j] && b'.layout[k] == b.layout[k];
  }

  /** More code, and labels for blocks to come. */
  lemma SameLayout(b: Builder, b': Builder)
    requires InOrder(b) && Keeps(b, b') && b'.layout == b.layout && b'.cur == b.cur
    ensures InOrder(b') && Appends(b, b')
  {
    forall k: nat | k > 0 ensures LedTo(b', k) {
      if k < |b.layout| {
        assert LedTo(b, k);
        LedToStays(b, b', k);
      }
    }
  }

  /** The next block is one that has been jumped to. */
  lemma MoveOnInOrder(b: Builder, term: Ir.Terminator, next: nat)
    requires Ok(b) && InOrder(b) && next !in b.blocks
    requires next in TargetsOf(term) || Called(b, next)
    ensures InOrder(MoveOn(b, term, next)) && MoveOn(b, term, next).layout == b.layout + [next]
    ensures forall at :: at in TargetsOf(term) ==> Called(MoveOn(b, term, next), at)
  {
    var b', n := MoveOn(b, term, next), |b.layout|;
    MoveOnKeeps(b, term, next);
    assert Sealed(b, b.cur) && b'.layout[n - 1] == b.cur;
    forall at | at in TargetsOf(term) ensures JumpsTo(b', b'.layout[n - 1], at) {
    }
    if next !in TargetsOf(term) {
      var j :| 0 <= j < |b.layout| && JumpsTo(b, b.layout[j], next);
      JumpStays(b, b', b.layout[j], next);
      assert b'.layout[j] == b.layout[j] && b'.layout[n] == next;
    }
    assert LedTo(b', n);
    forall k: nat | k > 0 ensures LedTo(b', k) {
      if k < n {
        assert LedTo(b, k);
        LedToStays(b, b', k);
      }
    }
  }

  // ---------------------------------------------------------------------------------------------
  // Statements
  // ---------------------------------------------------------------------------------------------

  lemma CodeInOrder(b: Builder, code: seq<Ir.Instr>, temps: nat, slots: nat)
    requires Ok(b) && InOrder(b) && b.slots <= slots
    ensures InOrder(Emit(b, code, temps, slots)) && Appends(b, Emit(b, code, temps, slots))
  {
    EmitGrows(b, code, temps, slots);
    GrewKeeps(b, Emit(b, code, temps, slots));
    SameLayout(b, Emit(b, code, temps, slots));
  }

  lemma {:induction false} GenInOrder(b: Builder, s: AStmt)
    requires Ok(b) && InOrder(b)
    ensures InOrder(GenStmt(b, s)) && Appends(b, GenStmt(b, s))
    decreases s, 1
  {
    match s
    case EmptyStmt =>
    case OutputStmt(e) =>
      var g := GenOutput(e, b.temps, b.slots);
      CodeInOrder(b, g.code, g.temps, g.slots);
    case BlockStmt(ss) => GenAllInOrder(b, ss);
    case AssignmentStmt(l, r) =>
      var g := GenAssignment(l, r, b.temps, b.slots);
      CodeInOrder(b, g.code, g.temps, g.slots);
    case IfStmt(_, _, _) => var ts, es := IfInOrder(b, s);
    case WhileStmt(_, _) => var ts := WhileInOrder(b, s);
  }

  lemma {:induction false} GenAllInOrder(b: Builder, ss: seq<AStmt>)
    requires Ok(b) && InOrder(b)
    ensures InOrder(GenAll(b, ss)) && Appends(b, GenAll(b, ss))
    decreases ss, 0
  {
    if ss != [] {
      GenGrows(b, ss[0]);
      GenInOrder(b, ss[0]);
      GenAllInOrder(GenStmt(b, ss[0]), ss[1..]);
      AppendsTrans(b, GenStmt(b, ss[0]), GenAll(b, ss));
    }
  }

  lemma BeginIfInOrder(b: Builder, c: AExpr)
    requires Ok(b) && InOrder(b)
    ensures InOrder(BeginIf(b, c)) && BeginIf(b, c).layout == b.layout + [b.labels + THEN] && Called(BeginIf(b, c), b.labels + ELSE)
  {
    var g := GenIfCond(c, b.temps, b.slots);
    CodeInOrder(b, g.code, g.temps, g.slots);
    EmitGrows(b, g.code, g.temps, g.slots);
    CreateInOrder(EmitGen(b, g), 3);
    NewLabel(EmitGen(b, g), b.labels + THEN);
    MoveOnInOrder(Create(EmitGen(b, g), 3), Ir.CondBr(g.v, b.labels + THEN, b.labels + ELSE), b.labels + THEN);
  }

  lemma CreateInOrder(b: Builder, n: nat)
    requires Ok(b) && InOrder(b)
    ensures InOrder(Create(b, n)) && Ok(Create(b, n))
  {
    CreateGrows(b, n);
    GrewKeeps(b, Create(b, n));
    SameLayout(b, Create(b, n));
  }

  /** A part of a statement, between two blocks: what it inserts stands between them. */
  lemma PartInOrder(b1: Builder, b2: Builder, term: Ir.Terminator, next: nat, low: nat) returns (ls: seq<nat>)
    requires Grew(b1, b2) && Ok(b2) && InOrder(b2) && Appends(b1, b2) && next !in b2.blocks && low <= b1.labels
    requires next in TargetsOf(term) || Called(b1, next)
    ensures InOrder(MoveOn(b2, term, next)) && MoveOn(b2, term, next).layout == b1.layout + ls + [next]
    ensures forall l :: l in ls ==> l >= low
    ensures forall at :: at in TargetsOf(term) ==> Called(MoveOn(b2, term, next), at)
  {
    ls := b2.layout[|b1.layout|..];
    if next !in TargetsOf(term) {
      GrewKeeps(b1, b2);
      CalledStays(b1, b2, next);
    }
    MoveOnInOrder(b2, term, next);
    forall l | l in ls ensures l >= low {
      var k :| 0 <= k < |ls| && ls[k] == l;
      assert b2.layout[|b1.layout| + k] == l;
    }
  }

  /** `if`: the block of the first case, what it inserts, the block of the second case, what it inserts, the join. What the
      cases insert has labels of its own. */
  lemma {:induction false} IfInOrder(b: Builder, s: AStmt) returns (ts: seq<nat>, es: seq<nat>)
    requires Ok(b) && InOrder(b) && s.IfStmt?
    ensures InOrder(GenStmt(b, s)) && Appends(b, GenStmt(b, s))
    ensures GenStmt(b, s).layout == b.layout + [b.labels + THEN] + ts + [b.labels + ELSE] + es + [b.labels + MERGE]
    ensures forall l :: l in ts + es ==> l >= b.labels + 3
    decreases s, 0, 1
  {
    ts := ThenInOrder(b, s);
    es := ElseInOrder(b, s);
    NewBlocks(b, GenIf(b, s), [b.labels + THEN] + ts + [b.labels + ELSE] + es + [b.labels + MERGE]);
  }

  /** The builder at the beginning of the second case. */
  function AtElse(b: Builder, s: AStmt): Builder
    requires s.IfStmt?
  {
    BeginElse(b, GenStmt(BeginIf(b, s.cond), s.thenStmt))
  }

  lemma {:induction false} ThenInOrder(b: Builder, s: AStmt) returns (ts: seq<nat>)
    requires Ok(b) && InOrder(b) && s.IfStmt?
    ensures Ok(AtElse(b, s)) && InOrder(AtElse(b, s)) && Called(AtElse(b, s), b.labels + MERGE)
    ensures AtElse(b, s).layout == b.layout + [b.labels + THEN] + ts + [b.labels + ELSE]
    ensures b.labels + MERGE !in AtElse(b, s).blocks && AtElse(b, s).labels >= b.labels + 3
    ensures forall l :: l in ts ==> l >= b.labels + 3
    decreases s.thenStmt, 2
  {
    var b1 := BeginIf(b, s.cond);
    BeginIfGrows(b, s.cond);
    BeginIfInOrder(b, s.cond);
    var b2 := GenStmt(b1, s.thenStmt);
    GenGrows(b1, s.thenStmt);
    GenInOrder(b1, s.thenStmt);
    BeginElseGrows(b, s.cond, b2);
    ts := PartInOrder(b1, b2, Ir.Br(b.labels + MERGE), b.labels + ELSE, b.labels + 3);
  }

  lemma {:induction false} ElseInOrder(b: Builder, s: AStmt) returns (es: seq<nat>)
    requires s.IfStmt? && Ok(AtElse(b, s)) && InOrder(AtElse(b, s))
    requires b.labels + MERGE !in AtElse(b, s).blocks && AtElse(b, s).labels >= b.labels + 3
    ensures InOrder(GenIf(b, s)) && GenIf(b, s).layout == AtElse(b, s).layout + es + [b.labels + MERGE]
    ensures forall l :: l in es ==> l >= b.labels + 3
    decreases s, 0, 0
  {
    var merge := b.labels + MERGE;
    var b3 := AtElse(b, s);
    var b4 := if s.elseStmt.Some? then GenStmt(b3, s.elseStmt.value) else b3;
    if s.elseStmt.Some? {
      GenGrows(b3, s.elseStmt.value);
      GenInOrder(b3, s.elseStmt.value);
      assert Kept(b3, b4, merge);
    } else {
      CreateGrows(b3, 0);
      assert Create(b3, 0) == b3;
    }
    es := PartInOrder(b3, b4, Ir.Br(merge), merge, b.labels + 3);
  }

  lemma NewBlocks(b: Builder, b': Builder, ls: seq<nat>)
    requires b'.layout == b.layout + ls && forall l :: l in ls ==> l >= b.labels
    ensures Appends(b, b')
  {
    forall k | |b.layout| <= k < |b'.layout| ensures b.labels <= b'.layout[k] {
      assert b'.layout[k] == ls[k - |b.layout|] && ls[k - |b.layout|] in ls;
    }
  }

  lemma BeginWhileInOrder(b: Builder, c: AExpr)
    requires Ok(b) && InOrder(b)
    ensures InOrder(BeginWhile(b, c)) && BeginWhile(b, c).layout == b.layout + [b.labels + COND, b.labels + BODY]
    ensures Called(BeginWhile(b, c), b.labels + END)
  {
    CreateInOrder(b, 1);
    NewLabel(b, b.labels + COND);
    MoveOnInOrder(Create(b, 1), Ir.Br(b.labels + COND), b.labels + COND);
    var b1 := BeginLoop(b);
    BeginLoopGrows(b);
    var g := GenWhileCond(c, b.temps, b.slots);
    CodeInOrder(b1, g.code, g.temps, g.slots);
    EmitGrows(b1, g.code, g.temps, g.slots);
    CreateInOrder(EmitGen(b1, g), 2);
    NewLabel(EmitGen(b1, g), b.labels + BODY);
    MoveOnInOrder(Create(EmitGen(b1, g), 2), Ir.CondBr(g.v, b.labels + BODY, b.labels + END), b.labels + BODY);
  }

  /** `while`: the block of the condition, that of the body, what the body inserts, the block behind the loop. */
  lemma {:induction false} WhileInOrder(b: Builder, s: AStmt) returns (ts: seq<nat>)
    requires Ok(b) && InOrder(b) && s.WhileStmt?
    ensures InOrder(GenStmt(b, s)) && Appends(b, GenStmt(b, s))
    ensures GenStmt(b, s).layout == b.layout + [b.labels + COND, b.labels + BODY] + ts + [b.labels + END]
    ensures forall l :: l in ts ==> l >= b.labels + 3
    decreases s, 0
  {
    BeginWhileGrows(b, s.cond);
    BeginWhileInOrder(b, s.cond);
    ts := BodyInOrder(b, BeginWhile(b, s.cond), s.body);
  }

  /** A loop from the beginning of its body on. */
  lemma {:induction false} BodyInOrder(b: Builder, b1: Builder, body: AStmt) returns (ts: seq<nat>)
    requires Ok(b1) && InOrder(b1) && b1.layout == b.layout + [b.labels + COND, b.labels + BODY]
    requires Called(b1, b.labels + END) && b.labels + END !in b1.blocks && b.labels + 3 == b1.labels
    ensures var b' := MoveOn(GenStmt(b1, body), Ir.Br(b.labels + COND), b.labels + END);
            && InOrder(b') && Appends(b, b')
            && b'.layout == b.layout + [b.labels + COND, b.labels + BODY] + ts + [b.labels + END]
    ensures forall l :: l in ts ==> l >= b.labels + 3
    decreases body, 2
  {
    var b2 := GenStmt(b1, body);
    GenGrows(b1, body);
    GenInOrder(b1, body);
    assert Kept(b1, b2, b.labels + END);
    ts := PartInOrder(b1, b2, Ir.Br(b.labels + COND), b.labels + END, b.labels + 3);
    NewBlocks(b, MoveOn(b2, Ir.Br(b.labels + COND), b.labels + END),
              [b.labels + COND, b.labels + BODY] + ts + [b.labels + END]);
  }

  lemma EntryInOrder()
    ensures InOrder(ENTRY)
  {
    forall k: nat | k > 0 ensures LedTo(ENTRY, k) {
    }
  }
}
