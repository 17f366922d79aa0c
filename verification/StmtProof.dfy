/** Statements: the graph that is generated for a program does what the program does. */
module StmtProof {
  import opened Ast
  import opened IrCodegen
  import opened ExprProof
  import opened Options
  import Ir

  // ---------------------------------------------------------------------------------------------
  // Parts of a graph
  // ---------------------------------------------------------------------------------------------

  predicate InsideAt(b: Builder, l: nat, g: Ir.Cfg) { l in b.blocks ==> l in g && Extended(b.blocks[l], g[l]) }

  /** The graph `g` was built on from `b`: finished blocks are as they were, the open one has been added to, and the
      frame has the slots for input that were asked for. */
  ghost predicate Inside(b: Builder, g: Ir.Cfg, frame: Ir.Frame) {
    b.slots <= frame.inputs && forall l: nat {:trigger InsideAt(b, l, g)} :: InsideAt(b, l, g)
  }

  lemma GrewInside(b: Builder, b': Builder, g: Ir.Cfg, frame: Ir.Frame)
    requires Grew(b, b') && Inside(b', g, frame)
    ensures Inside(b, g, frame)
  {
    forall l: nat ensures InsideAt(b, l, g) {
      assert Kept(b, b', l) && InsideAt(b', l, g);
    }
  }

  lemma MoveOnInside(b: Builder, term: Ir.Terminator, next: nat, g: Ir.Cfg, frame: Ir.Frame)
    requires Ok(b) && next !in b.blocks && Inside(MoveOn(b, term, next), g, frame)
    ensures Inside(b, g, frame)
  {
    forall l: nat ensures InsideAt(b, l, g) {
      assert Sealed(b, l) && InsideAt(MoveOn(b, term, next), l, g);
    }
  }

  lemma CreateInside(b: Builder, n: nat, g: Ir.Cfg, frame: Ir.Frame)
    requires Inside(Create(b, n), g, frame)
    ensures Inside(b, g, frame)
  {
    forall l: nat ensures InsideAt(b, l, g) {
      assert InsideAt(Create(b, n), l, g);
    }
  }

  /** The insertion point. */
  function Point(b: Builder, m: Ir.Machine): Ir.Config { Ir.Config(b.cur, |BlockAt(b, b.cur).instrs|, m) }

  lemma EmitRuns(b: Builder, code: seq<Ir.Instr>, t: nat, k: nat, g: Ir.Cfg, frame: Ir.Frame, m: Ir.Machine)
    requires Ok(b) && Inside(Emit(b, code, t, k), g, frame) && Ir.RunAll(code, frame, m).Some?
    ensures Ir.Reaches(g, frame, Point(b, m), Point(Emit(b, code, t, k), Ir.RunAll(code, frame, m).value))
  {
    var before := b.blocks[b.cur].instrs;
    assert InsideAt(Emit(b, code, t, k), b.cur, g);
    assert before + code <= g[b.cur].instrs;
    assert g[b.cur].instrs[|before|..|before| + |code|] == (before + code)[|before|..] == code;
    Ir.ReachesThrough(g, frame, b.cur, |before|, code, m);
  }

  /** The current block is empty so far. */
  predicate Starts(b: Builder, at: nat) { b.cur == at && BlockAt(b, at).instrs == [] }

  /** The graph ends the current block, as it is, with `term`. */
  predicate Finished(b: Builder, term: Ir.Terminator, g: Ir.Cfg) {
    b.cur in g && g[b.cur] == Ir.Block(BlockAt(b, b.cur).instrs, Some(term))
  }

  lemma MoveOnFinished(b: Builder, term: Ir.Terminator, next: nat, g: Ir.Cfg, frame: Ir.Frame)
    requires Ok(b) && next !in b.blocks && Inside(MoveOn(b, term, next), g, frame)
    ensures Finished(b, term, g) && Starts(MoveOn(b, term, next), next)
  {
    assert InsideAt(MoveOn(b, term, next), b.cur, g);
  }

  lemma JumpRuns(b: Builder, dest: nat, g: Ir.Cfg, frame: Ir.Frame, m: Ir.Machine)
    requires Finished(b, Ir.Br(dest), g)
    ensures Ir.Reaches(g, frame, Point(b, m), Ir.Config(dest, 0, m))
  {
    Ir.ReachesByStep(g, frame, Point(b, m), Ir.Config(dest, 0, m));
  }

  lemma BranchRuns(b: Builder, v: Ir.Value, n: int, ifTrue: nat, ifFalse: nat, g: Ir.Cfg, frame: Ir.Frame, m: Ir.Machine)
    requires Finished(b, Ir.CondBr(v, ifTrue, ifFalse), g) && Ir.ValueOf(v, frame, m) == Some(n)
    ensures Ir.Reaches(g, frame, Point(b, m), Ir.Config(if n != 0 then ifTrue else ifFalse, 0, m))
  {
    Ir.ReachesByStep(g, frame, Point(b, m), Ir.Config(if n != 0 then ifTrue else ifFalse, 0, m));
  }

  // ---------------------------------------------------------------------------------------------
  // Statements
  // ---------------------------------------------------------------------------------------------

  /** Same store, same input left, same output. */
  ghost predicate Matches(frame: Ir.Frame, st: State, m: Ir.Machine) {
    Holds(frame, st.mem, m) && m.input == st.input && m.output == st.output
  }

  lemma OutputRuns(env: Env, frame: Ir.Frame, s: Stmt, b: Builder, st: State, g: Ir.Cfg, m: Ir.Machine)
    returns (m': Ir.Machine)
    requires FrameFor(frame, env) && s.Output? && StmtOk(env.types, s) && Ok(b) && Matches(frame, st, m)
    requires Exec(env, s, st, 0).Some? && Inside(GenStmt(b, AnnotateStmt(env.types, s)), g, frame)
    ensures Matches(frame, Exec(env, s, st, 0).value, m')
    ensures Ir.Reaches(g, frame, Point(b, m), Point(GenStmt(b, AnnotateStmt(env.types, s)), m'))
  {
    var ge := GenExpr(Annotate(env.types, s.e, false), b.temps, b.slots);
    ExprComputes(env, frame, s.e, false, b.temps, b.slots, st.mem, m);
    var m1 := Ir.RunAll(ge.code, frame, m).value;
    Ir.RunConcat(ge.code, [Ir.Printf(ge.v)], frame, m);
    Ir.RunOne(Ir.Printf(ge.v), frame, m1);
    m' := Ir.RunAll(ge.code + [Ir.Printf(ge.v)], frame, m).value;
    EmitRuns(b, ge.code + [Ir.Printf(ge.v)], ge.temps, ge.slots, g, frame, m);
  }

  lemma AssignRuns(env: Env, frame: Ir.Frame, s: Stmt, b: Builder, st: State, g: Ir.Cfg, m: Ir.Machine)
    returns (m': Ir.Machine)
    requires FrameFor(frame, env) && s.Assign? && StmtOk(env.types, s) && Ok(b) && Matches(frame, st, m)
    requires Exec(env, s, st, 0).Some? && Inside(GenStmt(b, AnnotateStmt(env.types, s)), g, frame)
    ensures Matches(frame, Exec(env, s, st, 0).value, m')
    ensures Ir.Reaches(g, frame, Point(b, m), Point(GenStmt(b, AnnotateStmt(env.types, s)), m'))
  {
    var gr := GenExpr(Annotate(env.types, s.e, false), b.temps, b.slots);
    var rr := Value(env, s.e, st.mem, st.input).value;
    ExprComputes(env, frame, s.e, false, b.temps, b.slots, st.mem, m);
    var m1 := Ir.RunAll(gr.code, frame, m).value;
    var gl := GenExpr(Annotate(env.types, s.target, true), gr.temps, gr.slots);
    var rl := Address(env, s.target, st.mem, rr.input).value;
    ExprComputes(env, frame, s.target, true, gr.temps, gr.slots, st.mem, m1);
    BothCompute(frame, st.mem, m, gr, rr, gl, rl, b.temps);
    var store := Ir.Store(gr.v, gl.v);
    var m2 := Ir.RunAll(gr.code + gl.code, frame, m).value;
    Ir.RunConcat(gr.code + gl.code, [store], frame, m);
    Ir.RunOne(store, frame, m2);
    m' := m2.(mem := m2.mem[rl.value := rr.value]);
    StoreMatches(frame, st, m2, rl.value, rr.value);
    EmitRuns(b, gr.code + gl.code + [store], gl.temps, gl.slots, g, frame, m);
  }

  lemma StoreMatches(frame: Ir.Frame, st: State, m: Ir.Machine, a: int, n: int)
    requires Holds(frame, st.mem, m) && a in st.mem
    ensures Holds(frame, st.mem[a := n], m.(mem := m.mem[a := n]))
  {
  }

  /** Running a statement of the program, the graph gets from the insertion point before its code to the
      one behind it. */
  lemma {:induction false} StmtRuns(env: Env, frame: Ir.Frame, s: Stmt, b: Builder, st: State, fuel: nat, g: Ir.Cfg,
                                    m: Ir.Machine) returns (m': Ir.Machine)
    requires FrameFor(frame, env) && StmtOk(env.types, s) && Ok(b) && Matches(frame, st, m)
    requires Exec(env, s, st, fuel).Some? && Inside(GenStmt(b, AnnotateStmt(env.types, s)), g, frame)
    ensures Matches(frame, Exec(env, s, st, fuel).value, m')
    ensures Ir.Reaches(g, frame, Point(b, m), Point(GenStmt(b, AnnotateStmt(env.types, s)), m'))
    decreases fuel, s, 2
  {
    match s
    case Empty =>
      m' := m;
      Ir.ReachesSelf(g, frame, Point(b, m));
    case Output(_) => m' := OutputRuns(env, frame, s, b, st, g, m);
    case Block(ss) => m' := AllRun(env, frame, ss, b, st, fuel, g, m);
    case Assign(_, _) => m' := AssignRuns(env, frame, s, b, st, g, m);
    case If(_, _, _) => m' := IfRuns(env, frame, s, b, st, fuel, g, m);
    case While(_, _) => m' := WhileRuns(env, frame, s, b, st, fuel, g, m);
  }

  lemma {:induction false} AllRun(env: Env, frame: Ir.Frame, ss: seq<Stmt>, b: Builder, st: State, fuel: nat, g: Ir.Cfg,
                                  m: Ir.Machine) returns (m': Ir.Machine)
    requires FrameFor(frame, env) && Ok(b) && Matches(frame, st, m)
    requires forall k :: 0 <= k < |ss| ==> StmtOk(env.types, ss[k])
    requires ExecAll(env, ss, st, fuel).Some? && Inside(GenAll(b, AnnotateAll(env.types, ss)), g, frame)
    ensures Matches(frame, ExecAll(env, ss, st, fuel).value, m')
    ensures Ir.Reaches(g, frame, Point(b, m), Point(GenAll(b, AnnotateAll(env.types, ss)), m'))
    decreases fuel, ss, 0
  {
    if ss == [] {
      m' := m;
      Ir.ReachesSelf(g, frame, Point(b, m));
    } else {
      var first, rest := AnnotateStmt(env.types, ss[0]), AnnotateAll(env.types, ss[1..]);
      var b1 := GenStmt(b, first);
      assert AnnotateAll(env.types, ss)[1..] == rest;
      GenGrows(b, first);
      GenAllGrows(b1, rest);
      GrewInside(b1, GenAll(b1, rest), g, frame);
      var m1 := StmtRuns(env, frame, ss[0], b, st, fuel, g, m);
      m' := AllRun(env, frame, ss[1..], b1, Exec(env, ss[0], st, fuel).value, fuel, g, m1);
      Ir.ReachesTrans(g, frame, Point(b, m), Point(b1, m1), Point(GenAll(b1, rest), m'));
    }
  }

  // ---------------------------------------------------------------------------------------------
  // Branches
  // ---------------------------------------------------------------------------------------------

  function AfterCond(st: State, r: Result): State { st.(input := r.input) }

  /** A condition, and the branch that it decides. */
  lemma CondRuns(b: Builder, g0: Gen, r: Result, new_: nat, ifTrue: nat, ifFalse: nat, next: nat,
                 begun: Builder, g: Ir.Cfg, frame: Ir.Frame, mem: Memory, m: Ir.Machine)
    requires Ok(b) && Computes(frame, mem, m, g0, r, b.temps) && b.labels <= next < b.labels + new_ && b.slots <= g0.slots
    requires begun == MoveOn(Create(EmitGen(b, g0), new_), Ir.CondBr(g0.v, ifTrue, ifFalse), next) && Inside(begun, g, frame)
    ensures Ir.Reaches(g, frame, Point(b, m),
                       Ir.Config(if r.value != 0 then ifTrue else ifFalse, 0, Ir.RunAll(g0.code, frame, m).value))
  {
    var b1 := EmitGen(b, g0);
    var term := Ir.CondBr(g0.v, ifTrue, ifFalse);
    var m' := Ir.RunAll(g0.code, frame, m).value;
    EmitGrows(b, g0.code, g0.temps, g0.slots);
    CreateGrows(b1, new_);
    NewLabel(b1, next);
    MoveOnInside(Create(b1, new_), term, next, g, frame);
    MoveOnFinished(Create(b1, new_), term, next, g, frame);
    CreateInside(b1, new_, g, frame);
    EmitRuns(b, g0.code, g0.temps, g0.slots, g, frame, m);
    BranchRuns(b1, g0.v, r.value, ifTrue, ifFalse, g, frame, m');
    Ir.ReachesTrans(g, frame, Point(b, m), Point(b1, m'), Ir.Config(if r.value != 0 then ifTrue else ifFalse, 0, m'));
  }

  lemma CondSlots(b: Builder, c: AExpr)
    ensures BeginIf(b, c).slots == GenIfCond(c, b.temps, b.slots).slots >= GenExpr(c, b.temps, b.slots).slots
    ensures BeginWhile(b, c).slots == GenWhileCond(c, b.temps, b.slots).slots >= GenExpr(c, b.temps, b.slots).slots
    ensures GenIfCond(c, b.temps, b.slots).slots >= b.slots && GenWhileCond(c, b.temps, b.slots).slots >= b.slots
  {
  }

  /** The condition's code, run in the frame of the whole. */
  lemma CondComputes(env: Env, frame: Ir.Frame, c: Expr, b: Builder, st: State, m: Ir.Machine) returns (n: int)
    requires FrameFor(frame, env) && ConditionOk(env.types, c) && Matches(frame, st, m)
    requires Value(env, c, st.mem, st.input).Some?
    requires GenExpr(Annotate(env.types, c, false), b.temps, b.slots).slots <= frame.inputs
    ensures var r, a := Value(env, c, st.mem, st.input).value, Annotate(env.types, c, false);
            && (n != 0 <==> r.value != 0)
            && CondState(frame, st, r, m, GenIfCond(a, b.temps, b.slots), n, b.temps)
            && CondState(frame, st, r, m, GenWhileCond(a, b.temps, b.slots), n, b.temps)
  {
    n := ConditionComputes(env, frame, c, b.temps, b.slots, st.mem, m);
  }

  ghost predicate CondState(frame: Ir.Frame, st: State, r: Result, m: Ir.Machine, g0: Gen, n: int, t: nat) {
    Computes(frame, st.mem, m, g0, Result(n, r.input), t) && Matches(frame, AfterCond(st, r), Ir.RunAll(g0.code, frame, m).value)
  }

  lemma IfCondStep(b: Builder, a: AExpr, g0: Gen, n: int, r: Result, st: State, g: Ir.Cfg, frame: Ir.Frame, m: Ir.Machine)
    returns (m': Ir.Machine)
    requires Ok(b) && g0 == GenIfCond(a, b.temps, b.slots) && g0.slots >= b.slots && Inside(BeginIf(b, a), g, frame)
    requires CondState(frame, st, r, m, g0, n, b.temps) && (n != 0 <==> r.value != 0)
    ensures Matches(frame, AfterCond(st, r), m')
    ensures Ir.Reaches(g, frame, Point(b, m), Ir.Config(b.labels + (if r.value != 0 then THEN else ELSE), 0, m'))
  {
    m' := Ir.RunAll(g0.code, frame, m).value;
    CondRuns(b, g0, Result(n, r.input), 3, b.labels + THEN, b.labels + ELSE, b.labels + THEN, BeginIf(b, a), g, frame, st.mem, m);
  }

  lemma IfCondRuns(env: Env, frame: Ir.Frame, c: Expr, b: Builder, st: State, r: Result, g: Ir.Cfg, m: Ir.Machine)
    returns (m': Ir.Machine)
    requires FrameFor(frame, env) && ConditionOk(env.types, c) && Ok(b) && Matches(frame, st, m)
    requires Value(env, c, st.mem, st.input) == Some(r) && Inside(BeginIf(b, Annotate(env.types, c, false)), g, frame)
    ensures Matches(frame, AfterCond(st, r), m')
    ensures Ir.Reaches(g, frame, Point(b, m), Ir.Config(b.labels + (if r.value != 0 then THEN else ELSE), 0, m'))
  {
    var a := Annotate(env.types, c, false);
    var g0 := GenIfCond(a, b.temps, b.slots);
    CondSlots(b, a);
    var n := CondComputes(env, frame, c, b, st, m);
    m' := IfCondStep(b, a, g0, n, r, st, g, frame, m);
  }

  /** A part of a statement, ended by a jump, is inside what comes after it. */
  lemma PartInside(b1: Builder, b2: Builder, term: Ir.Terminator, next: nat, g: Ir.Cfg, frame: Ir.Frame)
    requires Ok(b2) && Grew(b1, b2) && next !in b2.blocks && Inside(MoveOn(b2, term, next), g, frame)
    ensures Inside(b1, g, frame) && Inside(b2, g, frame) && Finished(b2, term, g) && Starts(MoveOn(b2, term, next), next)
  {
    MoveOnInside(b2, term, next, g, frame);
    MoveOnFinished(b2, term, next, g, frame);
    GrewInside(b1, b2, g, frame);
  }

  function GenElse(b3: Builder, f: Option<AStmt>): Builder { if f.Some? then GenStmt(b3, f.value) else b3 }

  /** The states of the builder between the parts of an `if`. */
  lemma IfParts(b: Builder, s: AStmt, g: Ir.Cfg, frame: Ir.Frame) returns (b1: Builder, b3: Builder)
    requires Ok(b) && s.IfStmt? && Inside(GenIf(b, s), g, frame)
    ensures b1 == BeginIf(b, s.cond) && Inside(b1, g, frame)
    ensures Ok(b1) && Starts(b1, b.labels + THEN) && Ok(b3) && Starts(b3, b.labels + ELSE)
    ensures Inside(GenStmt(b1, s.thenStmt), g, frame) && Finished(GenStmt(b1, s.thenStmt), Ir.Br(b.labels + MERGE), g)
    ensures Inside(GenElse(b3, s.elseStmt), g, frame) && Finished(GenElse(b3, s.elseStmt), Ir.Br(b.labels + MERGE), g)
    ensures Starts(GenIf(b, s), b.labels + MERGE)
  {
    var merge := b.labels + MERGE;
    b1 := BeginIf(b, s.cond);
    var b2 := GenStmt(b1, s.thenStmt);
    b3 := BeginElse(b, b2);
    BeginIfGrows(b, s.cond);
    GenGrows(b1, s.thenStmt);
    BeginElseGrows(b, s.cond, b2);
    ElseGrows(b3, s.elseStmt, merge);
    PartInside(b3, GenElse(b3, s.elseStmt), Ir.Br(merge), merge, g, frame);
    PartInside(b1, b2, Ir.Br(merge), b.labels + ELSE, g, frame);
  }

  lemma ElseGrows(b3: Builder, f: Option<AStmt>, merge: nat)
    requires Ok(b3) && merge < b3.labels && merge !in b3.blocks
    ensures Ok(GenElse(b3, f)) && Grew(b3, GenElse(b3, f)) && merge !in GenElse(b3, f).blocks
  {
    if f.Some? {
      GenGrows(b3, f.value);
      assert Kept(b3, GenElse(b3, f), merge);
    } else {
      CreateGrows(b3, 0);
    }
  }

  /** After a part of a statement, the jump to what comes next. */
  lemma JoinRuns(p0: Ir.Config, p1: Ir.Config, b: Builder, dest: nat, g: Ir.Cfg, frame: Ir.Frame, m: Ir.Machine)
    requires Ir.Reaches(g, frame, p0, p1) && Ir.Reaches(g, frame, p1, Point(b, m)) && Finished(b, Ir.Br(dest), g)
    ensures Ir.Reaches(g, frame, p0, Ir.Config(dest, 0, m))
  {
    JumpRuns(b, dest, g, frame, m);
    Ir.ReachesTrans(g, frame, p0, p1, Point(b, m));
    Ir.ReachesTrans(g, frame, p0, Point(b, m), Ir.Config(dest, 0, m));
  }

  function AnnotateElse(types: Types, f: Option<Stmt>): Option<AStmt> {
    if f.Some? then Some(AnnotateStmt(types, f.value)) else None
  }

  /** The condition of an `if`, up to the beginning of the case that it selects. */
  lemma IfHeadRuns(env: Env, frame: Ir.Frame, s: Stmt, b: Builder, st: State, g: Ir.Cfg, m: Ir.Machine)
    returns (b1: Builder, b3: Builder, m1: Ir.Machine)
    requires FrameFor(frame, env) && s.If? && ConditionOk(env.types, s.cond) && Ok(b) && Matches(frame, st, m)
    requires Value(env, s.cond, st.mem, st.input).Some? && Inside(GenIf(b, AnnotateStmt(env.types, s)), g, frame)
    ensures CasesReady(env, frame, s, b1, b3, b.labels + MERGE, g) && Starts(GenIf(b, AnnotateStmt(env.types, s)), b.labels + MERGE)
    ensures Matches(frame, AfterCond(st, Value(env, s.cond, st.mem, st.input).value), m1)
    ensures Ir.Reaches(g, frame, Point(b, m),
                       Ir.Config(if Value(env, s.cond, st.mem, st.input).value.value != 0 then b1.cur else b3.cur, 0, m1))
  {
    b1, b3 := IfParts(b, AnnotateStmt(env.types, s), g, frame);
    m1 := IfCondRuns(env, frame, s.cond, b, st, Value(env, s.cond, st.mem, st.input).value, g, m);
  }

  /** Both cases of an `if` are in the graph, from the builders `b1` and `b3` on, and end in a jump to `merge`. */
  ghost predicate CasesReady(env: Env, frame: Ir.Frame, s: Stmt, b1: Builder, b3: Builder, merge: nat, g: Ir.Cfg)
    requires s.If?
  {
    && Ok(b1) && Starts(b1, b1.cur) && Ok(b3) && Starts(b3, b3.cur)
    && var t, f := AnnotateStmt(env.types, s.thenStmt), AnnotateElse(env.types, s.elseStmt);
    && Inside(GenStmt(b1, t), g, frame) && Finished(GenStmt(b1, t), Ir.Br(merge), g)
    && Inside(GenElse(b3, f), g, frame) && Finished(GenElse(b3, f), Ir.Br(merge), g)
  }

  lemma {:induction false} IfRuns(env: Env, frame: Ir.Frame, s: Stmt, b: Builder, st: State, fuel: nat, g: Ir.Cfg,
                                  m: Ir.Machine) returns (m': Ir.Machine)
    requires FrameFor(frame, env) && s.If? && StmtOk(env.types, s) && Ok(b) && Matches(frame, st, m)
    requires Exec(env, s, st, fuel).Some? && Inside(GenIf(b, AnnotateStmt(env.types, s)), g, frame)
    ensures Matches(frame, Exec(env, s, st, fuel).value, m')
    ensures Ir.Reaches(g, frame, Point(b, m), Point(GenIf(b, AnnotateStmt(env.types, s)), m'))
    decreases fuel, s, 1
  {
    var b1, b3, m1 := IfHeadRuns(env, frame, s, b, st, g, m);
    m' := CasesRun(env, frame, s, b1, b3, b.labels + MERGE, st, fuel, g, Point(b, m), m1);
  }

  /** From the beginning of the case that the condition selects to what comes behind the `if`. */
  lemma {:induction false} CasesRun(env: Env, frame: Ir.Frame, s: Stmt, b1: Builder, b3: Builder, merge: nat, st: State, fuel: nat,
                                    g: Ir.Cfg, from: Ir.Config, m: Ir.Machine) returns (m': Ir.Machine)
    requires FrameFor(frame, env) && s.If? && StmtOk(env.types, s) && CasesReady(env, frame, s, b1, b3, merge, g)
    requires Exec(env, s, st, fuel).Some? && Matches(frame, AfterCond(st, Value(env, s.cond, st.mem, st.input).value), m)
    requires Ir.Reaches(g, frame, from,
                        Ir.Config(if Value(env, s.cond, st.mem, st.input).value.value != 0 then b1.cur else b3.cur, 0, m))
    ensures Matches(frame, Exec(env, s, st, fuel).value, m') && Ir.Reaches(g, frame, from, Ir.Config(merge, 0, m'))
    decreases fuel, s, 0
  {
    var r := Value(env, s.cond, st.mem, st.input).value;
    if r.value != 0 {
      m' := ThenRuns(env, frame, s.thenStmt, b1, merge, AfterCond(st, r), fuel, g, from, m);
    } else {
      m' := ElseRuns(env, frame, s.elseStmt, b3, merge, AfterCond(st, r), fuel, g, from, m);
    }
  }

  /** A statement that stands at the beginning of a block, with a jump behind it. */
  lemma {:induction false} ThenRuns(env: Env, frame: Ir.Frame, s: Stmt, b: Builder, dest: nat, st: State, fuel: nat,
                                    g: Ir.Cfg, from: Ir.Config, m: Ir.Machine) returns (m': Ir.Machine)
    requires FrameFor(frame, env) && StmtOk(env.types, s) && Ok(b) && Starts(b, b.cur) && Matches(frame, st, m)
    requires Exec(env, s, st, fuel).Some? && Inside(GenStmt(b, AnnotateStmt(env.types, s)), g, frame)
    requires Finished(GenStmt(b, AnnotateStmt(env.types, s)), Ir.Br(dest), g)
    requires Ir.Reaches(g, frame, from, Ir.Config(b.cur, 0, m))
    ensures Matches(frame, Exec(env, s, st, fuel).value, m') && Ir.Reaches(g, frame, from, Ir.Config(dest, 0, m'))
    decreases fuel, s, 3
  {
    m' := StmtRuns(env, frame, s, b, st, fuel, g, m);
    JoinRuns(from, Point(b, m), GenStmt(b, AnnotateStmt(env.types, s)), dest, g, frame, m');
  }

  function ExecElse(env: Env, f: Option<Stmt>, st: State, fuel: nat): Option<State> {
    if f.Some? then Exec(env, f.value, st, fuel) else Some(st)
  }

  lemma {:induction false} ElseRuns(env: Env, frame: Ir.Frame, f: Option<Stmt>, b: Builder, dest: nat, st: State, fuel: nat,
                                    g: Ir.Cfg, from: Ir.Config, m: Ir.Machine) returns (m': Ir.Machine)
    requires FrameFor(frame, env) && (f.Some? ==> StmtOk(env.types, f.value)) && Ok(b) && Starts(b, b.cur)
    requires Matches(frame, st, m) && ExecElse(env, f, st, fuel).Some?
    requires Inside(GenElse(b, AnnotateElse(env.types, f)), g, frame)
    requires Finished(GenElse(b, AnnotateElse(env.types, f)), Ir.Br(dest), g)
    requires Ir.Reaches(g, frame, from, Ir.Config(b.cur, 0, m))
    ensures Matches(frame, ExecElse(env, f, st, fuel).value, m') && Ir.Reaches(g, frame, from, Ir.Config(dest, 0, m'))
    decreases fuel, f, 4
  {
    if f.Some? {
      m' := ThenRuns(env, frame, f.value, b, dest, st, fuel, g, from, m);
    } else {
      m' := m;
      JumpRuns(b, dest, g, frame, m);
      Ir.ReachesTrans(g, frame, from, Point(b, m), Ir.Config(dest, 0, m));
    }
  }

  // ---------------------------------------------------------------------------------------------
  // Loops
  // ---------------------------------------------------------------------------------------------

  lemma WhileCondStep(b: Builder, a: AExpr, g0: Gen, n: int, r: Result, st: State, g: Ir.Cfg, frame: Ir.Frame, m: Ir.Machine)
    returns (m': Ir.Machine)
    requires Ok(b) && g0 == GenWhileCond(a, b.temps, b.slots) && g0.slots >= b.slots && Inside(BeginWhile(b, a), g, frame)
    requires CondState(frame, st, r, m, g0, n, b.temps) && (n != 0 <==> r.value != 0)
    ensures Matches(frame, AfterCond(st, r), m')
    ensures Ir.Reaches(g, frame, Ir.Config(b.labels + COND, 0, m),
                       Ir.Config(b.labels + (if r.value != 0 then BODY else END), 0, m'))
  {
    m' := Ir.RunAll(g0.code, frame, m).value;
    BeginLoopGrows(b);
    assert Point(BeginLoop(b), m) == Ir.Config(b.labels + COND, 0, m);
    CondRuns(BeginLoop(b), g0, Result(n, r.input), 2, b.labels + BODY, b.labels + END, b.labels + BODY, BeginWhile(b, a),
             g, frame, st.mem, m);
  }

  lemma WhileCondRuns(env: Env, frame: Ir.Frame, c: Expr, b: Builder, st: State, r: Result, g: Ir.Cfg, m: Ir.Machine)
    returns (m': Ir.Machine)
    requires FrameFor(frame, env) && ConditionOk(env.types, c) && Ok(b) && Matches(frame, st, m)
    requires Value(env, c, st.mem, st.input) == Some(r) && Inside(BeginWhile(b, Annotate(env.types, c, false)), g, frame)
    ensures Matches(frame, AfterCond(st, r), m')
    ensures Ir.Reaches(g, frame, Ir.Config(b.labels + COND, 0, m),
                       Ir.Config(b.labels + (if r.value != 0 then BODY else END), 0, m'))
  {
    var a := Annotate(env.types, c, false);
    var g0 := GenWhileCond(a, b.temps, b.slots);
    CondSlots(b, a);
    var n := CondComputes(env, frame, c, b, st, m);
    m' := WhileCondStep(b, a, g0, n, r, st, g, frame, m);
  }

  /** The states of the builder between the parts of a `while`. */
  lemma WhileParts(b: Builder, s: AStmt, g: Ir.Cfg, frame: Ir.Frame) returns (b1: Builder)
    requires Ok(b) && s.WhileStmt? && Inside(GenWhile(b, s), g, frame)
    ensures b1 == BeginWhile(b, s.cond) && Inside(b1, g, frame) && Inside(BeginLoop(b), g, frame)
    ensures Ok(b1) && Starts(b1, b.labels + BODY)
    ensures Inside(GenStmt(b1, s.body), g, frame) && Finished(GenStmt(b1, s.body), Ir.Br(b.labels + COND), g)
    ensures Starts(GenWhile(b, s), b.labels + END)
  {
    b1 := BeginWhile(b, s.cond);
    var b2 := GenStmt(b1, s.body);
    BeginWhileGrows(b, s.cond);
    GenGrows(b1, s.body);
    assert Kept(b1, b2, b.labels + END);
    PartInside(b1, b2, Ir.Br(b.labels + COND), b.labels + END, g, frame);
    GrewInside(BeginLoop(b), b1, g, frame);
  }

  lemma {:induction false} WhileRuns(env: Env, frame: Ir.Frame, s: Stmt, b: Builder, st: State, fuel: nat, g: Ir.Cfg,
                                     m: Ir.Machine) returns (m': Ir.Machine)
    requires FrameFor(frame, env) && s.While? && StmtOk(env.types, s) && Ok(b) && Matches(frame, st, m)
    requires Exec(env, s, st, fuel).Some? && Inside(GenWhile(b, AnnotateStmt(env.types, s)), g, frame)
    ensures Matches(frame, Exec(env, s, st, fuel).value, m')
    ensures Ir.Reaches(g, frame, Point(b, m), Point(GenWhile(b, AnnotateStmt(env.types, s)), m'))
    decreases fuel, s, 1
  {
    var b1 := WhileParts(b, AnnotateStmt(env.types, s), g, frame);
    LoopIsEntered(b, g, frame, m);
    m' := LoopRuns(env, frame, s, b, b1, st, fuel, g, Point(b, m), m);
  }

  lemma LoopIsEntered(b: Builder, g: Ir.Cfg, frame: Ir.Frame, m: Ir.Machine)
    requires Ok(b) && Inside(BeginLoop(b), g, frame)
    ensures Ir.Reaches(g, frame, Point(b, m), Ir.Config(b.labels + COND, 0, m))
  {
    CreateGrows(b, 1);
    NewLabel(b, b.labels + COND);
    MoveOnFinished(Create(b, 1), Ir.Br(b.labels + COND), b.labels + COND, g, frame);
    JumpRuns(Create(b, 1), b.labels + COND, g, frame, m);
  }

  /** Round the loop, from the block of the condition to the block behind the loop. */
  lemma {:induction false} LoopRuns(env: Env, frame: Ir.Frame, s: Stmt, b: Builder, b1: Builder, st: State, fuel: nat,
                                    g: Ir.Cfg, from: Ir.Config, m: Ir.Machine) returns (m': Ir.Machine)
    requires FrameFor(frame, env) && s.While? && StmtOk(env.types, s) && Ok(b) && Matches(frame, st, m)
    requires Exec(env, s, st, fuel).Some? && Inside(BeginWhile(b, Annotate(env.types, s.cond, false)), g, frame)
    requires Ok(b1) && Starts(b1, b.labels + BODY) && Inside(GenStmt(b1, AnnotateStmt(env.types, s.body)), g, frame)
    requires Finished(GenStmt(b1, AnnotateStmt(env.types, s.body)), Ir.Br(b.labels + COND), g)
    requires Ir.Reaches(g, frame, from, Ir.Config(b.labels + COND, 0, m))
    ensures Matches(frame, Exec(env, s, st, fuel).value, m')
    ensures Ir.Reaches(g, frame, from, Ir.Config(b.labels + END, 0, m'))
    decreases fuel, s, 0
  {
    var r := Value(env, s.cond, st.mem, st.input).value;
    m' := LoopHeadRuns(env, frame, s.cond, b, st, g, from, m);
    if r.value != 0 {
      m' := BodyRuns(env, frame, s, b, b1, AfterCond(st, r), fuel - 1, g, from, m');
    }
  }

  lemma LoopHeadRuns(env: Env, frame: Ir.Frame, c: Expr, b: Builder, st: State, g: Ir.Cfg, from: Ir.Config, m: Ir.Machine)
    returns (m': Ir.Machine)
    requires FrameFor(frame, env) && ConditionOk(env.types, c) && Ok(b) && Matches(frame, st, m)
    requires Value(env, c, st.mem, st.input).Some? && Inside(BeginWhile(b, Annotate(env.types, c, false)), g, frame)
    requires Ir.Reaches(g, frame, from, Ir.Config(b.labels + COND, 0, m))
    ensures Matches(frame, AfterCond(st, Value(env, c, st.mem, st.input).value), m')
    ensures Ir.Reaches(g, frame, from,
                       Ir.Config(b.labels + (if Value(env, c, st.mem, st.input).value.value != 0 then BODY else END), 0, m'))
  {
    m' := WhileCondRuns(env, frame, c, b, st, Value(env, c, st.mem, st.input).value, g, m);
    var taken := b.labels + if Value(env, c, st.mem, st.input).value.value != 0 then BODY else END;
    Ir.ReachesTrans(g, frame, from, Ir.Config(b.labels + COND, 0, m), Ir.Config(taken, 0, m'));
  }

  /** The body, and round again. */
  lemma {:induction false} BodyRuns(env: Env, frame: Ir.Frame, s: Stmt, b: Builder, b1: Builder, st: State, fuel: nat,
                                    g: Ir.Cfg, from: Ir.Config, m: Ir.Machine) returns (m': Ir.Machine)
    requires FrameFor(frame, env) && s.While? && StmtOk(env.types, s) && Ok(b) && Matches(frame, st, m)
    requires Exec(env, s.body, st, fuel).Some? && Exec(env, s, Exec(env, s.body, st, fuel).value, fuel).Some?
    requires Inside(BeginWhile(b, Annotate(env.types, s.cond, false)), g, frame)
    requires Ok(b1) && Starts(b1, b.labels + BODY) && Inside(GenStmt(b1, AnnotateStmt(env.types, s.body)), g, frame)
    requires Finished(GenStmt(b1, AnnotateStmt(env.types, s.body)), Ir.Br(b.labels + COND), g)
    requires Ir.Reaches(g, frame, from, Ir.Config(b.labels + BODY, 0, m))
    ensures Matches(frame, Exec(env, s, Exec(env, s.body, st, fuel).value, fuel).value, m')
    ensures Ir.Reaches(g, frame, from, Ir.Config(b.labels + END, 0, m'))
    decreases fuel, s, 1
  {
    m' := ThenRuns(env, frame, s.body, b1, b.labels + COND, st, fuel, g, from, m);
    m' := LoopRuns(env, frame, s, b, b1, Exec(env, s.body, st, fuel).value, fuel, g, from, m');
  }
}
