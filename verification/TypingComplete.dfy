/** The constraints of a well-typed program have a solution, so that the analysis turns down well-typed programs for
    array lengths only. */
module TypingComplete {
  import opened Types
  import opened Partitions
  import opened TypeAnalysis
  import opened Typing
  import opened TypingProof

  type Assignment = nat -> Type

  function Put(s: Assignment, n: nat, t: Type): Assignment { (k: nat) => if k == n then t else s(k) }

  /** The type can be given to the expression. */
  predicate Wanted(v: Verdict, want: Type) { !v.IllTyped? && (v.Known? ==> want == Decayed(v.ty)) }

  function Want(v: Verdict): Type { if v.Known? then Decayed(v.ty) else IntType }

  /** The assignment satisfies the constraints of the expression and gives it the type. */
  ghost predicate Gives(s: Assignment, e: Expr, want: Type) { SatisfiedBy(s, OfExpr(e)) && Value(s, NodeType(e)) == want }

  lemma GivesFrame(s: Assignment, s': Assignment, e: Expr, want: Type)
    requires GroundExpr(e) && Gives(s, e, want) && SameOn(s, s', Ids(e))
    ensures Gives(s', e, want)
  {
    ExprAbout(e);
    SatisfiedFrame(s, s', OfExpr(e), Ids(e));
    NodeVars(e);
    ValueFrame(s, s', NodeType(e));
  }

  lemma BothSatisfied(s: Assignment, a: seq<Constraint>, b: seq<Constraint>)
    requires SatisfiedBy(s, a) && SatisfiedBy(s, b)
    ensures SatisfiedBy(s, a + b)
  {
  }

  predicate IsLeaf(e: Expr) { !e.Deref? && !e.Subscript? && !e.Binary? && !e.Call? }

  lemma LeafGiven(e: Expr, want: Type, base: Assignment) returns (s: Assignment)
    requires IsLeaf(e) && GroundExpr(e) && Wanted(Infer(e), want)
    ensures Gives(s, e, want) && SameOff(base, s, Ids(e))
  {
    if e.DeclRef? {
      s := base;
      GroundValue(s, e.ty);
    } else {
      s := Put(base, e.id, want);
      if e.AddrOf? {
        GroundValue(s, e.ty);
      }
    }
  }

  /** An expression that is not ill-typed can be given every type that its verdict allows. */
  lemma {:induction false} ExprGiven(e: Expr, want: Type, base: Assignment) returns (s: Assignment)
    requires GroundExpr(e) && Distinct(e) && Wanted(Infer(e), want)
    ensures Gives(s, e, want) && SameOff(base, s, Ids(e))
    decreases e, 1
  {
    match e
    case Deref(n, p) =>
      var s1 := ExprGiven(p, PointerType(want), base);
      s := Put(s1, n, want);
      GivesFrame(s1, s, p, PointerType(want));
      BothSatisfied(s, OfExpr(p), Own(e));
    case Subscript(_, _, _) => s := SubscriptGiven(e, want, base);
    case Binary(_, _, _, _) => s := BinaryGiven(e, want, base);
    case Call(_, _, _) => s := CallGiven(e, want, base);
    case _ => s := LeafGiven(e, want, base);
  }

  lemma {:induction false} SubscriptGiven(e: Expr, want: Type, base: Assignment) returns (s: Assignment)
    requires e.Subscript? && GroundExpr(e) && Distinct(e) && Wanted(Infer(e), want)
    ensures Gives(s, e, want) && SameOff(base, s, Ids(e))
    decreases e, 0
  {
    var s1 := ExprGiven(e.base, PointerType(want), base);
    var s2 := ExprGiven(e.selector, IntType, s1);
    s := Put(s2, e.id, want);
    GivesFrame(s1, s, e.base, PointerType(want));
    GivesFrame(s2, s, e.selector, IntType);
    BothSatisfied(s, OfExpr(e.base), OfExpr(e.selector));
    BothSatisfied(s, OfExpr(e.base) + OfExpr(e.selector), Own(e));
  }

  lemma {:induction false} BinaryGiven(e: Expr, want: Type, base: Assignment) returns (s: Assignment)
    requires e.Binary? && GroundExpr(e) && Distinct(e) && Wanted(Infer(e), want)
    ensures Gives(s, e, want) && SameOff(base, s, Ids(e))
    decreases e, 0
  {
    var l, r := e.lhs, e.rhs;
    var w := if !e.isEq then IntType else if Infer(l).Known? then Want(Infer(l)) else Want(Infer(r));
    var s1 := ExprGiven(l, w, base);
    var s2 := ExprGiven(r, w, s1);
    s := Put(s2, e.id, want);
    GivesFrame(s1, s, l, w);
    GivesFrame(s2, s, r, w);
    BothSatisfied(s, OfExpr(l), OfExpr(r));
    BothSatisfied(s, OfExpr(l) + OfExpr(r), Own(e));
  }

  /** The types that a call asks of its arguments. */
  function ArgWants(v: Verdict, es: seq<Expr>): seq<Type>
    requires v.Known? ==> v.ty.FunctionType?
  {
    if v.Known? then DecayedAll(v.ty.params) else seq(|es|, k requires 0 <= k < |es| => Want(Infer(es[k])))
  }

  lemma ValuesAre(s: Assignment, ts: seq<Type>, wants: seq<Type>)
    requires |ts| == |wants| && forall k :: 0 <= k < |ts| ==> Value(s, ts[k]) == wants[k]
    ensures Values(s, ts) == wants
  {
  }

  lemma {:induction false} CallGiven(e: Expr, want: Type, base: Assignment) returns (s: Assignment)
    requires e.Call? && GroundExpr(e) && Distinct(e) && Wanted(Infer(e), want)
    ensures Gives(s, e, want) && SameOff(base, s, Ids(e))
    decreases e, 0
  {
    var n, c, es := e.id, e.callee, e.args;
    var wants := ArgWants(Infer(c), es);
    var s1 := ExprGiven(c, FunctionType(wants, want), base);
    var s2 := ExprsGiven(es, wants, s1);
    s := Put(s2, n, want);
    GivesFrame(s1, s, c, FunctionType(wants, want));
    ExprsAbout(es);
    SatisfiedFrame(s2, s, OfExprs(es), IdsOfAll(es));
    NodeVarsAll(es);
    forall k | 0 <= k < |es| ensures Value(s, NodeTypes(es)[k]) == wants[k] {
      ValueFrame(s2, s, NodeTypes(es)[k]);
    }
    ValuesAre(s, NodeTypes(es), wants);
    BothSatisfied(s, OfExpr(c), OfExprs(es));
    BothSatisfied(s, OfExpr(c) + OfExprs(es), Own(e));
  }

  lemma {:induction false} ExprsGiven(es: seq<Expr>, wants: seq<Type>, base: Assignment) returns (s: Assignment)
    requires |wants| == |es| && DistinctAll(es)
    requires forall k :: 0 <= k < |es| ==> GroundExpr(es[k]) && Wanted(Infer(es[k]), wants[k])
    ensures SatisfiedBy(s, OfExprs(es)) && SameOff(base, s, IdsOfAll(es))
    ensures forall k :: 0 <= k < |es| ==> Value(s, NodeTypes(es)[k]) == wants[k]
    decreases es
  {
    if es == [] {
      s := base;
    } else {
      var s1 := ExprGiven(es[0], wants[0], base);
      s := ExprsGiven(es[1..], wants[1..], s1);
      GivesFrame(s1, s, es[0], wants[0]);
      assert NodeTypes(es)[1..] == NodeTypes(es[1..]);
      forall k | 0 <= k < |es| ensures Value(s, NodeTypes(es)[k]) == wants[k] {
        if k > 0 {
          assert NodeTypes(es)[k] == NodeTypes(es[1..])[k - 1];
        }
      }
    }
  }

  // ---------------------------------------------------------------------------------------------
  // Statements, functions and programs
  // ---------------------------------------------------------------------------------------------

  lemma {:induction false} StmtAbout(s: Stmt)
    requires GroundStmt(s)
    ensures About(OfStmt(s), IdsOfStmt(s))
    decreases s
  {
    match s
    case Empty =>
    case Output(e) =>
      ExprAbout(e);
      NodeVars(e);
    case Alloc(p, n) =>
      ExprAbout(p);
      ExprAbout(n);
    case Dealloc(e) => ExprAbout(e);
    case Block(ss) => StmtsAbout(ss);
    case If(c, t, f) =>
      ExprAbout(c);
      NodeVars(c);
      StmtAbout(t);
      if f.Some? {
        StmtAbout(f.value);
      }
    case While(c, b) =>
      ExprAbout(c);
      NodeVars(c);
      StmtAbout(b);
    case Assign(l, e) =>
      ExprAbout(l);
      ExprAbout(e);
      NodeVars(l);
      NodeVars(e);
  }

  lemma {:induction false} StmtsAbout(ss: seq<Stmt>)
    requires forall k :: 0 <= k < |ss| ==> GroundStmt(ss[k])
    ensures About(OfStmts(ss), IdsOfStmts(ss))
    decreases ss
  {
    if ss != [] {
      StmtAbout(ss[0]);
      StmtsAbout(ss[1..]);
    }
  }

  /** Two expressions that share no node. */
  lemma PairGiven(l: Expr, w: Type, r: Expr, w': Type, base: Assignment) returns (s: Assignment)
    requires GroundExpr(l) && GroundExpr(r) && Distinct(l) && Distinct(r) && Ids(l) !! Ids(r)
    requires Wanted(Infer(l), w) && Wanted(Infer(r), w')
    ensures Gives(s, l, w) && Gives(s, r, w') && SatisfiedBy(s, OfExpr(l) + OfExpr(r)) && SameOff(base, s, Ids(l) + Ids(r))
  {
    var s1 := ExprGiven(l, w, base);
    s := ExprGiven(r, w', s1);
    GivesFrame(s1, s, l, w);
    BothSatisfied(s, OfExpr(l), OfExpr(r));
  }

  lemma {:induction false} StmtGiven(x: Stmt, base: Assignment) returns (s: Assignment)
    requires GroundStmt(x) && DistinctStmt(x) && StmtTyped(x)
    ensures SatisfiedBy(s, OfStmt(x)) && SameOff(base, s, IdsOfStmt(x))
    decreases x
  {
    match x
    case Empty => s := base;
    case Output(e) =>
      s := ExprGiven(e, IntType, base);
      BothSatisfied(s, OfExpr(e), OwnOfStmt(x));
    case Alloc(p, n) => s := PairGiven(p, Want(Infer(p)), n, Want(Infer(n)), base);
    case Dealloc(e) => s := ExprGiven(e, Want(Infer(e)), base);
    case Block(ss) => s := StmtsGiven(ss, base);
    case If(c, t, f) => s := IfGiven(x, base);
    case While(c, b) =>
      var s1 := ExprGiven(c, IntType, base);
      s := StmtGiven(b, s1);
      GivesFrame(s1, s, c, IntType);
      BothSatisfied(s, OfExpr(c), OfStmt(b));
      BothSatisfied(s, OfExpr(c) + OfStmt(b), OwnOfStmt(x));
    case Assign(l, e) =>
      var w := if Infer(l).Known? then Want(Infer(l)) else Want(Infer(e));
      s := PairGiven(l, w, e, w, base);
      BothSatisfied(s, OfExpr(l) + OfExpr(e), OwnOfStmt(x));
  }

  lemma {:induction false} IfGiven(x: Stmt, base: Assignment) returns (s: Assignment)
    requires x.If? && GroundStmt(x) && DistinctStmt(x) && StmtTyped(x)
    ensures SatisfiedBy(s, OfStmt(x)) && SameOff(base, s, IdsOfStmt(x))
    decreases x, 0
  {
    var c, t, f := x.cond, x.thenStmt, x.elseStmt;
    var s1 := ExprGiven(c, IntType, base);
    var s2 := StmtGiven(t, s1);
    s := s2;
    if f.Some? {
      s := StmtGiven(f.value, s2);
    }
    StmtAbout(t);
    SatisfiedFrame(s2, s, OfStmt(t), IdsOfStmt(t));
    GivesFrame(s1, s, c, IntType);
    var other := if f.Some? then OfStmt(f.value) else [];
    BothSatisfied(s, OfExpr(c), OfStmt(t));
    BothSatisfied(s, OfExpr(c) + OfStmt(t), other);
    BothSatisfied(s, OfExpr(c) + OfStmt(t) + other, OwnOfStmt(x));
  }

  lemma {:induction false} StmtsGiven(ss: seq<Stmt>, base: Assignment) returns (s: Assignment)
    requires DistinctStmts(ss) && forall k :: 0 <= k < |ss| ==> GroundStmt(ss[k]) && StmtTyped(ss[k])
    ensures SatisfiedBy(s, OfStmts(ss)) && SameOff(base, s, IdsOfStmts(ss))
    decreases ss
  {
    if ss == [] {
      s := base;
    } else {
      var s1 := StmtGiven(ss[0], base);
      s := StmtsGiven(ss[1..], s1);
      StmtAbout(ss[0]);
      SatisfiedFrame(s1, s, OfStmt(ss[0]), IdsOfStmt(ss[0]));
      BothSatisfied(s, OfStmt(ss[0]), OfStmts(ss[1..]));
    }
  }

  lemma {:induction false} IntsSatisfied(s: Assignment, ts: seq<Type>)
    requires forall k :: 0 <= k < |ts| ==> Ground(ts[k]) && Decayed(ts[k]) == IntType
    ensures SatisfiedBy(s, AreInts(ts)) && About(AreInts(ts), {})
  {
    if ts != [] {
      GroundValue(s, ts[0]);
      IntsSatisfied(s, ts[1..]);
    }
  }

  lemma OwnSatisfied(s: Assignment, f: Function)
    requires GroundFunction(f) && FunctionTyped(f) && Value(s, NodeType(f.ret)) == Decayed(f.retType)
    ensures SatisfiedBy(s, OwnOfFunction(f))
  {
    GroundValue(s, f.retType);
    if f.isMain {
      IntsSatisfied(s, f.params);
    }
  }

  lemma OwnAbout(f: Function)
    requires GroundFunction(f) && FunctionTyped(f)
    ensures About(OwnOfFunction(f), Ids(f.ret))
  {
    NodeVars(f.ret);
    GroundValue(n => IntType, f.retType);
    forall k | 0 <= k < |f.params| ensures VarsIn(f.params[k]) == {} {
      GroundValue(n => IntType, f.params[k]);
    }
    NoVars(f.params);
    if f.isMain {
      IntsSatisfied(n => IntType, f.params);
    }
  }

  lemma FunctionGiven(f: Function, base: Assignment) returns (s: Assignment)
    requires GroundFunction(f) && FunctionTyped(f)
    requires DistinctStmts(f.body) && Distinct(f.ret) && IdsOfStmts(f.body) !! Ids(f.ret)
    ensures SatisfiedBy(s, OfFunction(f)) && SameOff(base, s, IdsOfFunction(f))
  {
    var s1 := StmtsGiven(f.body, base);
    s := ExprGiven(f.ret, Decayed(f.retType), s1);
    StmtsAbout(f.body);
    SatisfiedFrame(s1, s, OfStmts(f.body), IdsOfStmts(f.body));
    OwnSatisfied(s, f);
    BothSatisfied(s, OfStmts(f.body), OfExpr(f.ret));
    BothSatisfied(s, OfStmts(f.body) + OfExpr(f.ret), OwnOfFunction(f));
  }

  lemma FunctionAbout(f: Function)
    requires GroundFunction(f) && FunctionTyped(f)
    ensures About(OfFunction(f), IdsOfFunction(f))
  {
    StmtsAbout(f.body);
    ExprAbout(f.ret);
    OwnAbout(f);
  }

  lemma {:induction false} ProgramGiven(fs: seq<Function>, base: Assignment) returns (s: Assignment)
    requires GroundProgram(fs) && DistinctProgram(fs) && WellTyped(fs)
    ensures SatisfiedBy(s, OfProgram(fs)) && SameOff(base, s, IdsOfProgram(fs))
    decreases fs
  {
    if fs == [] {
      s := base;
    } else {
      var s1 := FunctionGiven(fs[0], base);
      s := ProgramGiven(fs[1..], s1);
      FunctionAbout(fs[0]);
      SatisfiedFrame(s1, s, OfFunction(fs[0]), IdsOfFunction(fs[0]));
      BothSatisfied(s, OfFunction(fs[0]), OfProgram(fs[1..]));
    }
  }

  // ---------------------------------------------------------------------------------------------
  // The whole analysis
  // ---------------------------------------------------------------------------------------------

  ghost predicate HasSolution(cs: seq<Constraint>) { exists m :: Solution(m, cs) }

  ghost predicate HasAssignment(cs: seq<Constraint>) { exists s: Assignment :: SatisfiedBy(s, cs) }

  lemma WellTypedIsSolvable(fs: seq<Function>) returns (s: Assignment)
    requires GroundProgram(fs) && DistinctProgram(fs) && WellTyped(fs)
    ensures SatisfiedBy(s, OfProgram(fs)) && Solution(ByValue(s, SidesOf(OfProgram(fs))), OfProgram(fs))
  {
    s := ProgramGiven(fs, n => IntType);
    AssignmentIsSolution(s, OfProgram(fs));
  }

  /** A program is well typed if and only if its constraints have a solution, and if and only if types for its nodes
      satisfy them. */
  lemma WellTypedIffSolvable(fs: seq<Function>)
    requires GroundProgram(fs) && DistinctProgram(fs)
    ensures WellTyped(fs) <==> HasSolution(OfProgram(fs))
    ensures WellTyped(fs) <==> HasAssignment(OfProgram(fs))
  {
    var cs := OfProgram(fs);
    if WellTyped(fs) {
      var s := WellTypedIsSolvable(fs);
      assert HasSolution(cs) && HasAssignment(cs);
    } else {
      forall m | Solution(m, cs) ensures false {
        SolvableIsWellTyped(m, fs);
      }
      forall s: Assignment | SatisfiedBy(s, cs) ensures false {
        AssignmentIsSolution(s, cs);
        SolvableIsWellTyped(ByValue(s, SidesOf(cs)), fs);
      }
    }
  }

  /** `solve`: visit the program, then unify. Unless arrays of different lengths end in one class, a program is well typed
      if and only if it is accepted and no shapes have met below the top. */
  method Analyze(fs: seq<Function>) returns (ok: bool, analysis: Analysis)
    requires GroundProgram(fs) && DistinctProgram(fs)
    ensures Answer(analysis.uf.rep, OfProgram(fs), ok)
    ensures WellTyped(fs) ==> !Stuck(analysis.uf.rep, SidesOf(OfProgram(fs)))
    ensures !LengthsMeet(analysis.uf.rep, SidesOf(OfProgram(fs))) ==>
              (WellTyped(fs) <==> ok && !Stuck(analysis.uf.rep, SidesOf(OfProgram(fs))))
  {
    var visitor := new ConstraintVisitor();
    visitor.VisitProgram(fs);
    ghost var cs := OfProgram(fs);
    assert visitor.constraints == cs;
    analysis := new Analysis();
    ok := analysis.Solve(visitor.constraints);
    WellTypedIffSolvable(fs);
    if WellTyped(fs) && Stuck(analysis.uf.rep, SidesOf(cs)) {
      ghost var e :| Solution(e, cs);
      StuckHasNoSolution(analysis.uf.rep, cs, e);
    }
    if !LengthsMeet(analysis.uf.rep, SidesOf(cs)) {
      AnswerIsRight(analysis.uf.rep, cs, ok);
    }
  }
}
