/** The constraints of a program can be solved if and only if the program is well typed. */
module TypingProof {
  import opened Types
  import opened Partitions
  import opened TypeAnalysis
  import opened Typing

  /** Types as written in programs have no type variables. */
  predicate Ground(t: Type) {
    match t
    case VarType(_) => false
    case IntType => true
    case PointerType(p) => Ground(p)
    case ArrayType(e, _) => Ground(e)
    case FunctionType(ps, r) => (forall k :: 0 <= k < |ps| ==> Ground(ps[k])) && Ground(r)
  }

  predicate GroundExpr(e: Expr) {
    match e
    case DeclRef(t) => Ground(t)
    case AddrOf(_, t) => Ground(t)
    case Call(_, c, es) => GroundExpr(c) && forall k :: 0 <= k < |es| ==> GroundExpr(es[k])
    case Deref(_, p) => GroundExpr(p)
    case Subscript(_, b, s) => GroundExpr(b) && GroundExpr(s)
    case Binary(_, _, l, r) => GroundExpr(l) && GroundExpr(r)
    case _ => true
  }

  predicate GroundStmt(s: Stmt) {
    match s
    case Empty => true
    case Output(e) => GroundExpr(e)
    case Alloc(p, n) => GroundExpr(p) && GroundExpr(n)
    case Dealloc(e) => GroundExpr(e)
    case Block(ss) => forall k :: 0 <= k < |ss| ==> GroundStmt(ss[k])
    case If(c, t, f) => GroundExpr(c) && GroundStmt(t) && (f.Some? ==> GroundStmt(f.value))
    case While(c, b) => GroundExpr(c) && GroundStmt(b)
    case Assign(l, e) => GroundExpr(l) && GroundExpr(e)
  }

  predicate GroundFunction(f: Function) {
    && (forall k :: 0 <= k < |f.body| ==> GroundStmt(f.body[k])) && GroundExpr(f.ret) && Ground(f.retType)
    && forall k :: 0 <= k < |f.params| ==> Ground(f.params[k])
  }

  predicate GroundProgram(fs: seq<Function>) { forall k :: 0 <= k < |fs| ==> GroundFunction(fs[k]) }

  // ---------------------------------------------------------------------------------------------
  // Solvable programs are well typed
  // ---------------------------------------------------------------------------------------------

  ghost predicate Within(part: seq<Constraint>, cs: seq<Constraint>) { forall c :: c in part ==> c in cs }

  /** Types as written that a solution puts together are one type, arrays decayed. */
  lemma {:induction false} SameDecays(m: Partition, u: set<Type>, a: Type, b: Type)
    requires Solved(m, u) && Closed(u) && a in u && b in u && Ground(a) && Ground(b) && Same(m, a, b)
    ensures Decayed(a) == Decayed(b)
    decreases a
  {
    assert Agree(m, a, b);
    match a
    case VarType(_) =>
    case IntType =>
    case PointerType(p) => SameDecays(m, u, p, Parts(b)[0]);
    case ArrayType(e, _) => SameDecays(m, u, e, Parts(b)[0]);
    case FunctionType(ps, r) =>
      FunctionsAgree(m, u, a, b);
      forall k | 0 <= k < |ps| ensures Decayed(ps[k]) == Decayed(b.params[k]) {
        SameDecays(m, u, ps[k], b.params[k]);
      }
      SameDecays(m, u, r, b.ret);
      assert DecayedAll(ps) == DecayedAll(b.params);
  }

  /** The verdict on an expression is what the solution says: its known type is in the node's class. */
  ghost predicate Told(m: Partition, u: set<Type>, t: Type, v: Verdict) {
    && !v.IllTyped?
    && (v.Known? ==> Ground(v.ty) && (t in u ==> v.ty in u && Same(m, t, v.ty)))
  }

  lemma ConstraintHolds(m: Partition, cs: seq<Constraint>, c: Constraint)
    requires Solution(m, cs) && c in cs
    ensures c.lhs in SidesOf(cs) && c.rhs in SidesOf(cs) && Closed(SidesOf(cs)) && Same(m, c.lhs, c.rhs)
  {
    SidesClosed(cs);
  }

  lemma FitsSame(m: Partition, u: set<Type>, t: Type, v: Verdict, want: Type)
    requires Solved(m, u) && Closed(u) && Told(m, u, t, v) && t in u && want in u && Ground(want) && Same(m, t, want)
    ensures Fits(v, want)
  {
    if v.Known? {
      SameDecays(m, u, v.ty, want);
    }
  }

  lemma AgreeingSame(m: Partition, u: set<Type>, t: Type, v: Verdict, t': Type, v': Verdict)
    requires Solved(m, u) && Closed(u) && Told(m, u, t, v) && Told(m, u, t', v') && t in u && t' in u && Same(m, t, t')
    ensures Agreeing(v, v')
  {
    if v.Known? && v'.Known? {
      SameDecays(m, u, v'.ty, v.ty);
    }
  }

  lemma HeldTold(m: Partition, u: set<Type>, t: Type, v: Verdict, n: nat)
    requires Solved(m, u) && Closed(u) && Told(m, u, t, v)
    requires t in u && PointerType(VarType(n)) in u && Same(m, t, PointerType(VarType(n)))
    ensures Told(m, u, VarType(n), Held(v))
  {
    if v.Known? {
      assert Agree(m, v.ty, PointerType(VarType(n)));
      assert Parts(v.ty)[0] in u && Same(m, Parts(v.ty)[0], VarType(n));
    }
  }

  lemma FunctionsAgree(m: Partition, u: set<Type>, a: Type, b: Type)
    requires Solved(m, u) && Closed(u) && a in u && b in u && Proper(a) && b.FunctionType? && Same(m, a, b)
    ensures a.FunctionType? && |a.params| == |b.params| && a.ret in u && b.ret in u && Same(m, a.ret, b.ret)
    ensures forall k :: 0 <= k < |a.params| ==> a.params[k] in u && b.params[k] in u && Same(m, a.params[k], b.params[k])
  {
    assert Agree(m, a, b);
    var n := |a.params|;
    forall k | 0 <= k < n ensures a.params[k] in u && b.params[k] in u && Same(m, a.params[k], b.params[k]) {
      assert Parts(a)[k] == a.params[k] && Parts(b)[k] == b.params[k];
    }
    assert Parts(a)[n] == a.ret && Parts(b)[n] == b.ret;
  }

  /** Parameter `k` of two function types. */
  ghost predicate ParamSame(m: Partition, u: set<Type>, a: Type, f: Type, k: nat)
    requires a.FunctionType? && f.FunctionType? && k < |a.params| == |f.params|
  {
    Ground(a.params[k]) && a.params[k] in u && f.params[k] in u && Same(m, a.params[k], f.params[k])
  }

  /** What is called has a type of the same shape as the one that the call asks for. */
  lemma CalleeShape(m: Partition, u: set<Type>, t: Type, v: Verdict, f: Type)
    requires Solved(m, u) && Closed(u) && Told(m, u, t, v) && v.Known? && f.FunctionType? && f in u && t in u && Same(m, t, f)
    ensures v.ty.FunctionType? && |v.ty.params| == |f.params| && Told(m, u, f.ret, Known(v.ty.ret))
    ensures forall k :: 0 <= k < |f.params| ==> ParamSame(m, u, v.ty, f, k)
  {
    assert Same(m, v.ty, f);
    FunctionsAgree(m, u, v.ty, f);
  }

  lemma ArgumentFits(m: Partition, u: set<Type>, a: Type, f: Type, e: Expr, k: nat)
    requires Solved(m, u) && Closed(u) && a.FunctionType? && f.FunctionType? && k < |a.params| == |f.params|
    requires ParamSame(m, u, a, f, k) && f.params[k] == NodeType(e) && Told(m, u, NodeType(e), Infer(e))
    ensures Fits(Infer(e), a.params[k])
  {
    FitsSame(m, u, NodeType(e), Infer(e), a.params[k]);
  }

  lemma CallTold(m: Partition, u: set<Type>, t: Type, v: Verdict, es: seq<Expr>, n: nat)
    requires Solved(m, u) && Closed(u) && Told(m, u, t, v) && v.Known? && FunctionType(NodeTypes(es), VarType(n)) in u
    requires t in u && Same(m, t, FunctionType(NodeTypes(es), VarType(n)))
    requires forall k :: 0 <= k < |es| ==> Told(m, u, NodeType(es[k]), Infer(es[k]))
    ensures v.ty.FunctionType? && |v.ty.params| == |es| && Told(m, u, VarType(n), Known(v.ty.ret))
    ensures forall k :: 0 <= k < |es| ==> Fits(Infer(es[k]), v.ty.params[k])
  {
    var f := FunctionType(NodeTypes(es), VarType(n));
    CalleeShape(m, u, t, v, f);
    forall k | 0 <= k < |es| ensures Fits(Infer(es[k]), v.ty.params[k]) {
      assert ParamSame(m, u, v.ty, f, k);
      ArgumentFits(m, u, v.ty, f, es[k], k);
    }
  }

  lemma {:induction false} ExprTold(m: Partition, cs: seq<Constraint>, e: Expr)
    requires Solution(m, cs) && Within(OfExpr(e), cs) && GroundExpr(e)
    ensures Told(m, SidesOf(cs), NodeType(e), Infer(e))
    decreases e
  {
    assert Within(Own(e), cs);
    match e
    case Number(n) => ConstraintHolds(m, cs, Own(e)[0]);
    case Input(n) => ConstraintHolds(m, cs, Own(e)[0]);
    case DeclRef(_) =>
    case Null(_) =>
    case Sizeof(_) =>
    case AddrOf(n, t) => ConstraintHolds(m, cs, Own(e)[0]);
    case Deref(n, p) =>
      ExprTold(m, cs, p);
      ConstraintHolds(m, cs, Own(e)[0]);
      HeldTold(m, SidesOf(cs), NodeType(p), Infer(p), n);
    case Subscript(n, b, s) =>
      ExprTold(m, cs, b);
      ExprTold(m, cs, s);
      ConstraintHolds(m, cs, Own(e)[0]);
      ConstraintHolds(m, cs, Own(e)[1]);
      FitsSame(m, SidesOf(cs), NodeType(s), Infer(s), IntType);
      HeldTold(m, SidesOf(cs), NodeType(b), Infer(b), n);
    case Binary(n, eq, l, r) => BinaryTold(m, cs, e);
    case Call(n, c, es) =>
      ExprTold(m, cs, c);
      forall k | 0 <= k < |es| ensures Told(m, SidesOf(cs), NodeType(es[k]), Infer(es[k])) {
        OfExprsHas(es, k);
        ExprTold(m, cs, es[k]);
      }
      ConstraintHolds(m, cs, Own(e)[0]);
      if Infer(c).Known? {
        CallTold(m, SidesOf(cs), NodeType(c), Infer(c), es, n);
      }
  }

  lemma {:induction false} BinaryTold(m: Partition, cs: seq<Constraint>, e: Expr)
    requires Solution(m, cs) && Within(OfExpr(e), cs) && GroundExpr(e) && e.Binary?
    ensures Told(m, SidesOf(cs), NodeType(e), Infer(e))
    decreases e, 0
  {
    assert Within(Own(e), cs);
    ExprTold(m, cs, e.lhs);
    ExprTold(m, cs, e.rhs);
    ConstraintHolds(m, cs, Own(e)[0]);
    ConstraintHolds(m, cs, Own(e)[1]);
    if e.isEq {
      AgreeingSame(m, SidesOf(cs), NodeType(e.lhs), Infer(e.lhs), NodeType(e.rhs), Infer(e.rhs));
    } else {
      ConstraintHolds(m, cs, Own(e)[2]);
      FitsSame(m, SidesOf(cs), NodeType(e.lhs), Infer(e.lhs), IntType);
      FitsSame(m, SidesOf(cs), NodeType(e.rhs), Infer(e.rhs), IntType);
    }
  }

  lemma {:induction false} OfExprsHas(es: seq<Expr>, k: nat)
    requires k < |es|
    ensures Within(OfExpr(es[k]), OfExprs(es))
  {
    if k > 0 {
      OfExprsHas(es[1..], k - 1);
    }
  }

  lemma {:induction false} OfStmtsHas(ss: seq<Stmt>, k: nat)
    requires k < |ss|
    ensures Within(OfStmt(ss[k]), OfStmts(ss))
  {
    if k > 0 {
      OfStmtsHas(ss[1..], k - 1);
    }
  }

  lemma ExprFits(m: Partition, cs: seq<Constraint>, e: Expr, want: Type)
    requires Solution(m, cs) && Within(OfExpr(e), cs) && GroundExpr(e) && Ground(want)
    requires Constraint(NodeType(e), want) in cs
    ensures Fits(Infer(e), want)
  {
    ExprTold(m, cs, e);
    ConstraintHolds(m, cs, Constraint(NodeType(e), want));
    FitsSame(m, SidesOf(cs), NodeType(e), Infer(e), want);
  }

  lemma {:induction false} StmtTold(m: Partition, cs: seq<Constraint>, s: Stmt)
    requires Solution(m, cs) && Within(OfStmt(s), cs) && GroundStmt(s)
    ensures StmtTyped(s)
    decreases s
  {
    assert s.Output? || s.If? || s.While? || s.Assign? ==> OwnOfStmt(s)[0] in OfStmt(s);
    match s
    case Empty =>
    case Output(e) => ExprFits(m, cs, e, IntType);
    case Alloc(p, n) =>
      ExprTold(m, cs, p);
      ExprTold(m, cs, n);
    case Dealloc(e) => ExprTold(m, cs, e);
    case Block(ss) =>
      forall k | 0 <= k < |ss| ensures StmtTyped(ss[k]) {
        OfStmtsHas(ss, k);
        StmtTold(m, cs, ss[k]);
      }
    case If(c, t, f) =>
      ExprFits(m, cs, c, IntType);
      StmtTold(m, cs, t);
      if f.Some? {
        StmtTold(m, cs, f.value);
      }
    case While(c, b) =>
      ExprFits(m, cs, c, IntType);
      StmtTold(m, cs, b);
    case Assign(l, e) =>
      ExprTold(m, cs, l);
      ExprTold(m, cs, e);
      ConstraintHolds(m, cs, Constraint(NodeType(l), NodeType(e)));
      AgreeingSame(m, SidesOf(cs), NodeType(l), Infer(l), NodeType(e), Infer(e));
  }

  lemma {:induction false} AreIntsHas(ts: seq<Type>, k: nat)
    requires k < |ts|
    ensures Constraint(ts[k], IntType) in AreInts(ts)
  {
    if k > 0 {
      AreIntsHas(ts[1..], k - 1);
    }
  }

  lemma ReturnTold(m: Partition, cs: seq<Constraint>, f: Function)
    requires Solution(m, cs) && Within(OfFunction(f), cs) && GroundFunction(f)
    ensures Fits(Infer(f.ret), f.retType)
    ensures f.retType in SidesOf(cs) && Same(m, f.retType, NodeType(f.ret))
  {
    var c := Constraint(FunctionType(f.params, f.retType), FunctionType(f.params, NodeType(f.ret)));
    assert c in OwnOfFunction(f);
    ConstraintHolds(m, cs, c);
    FunctionsAgree(m, SidesOf(cs), c.lhs, c.rhs);
    ExprTold(m, cs, f.ret);
    FitsSame(m, SidesOf(cs), NodeType(f.ret), Infer(f.ret), f.retType);
  }

  lemma FunctionTold(m: Partition, cs: seq<Constraint>, f: Function)
    requires Solution(m, cs) && Within(OfFunction(f), cs) && GroundFunction(f)
    ensures FunctionTyped(f)
  {
    forall k | 0 <= k < |f.body| ensures StmtTyped(f.body[k]) {
      OfStmtsHas(f.body, k);
      StmtTold(m, cs, f.body[k]);
    }
    ReturnTold(m, cs, f);
    if f.isMain {
      forall k | 0 <= k < |f.params| ensures Decayed(f.params[k]) == IntType {
        AreIntsHas(f.params, k);
        assert Constraint(f.params[k], IntType) in OwnOfFunction(f);
        ConstraintHolds(m, cs, Constraint(f.params[k], IntType));
        SameDecays(m, SidesOf(cs), f.params[k], IntType);
      }
      assert Constraint(NodeType(f.ret), IntType) in OwnOfFunction(f);
      ConstraintHolds(m, cs, Constraint(NodeType(f.ret), IntType));
      SameDecays(m, SidesOf(cs), f.retType, IntType);
    }
  }

  lemma {:induction false} OfProgramHas(fs: seq<Function>, k: nat)
    requires k < |fs|
    ensures Within(OfFunction(fs[k]), OfProgram(fs))
  {
    if k > 0 {
      OfProgramHas(fs[1..], k - 1);
    }
  }

  /** A program whose constraints have a solution, be it a cyclic one, is well typed. */
  lemma SolvableIsWellTyped(m: Partition, fs: seq<Function>)
    requires Solution(m, OfProgram(fs)) && GroundProgram(fs)
    ensures WellTyped(fs)
  {
    forall k | 0 <= k < |fs| ensures FunctionTyped(fs[k]) {
      OfProgramHas(fs, k);
      FunctionTold(m, OfProgram(fs), fs[k]);
    }
  }

  // ---------------------------------------------------------------------------------------------
  // The nodes of a program
  // ---------------------------------------------------------------------------------------------

  function Ids(e: Expr): set<nat> {
    match e
    case DeclRef(_) => {}
    case Call(n, c, es) => {n} + Ids(c) + IdsOfAll(es)
    case Deref(n, p) => {n} + Ids(p)
    case Subscript(n, b, s) => {n} + Ids(b) + Ids(s)
    case Binary(n, _, l, r) => {n} + Ids(l) + Ids(r)
    case _ => {e.id}
  }

  function IdsOfAll(es: seq<Expr>): set<nat> { if es == [] then {} else Ids(es[0]) + IdsOfAll(es[1..]) }

  /** Different nodes have different numbers. */
  predicate Distinct(e: Expr) {
    match e
    case Call(n, c, es) => n !in Ids(c) + IdsOfAll(es) && Ids(c) !! IdsOfAll(es) && Distinct(c) && DistinctAll(es)
    case Deref(n, p) => n !in Ids(p) && Distinct(p)
    case Subscript(n, b, s) => n !in Ids(b) + Ids(s) && Ids(b) !! Ids(s) && Distinct(b) && Distinct(s)
    case Binary(n, _, l, r) => n !in Ids(l) + Ids(r) && Ids(l) !! Ids(r) && Distinct(l) && Distinct(r)
    case _ => true
  }

  predicate DistinctAll(es: seq<Expr>) {
    es == [] || (Ids(es[0]) !! IdsOfAll(es[1..]) && Distinct(es[0]) && DistinctAll(es[1..]))
  }

  function IdsOfStmt(s: Stmt): set<nat> {
    match s
    case Empty => {}
    case Output(e) => Ids(e)
    case Alloc(p, n) => Ids(p) + Ids(n)
    case Dealloc(e) => Ids(e)
    case Block(ss) => IdsOfStmts(ss)
    case If(c, t, f) => Ids(c) + IdsOfStmt(t) + (if f.Some? then IdsOfStmt(f.value) else {})
    case While(c, b) => Ids(c) + IdsOfStmt(b)
    case Assign(l, e) => Ids(l) + Ids(e)
  }

  function IdsOfStmts(ss: seq<Stmt>): set<nat> { if ss == [] then {} else IdsOfStmt(ss[0]) + IdsOfStmts(ss[1..]) }

  predicate DistinctStmt(s: Stmt) {
    match s
    case Empty => true
    case Output(e) => Distinct(e)
    case Alloc(p, n) => Ids(p) !! Ids(n) && Distinct(p) && Distinct(n)
    case Dealloc(e) => Distinct(e)
    case Block(ss) => DistinctStmts(ss)
    case If(c, t, f) =>
      && Ids(c) !! IdsOfStmt(t) && Distinct(c) && DistinctStmt(t)
      && (f.Some? ==> Ids(c) + IdsOfStmt(t) !! IdsOfStmt(f.value) && DistinctStmt(f.value))
    case While(c, b) => Ids(c) !! IdsOfStmt(b) && Distinct(c) && DistinctStmt(b)
    case Assign(l, e) => Ids(l) !! Ids(e) && Distinct(l) && Distinct(e)
  }

  predicate DistinctStmts(ss: seq<Stmt>) {
    ss == [] || (IdsOfStmt(ss[0]) !! IdsOfStmts(ss[1..]) && DistinctStmt(ss[0]) && DistinctStmts(ss[1..]))
  }

  function IdsOfFunction(f: Function): set<nat> { IdsOfStmts(f.body) + Ids(f.ret) }

  function IdsOfProgram(fs: seq<Function>): set<nat> {
    if fs == [] then {} else IdsOfFunction(fs[0]) + IdsOfProgram(fs[1..])
  }

  predicate DistinctProgram(fs: seq<Function>) {
    fs == [] ||
    (IdsOfFunction(fs[0]) !! IdsOfProgram(fs[1..]) && DistinctStmts(fs[0].body) && Distinct(fs[0].ret)
     && IdsOfStmts(fs[0].body) !! Ids(fs[0].ret) && DistinctProgram(fs[1..]))
  }

  // ---------------------------------------------------------------------------------------------
  // Assignments
  // ---------------------------------------------------------------------------------------------

  function VarsIn(t: Type): set<nat> {
    match t
    case VarType(n) => {n}
    case IntType => {}
    case PointerType(p) => VarsIn(p)
    case ArrayType(e, _) => VarsIn(e)
    case FunctionType(ps, r) => VarsInAll(ps) + VarsIn(r)
  }

  function VarsInAll(ts: seq<Type>): (ns: set<nat>)
    ensures forall k :: 0 <= k < |ts| ==> VarsIn(ts[k]) <= ns
  {
    if ts == [] then {} else VarsIn(ts[0]) + VarsInAll(ts[1..])
  }

  ghost predicate SameOn(s: nat -> Type, s': nat -> Type, ids: set<nat>) { forall n :: n in ids ==> s'(n) == s(n) }

  ghost predicate SameOff(s: nat -> Type, s': nat -> Type, ids: set<nat>) { forall n :: n !in ids ==> s'(n) == s(n) }

  lemma {:induction false} ValueFrame(s: nat -> Type, s': nat -> Type, t: Type)
    requires SameOn(s, s', VarsIn(t))
    ensures Value(s', t) == Value(s, t)
    decreases t
  {
    match t
    case VarType(_) =>
    case IntType =>
    case PointerType(p) => ValueFrame(s, s', p);
    case ArrayType(e, _) => ValueFrame(s, s', e);
    case FunctionType(ps, r) =>
      ValueFrame(s, s', r);
      forall k | 0 <= k < |ps| ensures Value(s', ps[k]) == Value(s, ps[k]) {
        ValueFrame(s, s', ps[k]);
      }
      assert Values(s', ps) == Values(s, ps);
  }

  lemma {:induction false} GroundValue(s: nat -> Type, t: Type)
    requires Ground(t)
    ensures VarsIn(t) == {} && Value(s, t) == Decayed(t)
    decreases t
  {
    match t
    case IntType =>
    case PointerType(p) => GroundValue(s, p);
    case ArrayType(e, _) => GroundValue(s, e);
    case FunctionType(ps, r) =>
      GroundValue(s, r);
      forall k | 0 <= k < |ps| ensures VarsIn(ps[k]) == {} && Value(s, ps[k]) == Decayed(ps[k]) {
        GroundValue(s, ps[k]);
      }
      NoVars(ps);
      assert Values(s, ps) == DecayedAll(ps);
  }

  lemma {:induction false} NoVars(ts: seq<Type>)
    requires forall k :: 0 <= k < |ts| ==> VarsIn(ts[k]) == {}
    ensures VarsInAll(ts) == {}
  {
    if ts != [] {
      NoVars(ts[1..]);
    }
  }

  /** Constraints about the nodes `ids`. */
  ghost predicate About(cs: seq<Constraint>, ids: set<nat>) {
    forall c :: c in cs ==> VarsIn(c.lhs) <= ids && VarsIn(c.rhs) <= ids
  }

  lemma SatisfiedFrame(s: nat -> Type, s': nat -> Type, cs: seq<Constraint>, ids: set<nat>)
    requires SatisfiedBy(s, cs) && About(cs, ids) && SameOn(s, s', ids)
    ensures SatisfiedBy(s', cs)
  {
    forall c | c in cs ensures Value(s', c.lhs) == Value(s', c.rhs) {
      ValueFrame(s, s', c.lhs);
      ValueFrame(s, s', c.rhs);
    }
  }

  lemma NodeVars(e: Expr)
    requires GroundExpr(e)
    ensures VarsIn(NodeType(e)) <= Ids(e)
  {
    if e.DeclRef? {
      GroundValue(n => IntType, e.ty);
    }
  }

  lemma {:induction false} NodeVarsAll(es: seq<Expr>)
    requires forall k :: 0 <= k < |es| ==> GroundExpr(es[k])
    ensures VarsInAll(NodeTypes(es)) <= IdsOfAll(es)
  {
    if es != [] {
      NodeVars(es[0]);
      assert NodeTypes(es)[1..] == NodeTypes(es[1..]);
      NodeVarsAll(es[1..]);
    }
  }

  lemma OwnIsAbout(e: Expr)
    requires GroundExpr(e)
    ensures About(Own(e), Ids(e))
  {
    match e
    case Call(_, c, es) =>
      NodeVars(c);
      NodeVarsAll(es);
    case Deref(_, p) => NodeVars(p);
    case Subscript(_, b, s) =>
      NodeVars(b);
      NodeVars(s);
    case Binary(_, _, l, r) =>
      NodeVars(l);
      NodeVars(r);
    case AddrOf(_, t) => GroundValue(n => IntType, t);
    case _ =>
  }

  lemma AboutBoth(a: seq<Constraint>, b: seq<Constraint>, c: seq<Constraint>, i: set<nat>, j: set<nat>, ids: set<nat>)
    requires About(a, i) && About(b, j) && About(c, ids) && i <= ids && j <= ids
    ensures About(a + b + c, ids)
  {
  }

  lemma {:induction false} ExprAbout(e: Expr)
    requires GroundExpr(e)
    ensures About(OfExpr(e), Ids(e))
    decreases e
  {
    OwnIsAbout(e);
    match e
    case Call(_, c, es) =>
      ExprAbout(c);
      ExprsAbout(es);
      AboutBoth(OfExpr(c), OfExprs(es), Own(e), Ids(c), IdsOfAll(es), Ids(e));
    case Deref(_, p) => ExprAbout(p);
    case Subscript(_, b, s) =>
      ExprAbout(b);
      ExprAbout(s);
      AboutBoth(OfExpr(b), OfExpr(s), Own(e), Ids(b), Ids(s), Ids(e));
    case Binary(_, _, l, r) =>
      ExprAbout(l);
      ExprAbout(r);
      AboutBoth(OfExpr(l), OfExpr(r), Own(e), Ids(l), Ids(r), Ids(e));
    case _ =>
  }

  lemma {:induction false} ExprsAbout(es: seq<Expr>)
    requires forall k :: 0 <= k < |es| ==> GroundExpr(es[k])
    ensures About(OfExprs(es), IdsOfAll(es))
    decreases es
  {
    if es != [] {
      ExprAbout(es[0]);
      ExprsAbout(es[1..]);
    }
  }
}
