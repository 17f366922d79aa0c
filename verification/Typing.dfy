/** Programs as the type analysis sees them, the constraints it generates from them (src/semantic/TypeAnalysis.h), and
    what it is to be well typed. */
module Typing {
  import opened Options
  import opened Types
  import opened TypeAnalysis

  /** Nodes with a type variable have a number, in place of their address; a reference carries the declared type. */
  datatype Expr =
    | Number(id: nat)
    | DeclRef(ty: Type)
    | Call(id: nat, callee: Expr, args: seq<Expr>)
    | Null(id: nat)
    | Sizeof(id: nat)
    | AddrOf(id: nat, ty: Type)
    | Deref(id: nat, ptr: Expr)
    | Subscript(id: nat, base: Expr, selector: Expr)
    | Input(id: nat)
    | Binary(id: nat, isEq: bool, lhs: Expr, rhs: Expr)

  datatype Stmt =
    | Empty
    | Output(e: Expr)
    | Alloc(ptr: Expr, size: Expr)
    | Dealloc(e: Expr)
    | Block(stmts: seq<Stmt>)
    | If(cond: Expr, thenStmt: Stmt, elseStmt: Option<Stmt>)
    | While(cond: Expr, body: Stmt)
    | Assign(target: Expr, e: Expr)

  datatype Function = Function(isMain: bool, params: seq<Type>, retType: Type, body: seq<Stmt>, ret: Expr)

  // ---------------------------------------------------------------------------------------------
  // Constraints
  // ---------------------------------------------------------------------------------------------

  /** `ASTNodeToType`: the declared type of a reference, a type variable otherwise. */
  function NodeType(e: Expr): Type { if e.DeclRef? then e.ty else VarType(e.id) }

  function NodeTypes(es: seq<Expr>): (ts: seq<Type>)
    ensures |ts| == |es| && forall k :: 0 <= k < |es| ==> ts[k] == NodeType(es[k])
  {
    if es == [] then [] else [NodeType(es[0])] + NodeTypes(es[1..])
  }

  /** What the visitor adds for a node, after the nodes below it. */
  function Own(e: Expr): seq<Constraint> {
    match e
    case Number(n) => [Constraint(VarType(n), IntType)]
    case Input(n) => [Constraint(VarType(n), IntType)]
    case DeclRef(_) => []
    case Null(_) => []
    case Sizeof(_) => []
    case Call(n, c, es) => [Constraint(NodeType(c), FunctionType(NodeTypes(es), VarType(n)))]
    case AddrOf(n, t) => [Constraint(VarType(n), PointerType(t))]
    case Deref(n, p) => [Constraint(NodeType(p), PointerType(VarType(n)))]
    case Subscript(n, b, s) => [Constraint(NodeType(s), IntType), Constraint(NodeType(b), PointerType(VarType(n)))]
    case Binary(n, eq, l, r) =>
      [Constraint(VarType(n), IntType)]
      + if eq then [Constraint(NodeType(l), NodeType(r))]
        else [Constraint(NodeType(l), IntType), Constraint(NodeType(r), IntType)]
  }

  function OfExpr(e: Expr): seq<Constraint> {
    match e
    case Call(_, c, es) => OfExpr(c) + OfExprs(es) + Own(e)
    case Deref(_, p) => OfExpr(p) + Own(e)
    case Subscript(_, b, s) => OfExpr(b) + OfExpr(s) + Own(e)
    case Binary(_, _, l, r) => OfExpr(l) + OfExpr(r) + Own(e)
    case _ => Own(e)
  }

  function OfExprs(es: seq<Expr>): seq<Constraint> { if es == [] then [] else OfExpr(es[0]) + OfExprs(es[1..]) }

  function OwnOfStmt(s: Stmt): seq<Constraint> {
    match s
    case Output(e) => [Constraint(NodeType(e), IntType)]
    case If(c, _, _) => [Constraint(NodeType(c), IntType)]
    case While(c, _) => [Constraint(NodeType(c), IntType)]
    case Assign(l, e) => [Constraint(NodeType(l), NodeType(e))]
    case _ => []
  }

  function OfStmt(s: Stmt): seq<Constraint> {
    match s
    case Empty => []
    case Output(e) => OfExpr(e) + OwnOfStmt(s)
    case Alloc(p, n) => OfExpr(p) + OfExpr(n)
    case Dealloc(e) => OfExpr(e)
    case Block(ss) => OfStmts(ss)
    case If(c, t, f) => OfExpr(c) + OfStmt(t) + (if f.Some? then OfStmt(f.value) else []) + OwnOfStmt(s)
    case While(c, b) => OfExpr(c) + OfStmt(b) + OwnOfStmt(s)
    case Assign(l, e) => OfExpr(l) + OfExpr(e) + OwnOfStmt(s)
  }

  function OfStmts(ss: seq<Stmt>): seq<Constraint> { if ss == [] then [] else OfStmt(ss[0]) + OfStmts(ss[1..]) }

  function AreInts(ts: seq<Type>): seq<Constraint> {
    if ts == [] then [] else [Constraint(ts[0], IntType)] + AreInts(ts[1..])
  }

  function OwnOfFunction(f: Function): seq<Constraint> {
    (if f.isMain then AreInts(f.params) + [Constraint(NodeType(f.ret), IntType)] else [])
    + [Constraint(FunctionType(f.params, f.retType), FunctionType(f.params, NodeType(f.ret)))]
  }

  function OfFunction(f: Function): seq<Constraint> { OfStmts(f.body) + OfExpr(f.ret) + OwnOfFunction(f) }

  function OfProgram(fs: seq<Function>): seq<Constraint> { if fs == [] then [] else OfFunction(fs[0]) + OfProgram(fs[1..]) }

  // ---------------------------------------------------------------------------------------------
  // Well-typed programs
  // ---------------------------------------------------------------------------------------------

  /** Arrays count as pointers. */
  function Decayed(t: Type): Type {
    match t
    case PointerType(p) => PointerType(Decayed(p))
    case ArrayType(e, _) => PointerType(Decayed(e))
    case FunctionType(ps, r) => FunctionType(DecayedAll(ps), Decayed(r))
    case _ => t
  }

  function DecayedAll(ts: seq<Type>): (ds: seq<Type>)
    ensures |ds| == |ts| && forall k :: 0 <= k < |ts| ==> ds[k] == Decayed(ts[k])
  {
    if ts == [] then [] else [Decayed(ts[0])] + DecayedAll(ts[1..])
  }

  /** What the declarations say about an expression: it is ill-typed, it may have any type (null and sizeof are not
      constrained), or it has one. */
  datatype Verdict = IllTyped | Any | Known(ty: Type)

  predicate Fits(v: Verdict, t: Type) { v.Any? || (v.Known? && Decayed(v.ty) == Decayed(t)) }

  predicate Agreeing(v: Verdict, w: Verdict) { !v.IllTyped? && !w.IllTyped? && (v.Any? || Fits(w, v.ty)) }

  /** What a pointer or an array holds. */
  function Held(v: Verdict): Verdict {
    match v
    case Known(PointerType(t)) => Known(t)
    case Known(ArrayType(t, _)) => Known(t)
    case Known(_) => IllTyped
    case _ => v
  }

  function Infer(e: Expr): Verdict {
    match e
    case Number(_) => Known(IntType)
    case Input(_) => Known(IntType)
    case DeclRef(t) => Known(t)
    case Null(_) => Any
    case Sizeof(_) => Any
    case AddrOf(_, t) => Known(PointerType(t))
    case Deref(_, p) => Held(Infer(p))
    case Subscript(_, b, s) => if Fits(Infer(s), IntType) then Held(Infer(b)) else IllTyped
    case Binary(_, eq, l, r) =>
      if (if eq then Agreeing(Infer(l), Infer(r)) else Fits(Infer(l), IntType) && Fits(Infer(r), IntType))
      then Known(IntType) else IllTyped
    case Call(_, c, es) =>
      var v := Infer(c);
      if v.Any? && (forall k :: 0 <= k < |es| ==> !Infer(es[k]).IllTyped?) then Any
      else if v.Known? && v.ty.FunctionType? && |v.ty.params| == |es|
              && (forall k :: 0 <= k < |es| ==> Fits(Infer(es[k]), v.ty.params[k])) then Known(v.ty.ret)
      else IllTyped
  }

  predicate StmtTyped(s: Stmt) {
    match s
    case Empty => true
    case Output(e) => Fits(Infer(e), IntType)
    case Alloc(p, n) => !Infer(p).IllTyped? && !Infer(n).IllTyped?
    case Dealloc(e) => !Infer(e).IllTyped?
    case Block(ss) => forall k :: 0 <= k < |ss| ==> StmtTyped(ss[k])
    case If(c, t, f) => Fits(Infer(c), IntType) && StmtTyped(t) && (f.Some? ==> StmtTyped(f.value))
    case While(c, b) => Fits(Infer(c), IntType) && StmtTyped(b)
    case Assign(l, e) => Agreeing(Infer(l), Infer(e))
  }

  /** `main` takes integers and gives one. */
  predicate FunctionTyped(f: Function) {
    && (forall k :: 0 <= k < |f.body| ==> StmtTyped(f.body[k])) && Fits(Infer(f.ret), f.retType)
    && (f.isMain ==> (forall k :: 0 <= k < |f.params| ==> Decayed(f.params[k]) == IntType) && Decayed(f.retType) == IntType)
  }

  predicate WellTyped(fs: seq<Function>) { forall k :: 0 <= k < |fs| ==> FunctionTyped(fs[k]) }

  // ---------------------------------------------------------------------------------------------
  // The visitor
  // ---------------------------------------------------------------------------------------------

  lemma Concat(c0: seq<Constraint>, a: seq<Constraint>, b: seq<Constraint>, c: seq<Constraint>)
    ensures c0 + a + b + c == c0 + (a + b + c) && c0 + a + b == c0 + (a + b)
  {
  }

  lemma ExprsNext(cs: seq<Constraint>, es: seq<Expr>, k: nat)
    requires k < |es|
    ensures cs + OfExprs(es[k..]) == (cs + OfExpr(es[k])) + OfExprs(es[k + 1..])
  {
    assert es[k..][0] == es[k] && es[k..][1..] == es[k + 1..];
  }

  lemma StmtsNext(cs: seq<Constraint>, ss: seq<Stmt>, k: nat)
    requires k < |ss|
    ensures cs + OfStmts(ss[k..]) == (cs + OfStmt(ss[k])) + OfStmts(ss[k + 1..])
  {
    assert ss[k..][0] == ss[k] && ss[k..][1..] == ss[k + 1..];
  }

  class ConstraintVisitor {
    var constraints: seq<Constraint>

    constructor ()
      ensures constraints == []
    {
      constraints := [];
    }

    method VisitExpr(e: Expr)
      modifies this
      ensures constraints == old(constraints) + OfExpr(e)
      decreases e
    {
      ghost var c0 := constraints;
      match e {
        case Call(_, c, es) =>
          VisitExpr(c);
          VisitExprs(es);
          Concat(c0, OfExpr(c), OfExprs(es), Own(e));
        case Deref(_, p) =>
          VisitExpr(p);
          Concat(c0, OfExpr(p), Own(e), []);
        case Subscript(_, b, s) =>
          VisitExpr(b);
          VisitExpr(s);
          Concat(c0, OfExpr(b), OfExpr(s), Own(e));
        case Binary(_, _, l, r) =>
          VisitExpr(l);
          VisitExpr(r);
          Concat(c0, OfExpr(l), OfExpr(r), Own(e));
        case _ =>
      }
      constraints := constraints + Own(e);
    }

    method VisitExprs(es: seq<Expr>)
      modifies this
      ensures constraints == old(constraints) + OfExprs(es)
      decreases es
    {
      for k := 0 to |es|
        invariant constraints + OfExprs(es[k..]) == old(constraints) + OfExprs(es)
      {
        ghost var cs := constraints;
        VisitExpr(es[k]);
        ExprsNext(cs, es, k);
      }
    }

    method VisitStmt(s: Stmt)
      modifies this
      ensures constraints == old(constraints) + OfStmt(s)
      decreases s
    {
      ghost var c0 := constraints;
      match s {
        case Empty =>
        case Output(e) =>
          VisitExpr(e);
          Concat(c0, OfExpr(e), OwnOfStmt(s), []);
        case Alloc(p, n) =>
          VisitExpr(p);
          VisitExpr(n);
          Concat(c0, OfExpr(p), OfExpr(n), []);
        case Dealloc(e) =>
          VisitExpr(e);
        case Block(ss) =>
          VisitStmts(ss);
        case If(c, t, f) =>
          VisitExpr(c);
          VisitStmt(t);
          Concat(c0, OfExpr(c), OfStmt(t), []);
          if f.Some? {
            VisitStmt(f.value);
          }
          Concat(c0, OfExpr(c) + OfStmt(t), if f.Some? then OfStmt(f.value) else [], OwnOfStmt(s));
        case While(c, b) =>
          VisitExpr(c);
          VisitStmt(b);
          Concat(c0, OfExpr(c), OfStmt(b), OwnOfStmt(s));
        case Assign(l, e) =>
          VisitExpr(l);
          VisitExpr(e);
          Concat(c0, OfExpr(l), OfExpr(e), OwnOfStmt(s));
      }
      constraints := constraints + OwnOfStmt(s);
    }

    method VisitStmts(ss: seq<Stmt>)
      modifies this
      ensures constraints == old(constraints) + OfStmts(ss)
      decreases ss
    {
      for k := 0 to |ss|
        invariant constraints + OfStmts(ss[k..]) == old(constraints) + OfStmts(ss)
      {
        ghost var cs := constraints;
        VisitStmt(ss[k]);
        StmtsNext(cs, ss, k);
      }
    }

    method AddAreInts(ts: seq<Type>)
      modifies this
      ensures constraints == old(constraints) + AreInts(ts)
    {
      for k := 0 to |ts|
        invariant constraints + AreInts(ts[k..]) == old(constraints) + AreInts(ts)
      {
        assert ts[k..][0] == ts[k] && ts[k..][1..] == ts[k + 1..];
        constraints := constraints + [Constraint(ts[k], IntType)];
      }
    }

    method ActAfterVisitFunction(f: Function)
      modifies this
      ensures constraints == old(constraints) + OwnOfFunction(f)
    {
      if f.isMain {
        AddAreInts(f.params);
        constraints := constraints + [Constraint(NodeType(f.ret), IntType)];
      }
      constraints := constraints + [Constraint(FunctionType(f.params, f.retType), FunctionType(f.params, NodeType(f.ret)))];
    }

    method VisitFunction(f: Function)
      modifies this
      ensures constraints == old(constraints) + OfFunction(f)
    {
      VisitStmts(f.body);
      VisitExpr(f.ret);
      ActAfterVisitFunction(f);
      Concat(old(constraints), OfStmts(f.body), OfExpr(f.ret), OwnOfFunction(f));
    }

    method VisitProgram(fs: seq<Function>)
      modifies this
      ensures constraints == old(constraints) + OfProgram(fs)
    {
      for k := 0 to |fs|
        invariant constraints + OfProgram(fs[k..]) == old(constraints) + OfProgram(fs)
      {
        assert fs[k..][0] == fs[k] && fs[k..][1..] == fs[k + 1..];
        VisitFunction(fs[k]);
      }
    }
  }
}
