/** The source language as far as code generation for statements goes: what programs mean, and the tree
    that the parser's visitors build (src/frontend/ASTBuilder.cpp). */
module Ast {
  import opened Int64
  import opened Options

  datatype Ty = IntTy | PtrTy(pointee: Ty) | ArrTy(elem: Ty, length: nat)

  datatype Op = Mul | Div | Add | Sub | Gt | Eq

  /** Variables are numbered; parentheses leave no trace. */
  datatype Expr =
    | Num(n: int)
    | Id(x: nat)
    | AddrOf(x: nat)
    | Deref(ptr: Expr)
    | Subscript(base: Expr, selector: Expr)
    | Input
    | Binary(op: Op, lhs: Expr, rhs: Expr)

  datatype Stmt =
    | Empty
    | Output(e: Expr)
    | Block(stmts: seq<Stmt>)
    | Assign(target: Expr, e: Expr)
    | If(cond: Expr, thenStmt: Stmt, elseStmt: Option<Stmt>)
    | While(cond: Expr, body: Stmt)

  /** The declared types. */
  type Types = map<nat, Ty>

  /** Size in bytes, as the data layout has it. */
  function SizeOf(ty: Ty): nat {
    match ty
    case IntTy => 8
    case PtrTy(_) => 8
    case ArrTy(elem, n) => n * SizeOf(elem)
  }

  function TypeOf(types: Types, e: Expr): Option<Ty> {
    match e
    case Num(_) => Some(IntTy)
    case Id(x) => if x in types then Some(types[x]) else None
    case AddrOf(x) => if x in types then Some(PtrTy(types[x])) else None
    case Deref(p) => var ty := TypeOf(types, p); if ty.Some? && ty.value.PtrTy? then Some(ty.value.pointee) else None
    case Subscript(b, _) => var ty := TypeOf(types, b); if ty.Some? && ty.value.ArrTy? then Some(ty.value.elem) else None
    case Input => Some(IntTy)
    case Binary(_, l, _) => TypeOf(types, l)
  }

  // ---------------------------------------------------------------------------------------------
  // Which programs
  // ---------------------------------------------------------------------------------------------

  predicate IsComparison(e: Expr) { e.Binary? && (e.op.Gt? || e.op.Eq?) }

  predicate Scalar(ty: Option<Ty>) { ty.Some? && !ty.value.ArrTy? }

  /** An integer that is not the result of a comparison. */
  predicate IsInteger(types: Types, e: Expr) { TypeOf(types, e) == Some(IntTy) && !IsComparison(e) }

  /** Expressions with a value: array elements and pointees are scalars, comparisons are not used as
      integers. */
  predicate ValueOk(types: Types, e: Expr)
    decreases e, 1
  {
    match e
    case Num(n) => InRange(n)
    case Id(x) => Scalar(TypeOf(types, e))
    case AddrOf(x) => x in types
    case Deref(p) => ValueOk(types, p) && !IsComparison(p) && Scalar(TypeOf(types, e))
    case Subscript(_, _) => AddressOk(types, e) && Scalar(TypeOf(types, e))
    case Input => true
    case Binary(op, l, r) =>
      && ValueOk(types, l) && ValueOk(types, r)
      && if op.Eq? then IsComparison(l) == IsComparison(r) else IsInteger(types, l) && IsInteger(types, r)
  }

  /** Expressions with an address: variables, `*L` and `L[E]`. */
  predicate AddressOk(types: Types, e: Expr)
    decreases e, 0
  {
    match e
    case Id(x) => x in types
    case Deref(p) => AddressOk(types, p) && TypeOf(types, e).Some?
    case Subscript(b, i) => AddressOk(types, b) && ValueOk(types, i) && IsInteger(types, i) && TypeOf(types, e).Some?
    case _ => false
  }

  predicate ConditionOk(types: Types, e: Expr) { ValueOk(types, e) && (IsComparison(e) || IsInteger(types, e)) }

  predicate StmtOk(types: Types, s: Stmt) {
    match s
    case Empty => true
    case Output(e) => ValueOk(types, e) && IsInteger(types, e)
    case Block(ss) => forall k :: 0 <= k < |ss| ==> StmtOk(types, ss[k])
    case Assign(l, e) => AddressOk(types, l) && Scalar(TypeOf(types, l)) && ValueOk(types, e) && !IsComparison(e)
    case If(c, t, f) => ConditionOk(types, c) && StmtOk(types, t) && (f.Some? ==> StmtOk(types, f.value))
    case While(c, b) => ConditionOk(types, c) && StmtOk(types, b)
  }

  // ---------------------------------------------------------------------------------------------
  // What programs mean
  // ---------------------------------------------------------------------------------------------

  type Memory = map<int, int>

  datatype State = State(mem: Memory, input: seq<int>, output: seq<int>)

  /** Where the variables lie, and what types they have. */
  datatype Env = Env(types: Types, addr: nat -> int)

  /** A value together with the input that is left. */
  datatype Result = Result(value: int, input: seq<int>)

  function Fetch(mem: Memory, r: Option<Result>): Option<Result> {
    if r.Some? && r.value.value in mem then Some(Result(mem[r.value.value], r.value.input)) else None
  }

  function Apply(op: Op, a: int, b: int): Option<int> {
    match op
    case Mul => Some(Wrap(a * b))
    case Div => if Divides(a, b) then Some(Truncated(a, b)) else None
    case Add => Some(Wrap(a + b))
    case Sub => Some(Wrap(a - b))
    case Gt => Some(Bit(a > b))
    case Eq => Some(Bit(a == b))
  }

  /** The value of an expression; there is none where the program's behaviour is undefined. */
  function Value(env: Env, e: Expr, mem: Memory, input: seq<int>): Option<Result>
    decreases e, 1
  {
    match e
    case Num(n) => Some(Result(n, input))
    case Id(x) => Fetch(mem, Some(Result(env.addr(x), input)))
    case AddrOf(x) => Some(Result(env.addr(x), input))
    case Deref(p) => Fetch(mem, Value(env, p, mem, input))
    case Subscript(_, _) => Fetch(mem, Address(env, e, mem, input))
    case Input => if input == [] then None else Some(Result(input[0], input[1..]))
    case Binary(op, l, r) =>
      var a := Value(env, l, mem, input);
      if a.None? then None else
      var b := Value(env, r, mem, a.value.input);
      if b.None? then None else
      var v := Apply(op, a.value.value, b.value.value);
      if v.None? then None else Some(Result(v.value, b.value.input))
  }

  /** The address of the cell that an expression denotes. */
  function Address(env: Env, e: Expr, mem: Memory, input: seq<int>): Option<Result>
    decreases e, 0
  {
    match e
    case Id(x) => Some(Result(env.addr(x), input))
    case Deref(p) => Value(env, p, mem, input)
    case Subscript(b, i) =>
      var base := Address(env, b, mem, input);
      if base.None? then None else
      var index := Value(env, i, mem, base.value.input);
      var ty := TypeOf(env.types, b);
      if index.None? || ty.None? || !ty.value.ArrTy? || !(0 <= index.value.value < ty.value.length) then None else
      Some(Result(ElementAt(base.value.value, index.value.value, SizeOf(ty.value.elem)), index.value.input))
    case _ => None
  }

  /** Running a statement; `fuel` bounds how often loops go round. */
  function Exec(env: Env, s: Stmt, st: State, fuel: nat): Option<State>
    decreases fuel, s
  {
    match s
    case Empty => Some(st)
    case Output(e) =>
      var r := Value(env, e, st.mem, st.input);
      if r.None? then None else Some(State(st.mem, r.value.input, st.output + [r.value.value]))
    case Block(ss) => ExecAll(env, ss, st, fuel)
    case Assign(l, e) =>
      var r := Value(env, e, st.mem, st.input);
      if r.None? then None else
      var a := Address(env, l, st.mem, r.value.input);
      if a.None? || a.value.value !in st.mem then None else
      Some(State(st.mem[a.value.value := r.value.value], a.value.input, st.output))
    case If(c, t, f) =>
      var r := Value(env, c, st.mem, st.input);
      if r.None? then None else
      var st1 := st.(input := r.value.input);
      if r.value.value != 0 then Exec(env, t, st1, fuel)
      else if f.Some? then Exec(env, f.value, st1, fuel)
      else Some(st1)
    case While(c, b) =>
      if fuel == 0 then None else
      var r := Value(env, c, st.mem, st.input);
      if r.None? then None else
      var st1 := st.(input := r.value.input);
      if r.value.value == 0 then Some(st1) else
      var st2 := Exec(env, b, st1, fuel - 1);
      if st2.None? then None else Exec(env, s, st2.value, fuel - 1)
  }

  function ExecAll(env: Env, ss: seq<Stmt>, st: State, fuel: nat): Option<State>
    decreases fuel, ss
  {
    if ss == [] then Some(st) else
    var st1 := Exec(env, ss[0], st, fuel);
    if st1.None? then None else ExecAll(env, ss[1..], st1.value, fuel)
  }

  /** More fuel does not change what a run comes to. */
  lemma {:induction false} MoreFuel(env: Env, s: Stmt, st: State, fuel: nat, more: nat)
    requires fuel <= more && Exec(env, s, st, fuel).Some?
    ensures Exec(env, s, st, more) == Exec(env, s, st, fuel)
    decreases fuel, s
  {
    match s
    case Block(ss) => MoreFuelAll(env, ss, st, fuel, more);
    case If(c, t, f) =>
      var r := Value(env, c, st.mem, st.input);
      if r.value.value != 0 {
        MoreFuel(env, t, st.(input := r.value.input), fuel, more);
      } else if f.Some? {
        MoreFuel(env, f.value, st.(input := r.value.input), fuel, more);
      }
    case While(c, b) =>
      var r := Value(env, c, st.mem, st.input);
      if r.value.value != 0 {
        var st1 := st.(input := r.value.input);
        MoreFuel(env, b, st1, fuel - 1, more - 1);
        MoreFuel(env, s, Exec(env, b, st1, fuel - 1).value, fuel - 1, more - 1);
      }
    case _ =>
  }

  lemma {:induction false} MoreFuelAll(env: Env, ss: seq<Stmt>, st: State, fuel: nat, more: nat)
    requires fuel <= more && ExecAll(env, ss, st, fuel).Some?
    ensures ExecAll(env, ss, st, more) == ExecAll(env, ss, st, fuel)
    decreases fuel, ss
  {
    if ss != [] {
      MoreFuel(env, ss[0], st, fuel, more);
      MoreFuelAll(env, ss[1..], Exec(env, ss[0], st, fuel).value, fuel, more);
    }
  }

  // ---------------------------------------------------------------------------------------------
  // The tree with its lvalue marks
  // ---------------------------------------------------------------------------------------------

  datatype AExpr =
    | NumberExpr(n: int)
    | DeclRefExpr(x: nat, isLValue: bool)
    | AddrOfExpr(x: nat)
    | DerefExpr(isLValue: bool, ptr: AExpr)
    | ArraySubscriptExpr(elem: Ty, isLValue: bool, base: AExpr, selector: AExpr)
    | InputExpr
    | BinaryExpr(op: Op, lhs: AExpr, rhs: AExpr)

  datatype AStmt =
    | EmptyStmt
    | OutputStmt(e: AExpr)
    | BlockStmt(stmts: seq<AStmt>)
    | AssignmentStmt(lhs: AExpr, rhs: AExpr)
    | IfStmt(cond: AExpr, thenStmt: AStmt, elseStmt: Option<AStmt>)
    | WhileStmt(cond: AExpr, body: AStmt)

  function ElemTy(types: Types, base: Expr): Ty {
    var ty := TypeOf(types, base);
    if ty.Some? && ty.value.ArrTy? then ty.value.elem else IntTy
  }

  /** The marks, with the mode passed down: in address mode an expression is marked as an lvalue. */
  function Annotate(types: Types, e: Expr, address: bool): AExpr {
    match e
    case Num(n) => NumberExpr(n)
    case Id(x) => DeclRefExpr(x, address)
    case AddrOf(x) => AddrOfExpr(x)
    case Deref(p) => DerefExpr(address, Annotate(types, p, address))
    case Subscript(b, i) =>
      ArraySubscriptExpr(ElemTy(types, b), address, Annotate(types, b, true), Annotate(types, i, false))
    case Input => InputExpr
    case Binary(op, l, r) => BinaryExpr(op, Annotate(types, l, false), Annotate(types, r, false))
  }

  function AnnotateStmt(types: Types, s: Stmt): AStmt {
    match s
    case Empty => EmptyStmt
    case Output(e) => OutputStmt(Annotate(types, e, false))
    case Block(ss) => BlockStmt(AnnotateAll(types, ss))
    case Assign(l, e) => AssignmentStmt(Annotate(types, l, true), Annotate(types, e, false))
    case If(c, t, f) =>
      IfStmt(Annotate(types, c, false), AnnotateStmt(types, t), if f.Some? then Some(AnnotateStmt(types, f.value)) else None)
    case While(c, b) => WhileStmt(Annotate(types, c, false), AnnotateStmt(types, b))
  }

  function AnnotateAll(types: Types, ss: seq<Stmt>): (rs: seq<AStmt>)
    ensures |rs| == |ss|
  {
    if ss == [] then [] else [AnnotateStmt(types, ss[0])] + AnnotateAll(types, ss[1..])
  }

  /** The visitors: `exprIsLValue`, `visitedExpr` and `visitedStmt` are set and read across the visits. */
  class AstBuilder {
    const types: Types
    var exprIsLValue: bool
    var visitedExpr: AExpr
    var visitedStmt: AStmt

    constructor (types: Types)
      ensures this.types == types
    {
      this.types := types;
      exprIsLValue, visitedExpr, visitedStmt := false, InputExpr, EmptyStmt;
    }

    /** The flag as it happens to stand plays the part of the mode. */
    method VisitExpr(e: Expr)
      modifies this`exprIsLValue, this`visitedExpr
      ensures visitedExpr == Annotate(types, e, old(exprIsLValue))
      decreases e
    {
      match e
      case Num(n) =>
        visitedExpr := NumberExpr(n);
      case Id(x) =>
        visitedExpr := DeclRefExpr(x, exprIsLValue);
      case AddrOf(x) =>
        visitedExpr := AddrOfExpr(x);
      case Deref(p) =>
        var lvalue := exprIsLValue;
        VisitExpr(p);
        visitedExpr := DerefExpr(lvalue, visitedExpr);
      case Subscript(b, i) =>
        var lvalue := exprIsLValue;
        exprIsLValue := true;
        VisitExpr(b);
        var base := visitedExpr;
        exprIsLValue := false;
        VisitExpr(i);
        visitedExpr := ArraySubscriptExpr(ElemTy(types, b), lvalue, base, visitedExpr);
      case Input =>
        visitedExpr := InputExpr;
      case Binary(op, l, r) =>
        exprIsLValue := false;
        VisitExpr(l);
        var lhs := visitedExpr;
        exprIsLValue := false;
        VisitExpr(r);
        visitedExpr := BinaryExpr(op, lhs, visitedExpr);
    }

    method VisitStmt(s: Stmt)
      modifies this
      ensures visitedStmt == AnnotateStmt(types, s)
      decreases s
    {
      match s
      case Empty =>
        visitedStmt := EmptyStmt;
      case Output(e) =>
        exprIsLValue := false;
        VisitExpr(e);
        visitedStmt := OutputStmt(visitedExpr);
      case Block(ss) =>
        var stmts := [];
        for k := 0 to |ss|
          invariant |stmts| == k && stmts + AnnotateAll(types, ss[k..]) == AnnotateAll(types, ss)
        {
          VisitStmt(ss[k]);
          assert ss[k..][1..] == ss[k + 1..];
          stmts := stmts + [visitedStmt];
        }
        visitedStmt := BlockStmt(stmts);
      case Assign(l, e) =>
        exprIsLValue := true;
        VisitExpr(l);
        var lhs := visitedExpr;
        exprIsLValue := false;
        VisitExpr(e);
        visitedStmt := AssignmentStmt(lhs, visitedExpr);
      case If(c, t, f) =>
        exprIsLValue := false;
        VisitExpr(c);
        var cond := visitedExpr;
        VisitStmt(t);
        var thenStmt := visitedStmt;
        if f.Some? {
          VisitStmt(f.value);
          visitedStmt := IfStmt(cond, thenStmt, Some(visitedStmt));
        } else {
          visitedStmt := IfStmt(cond, thenStmt, None);
        }
      case While(c, b) =>
        exprIsLValue := false;
        VisitExpr(c);
        var cond := visitedExpr;
        VisitStmt(b);
        visitedStmt := WhileStmt(cond, visitedStmt);
    }
  }
}
