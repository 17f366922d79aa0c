/** From the source program to the graph. */
module CodegenTheorem {
  import opened Ast
  import opened BlockOrder
  import opened IrCodegen
  import opened ExprProof
  import opened StmtProof
  import Ir

  /** The visitors and the generator, one after the other, on the statement of a function body. Every block
      of the result but the last has one terminator, every jump leads to a block of the function, and the
      function lists every block once, the entry first and every other one behind a block that jumps to it. */
  method Compile(types: Types, s: Stmt) returns (b: Builder)
    ensures b == GenStmt(ENTRY, AnnotateStmt(types, s))
    ensures Ok(b) && Linked(b, {}) && LaidOut(b)
    ensures InOrder(b) && b.layout[0] == ENTRY.cur && b.layout[|b.layout| - 1] == b.cur
  {
    var visitors := new AstBuilder(types);
    visitors.VisitStmt(s);
    var generator := new IrCodeGenerator();
    generator.CodegenStmt(visitors.visitedStmt);
    b := generator.View();
    EntryIsOk();
    GenLinked(ENTRY, AnnotateStmt(types, s), {});
    GenLaidOut(ENTRY, AnnotateStmt(types, s));
    EntryInOrder();
    GenInOrder(ENTRY, AnnotateStmt(types, s));
  }

  /** A terminating run of the program is matched by the graph: from the entry it gets to the final insertion
      point with the same store, the same output, and the same input left. The graph may be any that goes on
      from there, and the memory may hold more than the program's. */
  lemma CompiledRuns(env: Env, frame: Ir.Frame, s: Stmt, st: State, fuel: nat, g: Ir.Cfg, m: Ir.Machine)
    returns (m': Ir.Machine)
    requires FrameFor(frame, env) && StmtOk(env.types, s) && Matches(frame, st, m)
    requires Exec(env, s, st, fuel).Some? && Inside(GenStmt(ENTRY, AnnotateStmt(env.types, s)), g, frame)
    ensures Matches(frame, Exec(env, s, st, fuel).value, m')
    ensures Ir.Reaches(g, frame, Ir.Config(0, 0, m), Point(GenStmt(ENTRY, AnnotateStmt(env.types, s)), m'))
  {
    EntryIsOk();
    m' := StmtRuns(env, frame, s, ENTRY, st, fuel, g, m);
  }
}
