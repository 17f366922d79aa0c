/** The grammar of src/codegen/asm/AsmBuilderHelper.gen, which the labeller is run on. */
module AsmGrammar {
  import opened Labeller

  // Terminals, numbered here in the order in which the rules use them.
  const UNDEF: nat := 0
  const CONST: nat := 1
  const LABEL: nat := 2
  const REG: nat := 3
  const CALLARGS: nat := 4
  const FUNCARG: nat := 5
  const ALLOCA: nat := 6
  const LOAD: nat := 7
  const STORE: nat := 8
  const RET: nat := 9
  const GETELEMENTPTR: nat := 10
  const ICMP: nat := 11
  const BR: nat := 12
  const ADD: nat := 13
  const SUB: nat := 14
  const MUL: nat := 15
  const SDIV: nat := 16
  const CALL: nat := 17

  // Nonterminals; there is no nonterminal 0.
  const STMT_NT: nat := 1
  const REG_NT: nat := 2
  const IMM_NT: nat := 3
  const MEM_NT: nat := 4
  const LABEL_NT: nat := 5
  const COND_NT: nat := 6
  const CALL_ARG_NT: nat := 7
  const CALL_ARGS_NT: nat := 8
  const FUNC_ARG_NT: nat := 9

  function N(nt: nat): Pattern { Nonterm(nt, true) }

  function Op0(op: nat): Pattern { Term(op, []) }

  function Op1(op: nat, a: nat): Pattern { Term(op, [N(a)]) }

  function Op2(op: nat, a: nat, b: nat): Pattern { Term(op, [N(a), N(b)]) }

  /** The cost clause of a call names the callee and leaves out the arguments. */
  function Call(callee: nat): Rule { Rule(REG_NT, Term(CALL, [N(callee), Nonterm(CALL_ARGS_NT, false)]), 1) }

  const NO_ARGS: Rule := Rule(CALL_ARGS_NT, Term(CALLARGS, [Op0(UNDEF), Op0(UNDEF)]), 0)
  const MORE_ARGS: Rule := Rule(CALL_ARGS_NT, Op2(CALLARGS, CALL_ARG_NT, CALL_ARGS_NT), 0)

  /** One arithmetic operator with its four operand forms. */
  function Arithmetic(op: nat, rr: nat, ri: nat, ir: nat, ii: nat): seq<Rule> {
    [Rule(REG_NT, Op2(op, REG_NT, REG_NT), rr), Rule(REG_NT, Op2(op, REG_NT, IMM_NT), ri),
     Rule(REG_NT, Op2(op, IMM_NT, REG_NT), ir), Rule(REG_NT, Op2(op, IMM_NT, IMM_NT), ii)]
  }

  const LEAVES: seq<Rule> := [
    Rule(LABEL_NT, Op0(LABEL), 0), Rule(IMM_NT, Op0(CONST), 0), Rule(REG_NT, Op0(REG), 0), Rule(MEM_NT, Op0(ALLOCA), 0),
    Rule(FUNC_ARG_NT, Op0(FUNCARG), 0)]

  const LOADS: seq<Rule> := [
    Rule(REG_NT, Op1(LOAD, MEM_NT), 1), Rule(REG_NT, Op1(LOAD, REG_NT), 1), Rule(STMT_NT, N(REG_NT), 0),
    Rule(STMT_NT, Op1(RET, REG_NT), 1), Rule(STMT_NT, Term(RET, [Op0(UNDEF)]), 0), Rule(STMT_NT, Op1(RET, IMM_NT), 1)]

  const STORES: seq<Rule> := [
    Rule(STMT_NT, Op2(STORE, REG_NT, MEM_NT), 1), Rule(STMT_NT, Op2(STORE, REG_NT, REG_NT), 1),
     Rule(STMT_NT, Op2(STORE, IMM_NT, REG_NT), 1),
    Rule(STMT_NT, Op2(STORE, IMM_NT, MEM_NT), 1), Rule(STMT_NT, Op2(STORE, MEM_NT, MEM_NT), 1),
     Rule(STMT_NT, Op2(STORE, LABEL_NT, MEM_NT), 1),
    Rule(STMT_NT, Op2(STORE, FUNC_ARG_NT, MEM_NT), 1)]

  const ADDRESSES: seq<Rule> := [
    Rule(MEM_NT, Op2(GETELEMENTPTR, MEM_NT, IMM_NT), 1), Rule(MEM_NT, Op2(GETELEMENTPTR, MEM_NT, REG_NT), 1),
    Rule(MEM_NT, Op2(GETELEMENTPTR, REG_NT, IMM_NT), 1), Rule(MEM_NT, Op2(GETELEMENTPTR, REG_NT, REG_NT), 1)]

  const BRANCHES: seq<Rule> := [
    Rule(COND_NT, Op2(ICMP, REG_NT, REG_NT), 1), Rule(COND_NT, Op2(ICMP, REG_NT, IMM_NT), 1),
     Rule(COND_NT, Op2(ICMP, IMM_NT, REG_NT), 1),
    Rule(STMT_NT, Term(BR, [N(COND_NT), N(LABEL_NT), N(LABEL_NT)]), 1),
    Rule(STMT_NT, Term(BR, [N(LABEL_NT), Op0(UNDEF), Op0(UNDEF)]), 1)]

  const CALLS: seq<Rule> := [
    Rule(CALL_ARG_NT, N(REG_NT), 1), Rule(CALL_ARG_NT, N(IMM_NT), 1), Rule(CALL_ARG_NT, N(MEM_NT), 1),
     Rule(CALL_ARG_NT, N(LABEL_NT), 1),
    NO_ARGS, MORE_ARGS, Call(LABEL_NT), Call(REG_NT), Call(MEM_NT)]

  const RULES: seq<Rule> :=
    LEAVES + LOADS + STORES + ADDRESSES + BRANCHES
    + Arithmetic(ADD, 1, 1, 1, 1) + Arithmetic(SUB, 1, 1, 2, 1) + Arithmetic(MUL, 1, 1, 1, 1) + Arithmetic(SDIV, 2, 3, 2, 3)
    + CALLS

  const ASM: Grammar := Grammar(10, RULES)

  // ---------------------------------------------------------------------------------------------
  // Facts about the rules
  // ---------------------------------------------------------------------------------------------

  predicate RuleFacts(r: Rule) {
    && RuleOk(r, 10)
    && (Counts(r.pattern) || (r.pattern.Term? && r.pattern.op == CALL))
    && (r.lhs == REG_NT ==> r.pattern.Term?)
    && (r.pattern.Term? && r.pattern.op == CALL ==> r == Call(LABEL_NT) || r == Call(REG_NT) || r == Call(MEM_NT))
    && (r.lhs == CALL_ARG_NT ==> r.extra == 1)
    && (r.lhs == CALL_ARGS_NT ==> r == NO_ARGS || r == MORE_ARGS)
  }

  ghost predicate Facts(rs: seq<Rule>) { forall r :: r in rs ==> RuleFacts(r) }

  lemma FlatPattern(op: nat)
    ensures PatternOk(Op0(op), 10) && Counts(Op0(op))
  {
  }

  lemma TermFacts(op: nat, ps: seq<Pattern>)
    requires forall k :: 0 <= k < |ps| ==> PatternOk(ps[k], 10) && Counts(ps[k])
    ensures PatternOk(Term(op, ps), 10) && Counts(Term(op, ps))
  {
  }

  lemma LeafFacts()
    ensures Facts(LEAVES)
  {
  }

  lemma LoadFacts()
    ensures Facts(LOADS)
  {
    FlatPattern(UNDEF);
  }

  lemma StoreFacts()
    ensures Facts(STORES)
  {
  }

  lemma AddressFacts()
    ensures Facts(ADDRESSES)
  {
  }

  lemma BranchFacts()
    ensures Facts(BRANCHES)
  {
    FlatPattern(UNDEF);
    TermFacts(BR, [N(COND_NT), N(LABEL_NT), N(LABEL_NT)]);
    TermFacts(BR, [N(LABEL_NT), Op0(UNDEF), Op0(UNDEF)]);
  }

  lemma CallRuleFacts(callee: nat)
    requires callee == LABEL_NT || callee == REG_NT || callee == MEM_NT
    ensures RuleFacts(Call(callee))
  {
    var ps := Call(callee).pattern.kids;
    assert forall k :: 0 <= k < |ps| ==> PatternOk(ps[k], 10);
  }

  lemma CallFacts()
    ensures Facts(CALLS)
  {
    FlatPattern(UNDEF);
    TermFacts(CALLARGS, [Op0(UNDEF), Op0(UNDEF)]);
    TermFacts(CALLARGS, [N(CALL_ARG_NT), N(CALL_ARGS_NT)]);
    CallRuleFacts(LABEL_NT);
    CallRuleFacts(REG_NT);
    CallRuleFacts(MEM_NT);
  }

  lemma ArithmeticFacts(op: nat, rr: nat, ri: nat, ir: nat, ii: nat)
    requires op != CALL
    ensures Facts(Arithmetic(op, rr, ri, ir, ii))
  {
    TermFacts(op, [N(REG_NT), N(REG_NT)]);
    TermFacts(op, [N(REG_NT), N(IMM_NT)]);
    TermFacts(op, [N(IMM_NT), N(REG_NT)]);
    TermFacts(op, [N(IMM_NT), N(IMM_NT)]);
  }

  lemma FactsConcat(a: seq<Rule>, b: seq<Rule>)
    requires Facts(a) && Facts(b)
    ensures Facts(a + b)
  {
  }

  lemma AsmFacts()
    ensures Facts(ASM.rules) && GrammarOk(ASM) && CountsBut(ASM, CALL)
  {
    LeafFacts();
    LoadFacts();
    StoreFacts();
    AddressFacts();
    BranchFacts();
    CallFacts();
    ArithmeticFacts(ADD, 1, 1, 1, 1);
    ArithmeticFacts(SUB, 1, 1, 2, 1);
    ArithmeticFacts(MUL, 1, 1, 1, 1);
    ArithmeticFacts(SDIV, 2, 3, 2, 3);
    FactsConcat(LEAVES, LOADS);
    FactsConcat(LEAVES + LOADS, STORES);
    FactsConcat(LEAVES + LOADS + STORES, ADDRESSES);
    FactsConcat(LEAVES + LOADS + STORES + ADDRESSES, BRANCHES);
    var rest := LEAVES + LOADS + STORES + ADDRESSES + BRANCHES;
    FactsConcat(rest, Arithmetic(ADD, 1, 1, 1, 1));
    FactsConcat(rest + Arithmetic(ADD, 1, 1, 1, 1), Arithmetic(SUB, 1, 1, 2, 1));
    FactsConcat(rest + Arithmetic(ADD, 1, 1, 1, 1) + Arithmetic(SUB, 1, 1, 2, 1), Arithmetic(MUL, 1, 1, 1, 1));
    FactsConcat(rest + Arithmetic(ADD, 1, 1, 1, 1) + Arithmetic(SUB, 1, 1, 2, 1) + Arithmetic(MUL, 1, 1, 1, 1),
                Arithmetic(SDIV, 2, 3, 2, 3));
    FactsConcat(rest + Arithmetic(ADD, 1, 1, 1, 1) + Arithmetic(SUB, 1, 1, 2, 1) + Arithmetic(MUL, 1, 1, 1, 1)
                + Arithmetic(SDIV, 2, 3, 2, 3), CALLS);
  }

  // ---------------------------------------------------------------------------------------------
  // Calls of constants
  // ---------------------------------------------------------------------------------------------

  const UNDEF_TREE: Tree := Tree(UNDEF, [])

  /** A list of `n` constant arguments. */
  function Arguments(n: nat): Tree {
    if n == 0 then Tree(CALLARGS, [UNDEF_TREE, UNDEF_TREE]) else Tree(CALLARGS, [Tree(CONST, []), Arguments(n - 1)])
  }

  const CONST_RULE: Rule := Rule(IMM_NT, Op0(CONST), 0)
  const LABEL_RULE: Rule := Rule(LABEL_NT, Op0(LABEL), 0)
  const IMM_ARG: Rule := Rule(CALL_ARG_NT, N(IMM_NT), 1)

  function ConstArgUse(): Derivation { Use(IMM_ARG, Leaf(Use(CONST_RULE, Inner([])))) }

  function ArgumentsUse(n: nat): Derivation {
    if n == 0 then Use(NO_ARGS, Inner([Inner([]), Inner([])]))
    else Use(MORE_ARGS, Inner([Leaf(ConstArgUse()), Leaf(ArgumentsUse(n - 1))]))
  }

  function CallTree(n: nat): Tree { Tree(CALL, [Tree(LABEL, []), Arguments(n)]) }

  function CallUse(n: nat): Derivation {
    Use(Call(LABEL_NT), Inner([Leaf(Use(LABEL_RULE, Inner([]))), Leaf(ArgumentsUse(n))]))
  }

  lemma ConstArgIsDerived(g: Grammar)
    requires IMM_ARG in g.rules && CONST_RULE in g.rules
    ensures Derives(g, ConstArgUse(), Tree(CONST, []), CALL_ARG_NT)
  {
    assert Fits(g, Inner([]), Op0(CONST), Tree(CONST, []));
    assert Derives(g, Use(CONST_RULE, Inner([])), Tree(CONST, []), IMM_NT);
  }

  lemma {:induction false} ArgumentsAreDerived(g: Grammar, n: nat)
    requires NO_ARGS in g.rules && MORE_ARGS in g.rules && IMM_ARG in g.rules && CONST_RULE in g.rules
    ensures Derives(g, ArgumentsUse(n), Arguments(n), CALL_ARGS_NT)
  {
    if n == 0 {
      assert Fits(g, Inner([]), Op0(UNDEF), UNDEF_TREE);
    } else {
      ConstArgIsDerived(g);
      ArgumentsAreDerived(g, n - 1);
      assert Fits(g, Leaf(ConstArgUse()), N(CALL_ARG_NT), Tree(CONST, []));
      assert Fits(g, Leaf(ArgumentsUse(n - 1)), N(CALL_ARGS_NT), Arguments(n - 1));
    }
  }

  lemma MoreArgsCost(g: Grammar, d: Derivation, arg: Tree, rest: Tree) returns (e: Derivation)
    requires Facts(g.rules) && d.rule == MORE_ARGS && Derives(g, d, Tree(CALLARGS, [arg, rest]), CALL_ARGS_NT)
    ensures Derives(g, e, rest, CALL_ARGS_NT) && Cost(d) >= Cost(e) + 1
    ensures e < d
  {
    var ms := d.how.kids;
    assert Fits(g, ms[0], N(CALL_ARG_NT), arg) && Fits(g, ms[1], N(CALL_ARGS_NT), rest);
    e := ms[1].sub;
    assert RuleFacts(ms[0].sub.rule);
    assert MatchCosts(ms, MORE_ARGS.pattern.kids)
        == MatchCost(ms[0], N(CALL_ARG_NT)) + MatchCosts(ms[1..], [N(CALL_ARGS_NT)]);
  }

  /** Every argument costs something. */
  lemma {:induction false} ArgumentsCost(g: Grammar, n: nat, d: Derivation)
    requires Facts(g.rules) && Derives(g, d, Arguments(n), CALL_ARGS_NT)
    ensures Cost(d) >= n
  {
    if n > 0 {
      assert RuleFacts(d.rule);
      assert d.rule == NO_ARGS ==> Fits(g, d.how.kids[0], Op0(UNDEF), Tree(CONST, []));
      var e := MoreArgsCost(g, d, Tree(CONST, []), Arguments(n - 1));
      ArgumentsCost(g, n - 1, e);
    }
  }

  /** Every rule for calls costs 1. */
  lemma CallsCost(g: Grammar, n: nat, d: Derivation)
    requires Facts(g.rules) && Derives(g, d, CallTree(n), REG_NT)
    ensures Cost(d) >= 1
  {
    assert RuleFacts(d.rule) && Fits(g, d.how, d.rule.pattern, CallTree(n));
  }

  lemma LongCallIsUnbounded(g: Grammar, n: nat, d: Derivation)
    requires Facts(g.rules) && n >= INFINITY && Derives(g, d, CallTree(n), REG_NT)
    ensures !Bounded(d)
  {
    assert RuleFacts(d.rule);
    var ms := d.how.kids;
    assert Fits(g, ms[1], d.rule.pattern.kids[1], Arguments(n));
    ArgumentsCost(g, n, ms[1].sub);
    assert !Bounded(ms[1].sub);
    assert !BoundedMatch(ms[1]);
  }

  lemma CallIsDerived(g: Grammar, n: nat)
    requires NO_ARGS in g.rules && MORE_ARGS in g.rules && IMM_ARG in g.rules && CONST_RULE in g.rules
    requires LABEL_RULE in g.rules && Call(LABEL_NT) in g.rules
    ensures Derives(g, CallUse(n), CallTree(n), REG_NT) && Cost(CallUse(n)) == 1
  {
    ArgumentsAreDerived(g, n);
    assert Fits(g, Inner([]), Op0(LABEL), Tree(LABEL, []));
    assert Fits(g, Leaf(Use(LABEL_RULE, Inner([]))), N(LABEL_NT), Tree(LABEL, []));
    assert Fits(g, Leaf(ArgumentsUse(n)), Nonterm(CALL_ARGS_NT, false), Arguments(n));
    var ms, ps := CallUse(n).how.kids, Call(LABEL_NT).pattern.kids;
    assert Cost(Use(LABEL_RULE, Inner([]))) == 0;
    assert MatchCosts(ms[1..], ps[1..]) == MatchCost(ms[1], ps[1]) + MatchCosts(ms[1..][1..], ps[1..][1..]) == 0;
    assert MatchCosts(ms, ps) == MatchCost(ms[0], ps[0]) + MatchCosts(ms[1..], ps[1..]) == 0;
  }

  lemma AsmHasCallRules()
    ensures NO_ARGS in ASM.rules && MORE_ARGS in ASM.rules && IMM_ARG in ASM.rules && CONST_RULE in ASM.rules
    ensures LABEL_RULE in ASM.rules && Call(LABEL_NT) in ASM.rules
  {
    assert CALLS[1] == IMM_ARG && CALLS[4] == NO_ARGS && CALLS[5] == MORE_ARGS && CALLS[6] == Call(LABEL_NT);
    assert LEAVES[0] == LABEL_RULE && LEAVES[1] == CONST_RULE;
  }

  lemma {:induction false} ArgumentsAreBounded(n: nat)
    ensures Cost(ArgumentsUse(n)) == n
    ensures n < INFINITY ==> Bounded(ArgumentsUse(n))
  {
    if n == 0 {
      var ms, ps := [Inner([]), Inner([])], NO_ARGS.pattern.kids;
      assert MatchCosts(ms, ps) == MatchCost(ms[0], ps[0]) + MatchCosts(ms[1..], ps[1..]);
      assert MatchCosts(ms[1..], ps[1..]) == MatchCost(ms[1], ps[1]) + MatchCosts(ms[1..][1..], ps[1..][1..]);
    } else {
      ArgumentsAreBounded(n - 1);
      var ms, ps := [Leaf(ConstArgUse()), Leaf(ArgumentsUse(n - 1))], MORE_ARGS.pattern.kids;
      assert Cost(Use(CONST_RULE, Inner([]))) == 0 && Cost(ConstArgUse()) == 1;
      assert MatchCosts(ms, ps) == MatchCost(ms[0], ps[0]) + MatchCosts(ms[1..], ps[1..]);
      assert MatchCosts(ms[1..], ps[1..]) == MatchCost(ms[1], ps[1]) + MatchCosts(ms[1..][1..], ps[1..][1..]);
      assert Bounded(ConstArgUse());
    }
  }

  lemma ShortCallIsBounded(n: nat)
    requires n < INFINITY && Cost(CallUse(n)) == 1
    ensures Bounded(CallUse(n))
  {
    ArgumentsAreBounded(n);
    assert Cost(Use(LABEL_RULE, Inner([]))) == 0;
    assert BoundedMatch(Leaf(Use(LABEL_RULE, Inner([])))) && BoundedMatch(Leaf(ArgumentsUse(n)));
  }

  /** A call of `n` constant arguments has a derivation of cost 1, as its clause leaves the arguments out; a rule is
      recorded for it, at that cost, if and only if there are fewer than 32767 of them. */
  lemma LongCallIsMissed(l: Labelled, n: nat)
    requires Good(ASM, l) && l.tree == CallTree(n)
    ensures Derives(ASM, CallUse(n), l.tree, REG_NT) && Cost(CallUse(n)) == 1
    ensures RuleOf(l, REG_NT).Some? <==> n < INFINITY
    ensures n < INFINITY ==> CostOf(l, REG_NT) == 1
  {
    AsmHasCallRules();
    CallIsDerived(ASM, n);
    AsmFacts();
    assert BestFor(ASM, l, REG_NT);
    if n < INFINITY {
      ShortCallIsBounded(n);
      var d :| Records(ASM, l, REG_NT, d);
      CallsCost(ASM, n, d);
    } else if RuleOf(l, REG_NT).Some? {
      var d :| Records(ASM, l, REG_NT, d);
      LongCallIsUnbounded(ASM, n, d);
      assert false;
    }
  }

  /** The labeller run on a tree: what `gen` finds covered. */
  method Gen(t: Tree) returns (l: Labelled, covered: bool)
    ensures l.tree == t && Good(ASM, l)
    ensures covered <==> Derivable(ASM, t, STMT_NT)
  {
    AsmFacts();
    l, covered := Cover(ASM, STMT_NT, t);
  }
}
