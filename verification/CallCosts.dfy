/** What the cost clauses of calls (src/codegen/asm/AsmBuilderHelper.gen:506,520,534) mean for the labels: they leave the
    arguments out, while the labeller adds up all costs below `INFINITY`. */
module CallCosts {
  import opened Labeller
  import opened AsmGrammar

  // ---------------------------------------------------------------------------------------------
  // The condition
  // ---------------------------------------------------------------------------------------------

  /** Some rule for calls takes the tree as its callee, at a cost that can be recorded. */
  ghost predicate IsCallee(g: Grammar, t: Tree) {
    exists c, d :: Call(c) in g.rules && Derives(g, d, t, c) && Cost(d) + 1 < INFINITY
  }

  ghost predicate IsArgumentList(g: Grammar, t: Tree) { exists d :: Derives(g, d, t, CALL_ARGS_NT) }

  /** If the node is a call at all, its argument list is one that the labeller finds. */
  ghost predicate CallOk(g: Grammar, t: Tree) {
    t.op == CALL && |t.kids| == 2 && IsCallee(g, t.kids[0]) && IsArgumentList(g, t.kids[1]) ==>
      Derivable(g, t.kids[1], CALL_ARGS_NT)
  }

  ghost predicate CallsOk(g: Grammar, t: Tree) {
    CallOk(g, t) && forall k :: 0 <= k < |t.kids| ==> CallsOk(g, t.kids[k])
  }

  /** The label is least among all derivations that cost less than `INFINITY`. */
  ghost predicate LeastAt(g: Grammar, l: Labelled, nt: nat) {
    forall d :: Derives(g, d, l.tree, nt) && Cost(d) < INFINITY ==> RuleOf(l, nt).Some? && CostOf(l, nt) <= Cost(d)
  }

  ghost predicate LeastEverywhere(g: Grammar, l: Labelled) {
    && (forall nt: nat :: LeastAt(g, l, nt))
    && forall k :: 0 <= k < |l.kids| ==> LeastEverywhere(g, l.kids[k])
  }

  // ---------------------------------------------------------------------------------------------
  // Arguments that are not counted, replaced by bounded ones
  // ---------------------------------------------------------------------------------------------

  lemma CallCost(d: Derivation, c: nat)
    requires d.rule == Call(c) && d.how.Inner? && |d.how.kids| == 2 && d.how.kids[0].Leaf?
    ensures Cost(d) == Cost(d.how.kids[0].sub) + 1
  {
    var ms, ps := d.how.kids, Call(c).pattern.kids;
    assert MatchCosts(ms[1..], ps[1..]) == MatchCost(ms[1], ps[1]) + MatchCosts(ms[1..][1..], ps[1..][1..]) == 0;
    assert MatchCosts(ms, ps) == MatchCost(ms[0], ps[0]) + MatchCosts(ms[1..], ps[1..]);
  }

  /** A derivation that costs less than `INFINITY` has a bounded one beside it, at the same cost. */
  lemma {:induction false} BoundedBeside(g: Grammar, d: Derivation, t: Tree, nt: nat) returns (e: Derivation)
    requires Facts(g.rules) && CallsOk(g, t) && Derives(g, d, t, nt) && Cost(d) < INFINITY
    ensures Derives(g, e, t, nt) && Bounded(e) && Cost(e) == Cost(d)
    decreases d, 1
  {
    assert RuleFacts(d.rule);
    if d.rule.pattern.Term? && d.rule.pattern.op == CALL {
      e := CallBeside(g, d, t, nt);
    } else {
      var m := MatchBeside(g, d.how, d.rule.pattern, t);
      e := Use(d.rule, m);
    }
  }

  lemma {:induction false} CallBeside(g: Grammar, d: Derivation, t: Tree, nt: nat) returns (e: Derivation)
    requires Facts(g.rules) && CallsOk(g, t) && Derives(g, d, t, nt) && Cost(d) < INFINITY
    requires d.rule.pattern.Term? && d.rule.pattern.op == CALL
    ensures Derives(g, e, t, nt) && Bounded(e) && Cost(e) == Cost(d)
    decreases d, 0
  {
    var c := CalleeOf(d.rule);
    var ms := d.how.kids;
    assert Fits(g, ms[0], N(c), t.kids[0]) && Fits(g, ms[1], Nonterm(CALL_ARGS_NT, false), t.kids[1]);
    CallCost(d, c);
    assert Derives(g, ms[0].sub, t.kids[0], c) && Derives(g, ms[1].sub, t.kids[1], CALL_ARGS_NT);
    assert IsCallee(g, t.kids[0]) && IsArgumentList(g, t.kids[1]);
    var a :| Derives(g, a, t.kids[1], CALL_ARGS_NT) && Bounded(a);
    var f := BoundedBeside(g, ms[0].sub, t.kids[0], c);
    e := CallOf(g, c, f, a, t);
  }

  /** The callee's nonterminal. */
  function CalleeOf(r: Rule): (c: nat)
    requires RuleFacts(r) && r.pattern.Term? && r.pattern.op == CALL
    ensures r == Call(c)
  {
    if r == Call(LABEL_NT) then LABEL_NT else if r == Call(REG_NT) then REG_NT else MEM_NT
  }

  lemma CallOf(g: Grammar, c: nat, f: Derivation, a: Derivation, t: Tree) returns (e: Derivation)
    requires Call(c) in g.rules && t.op == CALL && |t.kids| == 2
    requires Derives(g, f, t.kids[0], c) && Derives(g, a, t.kids[1], CALL_ARGS_NT)
    ensures e == Use(Call(c), Inner([Leaf(f), Leaf(a)]))
    ensures Derives(g, e, t, REG_NT) && Cost(e) == Cost(f) + 1
    ensures Bounded(f) && Bounded(a) && Cost(f) + 1 < INFINITY ==> Bounded(e)
  {
    e := Use(Call(c), Inner([Leaf(f), Leaf(a)]));
    CallCost(e, c);
    assert Fits(g, Leaf(f), N(c), t.kids[0]) && Fits(g, Leaf(a), Nonterm(CALL_ARGS_NT, false), t.kids[1]);
  }

  lemma {:induction false} MatchBeside(g: Grammar, m: Match, p: Pattern, t: Tree) returns (m': Match)
    requires Facts(g.rules) && CallsOk(g, t) && Counts(p) && Fits(g, m, p, t) && MatchCost(m, p) < INFINITY
    ensures Fits(g, m', p, t) && BoundedMatch(m') && MatchCost(m', p) == MatchCost(m, p)
    decreases m, 0
  {
    match p
    case Nonterm(nt, _) =>
      var e := BoundedBeside(g, m.sub, t, nt);
      m' := Leaf(e);
    case Term(_, ps) =>
      var ms := MatchesBeside(g, m.kids, ps, t.kids);
      m' := Inner(ms);
  }

  lemma {:induction false} MatchesBeside(g: Grammar, ms: seq<Match>, ps: seq<Pattern>, ts: seq<Tree>) returns (ms': seq<Match>)
    requires Facts(g.rules) && |ms| == |ps| == |ts| && MatchCosts(ms, ps) < INFINITY
    requires forall k :: 0 <= k < |ps| ==> CallsOk(g, ts[k]) && Counts(ps[k]) && Fits(g, ms[k], ps[k], ts[k])
    ensures |ms'| == |ps| && MatchCosts(ms', ps) == MatchCosts(ms, ps)
    ensures forall k :: 0 <= k < |ps| ==> Fits(g, ms'[k], ps[k], ts[k]) && BoundedMatch(ms'[k])
    decreases ms, 0
  {
    if ms == [] {
      ms' := [];
    } else {
      var m := MatchBeside(g, ms[0], ps[0], ts[0]);
      var rest := MatchesBeside(g, ms[1..], ps[1..], ts[1..]);
      ms' := [m] + rest;
      assert ms'[1..] == rest;
      forall k | 0 <= k < |ps| ensures Fits(g, ms'[k], ps[k], ts[k]) && BoundedMatch(ms'[k]) {
        if k > 0 {
          assert Fits(g, rest[k - 1], ps[1..][k - 1], ts[1..][k - 1]) && BoundedMatch(rest[k - 1]);
        }
      }
    }
  }

  // ---------------------------------------------------------------------------------------------
  // Exactly when the labels are least
  // ---------------------------------------------------------------------------------------------

  lemma {:induction false} OkIsLeast(g: Grammar, l: Labelled)
    requires Facts(g.rules) && Good(g, l) && CallsOk(g, l.tree)
    ensures LeastEverywhere(g, l)
    decreases l
  {
    forall nt: nat ensures LeastAt(g, l, nt) {
      assert BestFor(g, l, nt);
      forall d | Derives(g, d, l.tree, nt) && Cost(d) < INFINITY ensures RuleOf(l, nt).Some? && CostOf(l, nt) <= Cost(d) {
        var e := BoundedBeside(g, d, l.tree, nt);
      }
    }
    forall k | 0 <= k < |l.kids| ensures LeastEverywhere(g, l.kids[k]) {
      OkIsLeast(g, l.kids[k]);
    }
  }

  /** What is recorded for a call has a bounded derivation of the arguments in it. */
  lemma RecordedCall(g: Grammar, l: Labelled)
    requires Facts(g.rules) && Good(g, l) && l.tree.op == CALL && |l.tree.kids| == 2 && RuleOf(l, REG_NT).Some?
    ensures Derivable(g, l.tree.kids[1], CALL_ARGS_NT)
  {
    assert BestFor(g, l, REG_NT);
    var d :| Records(g, l, REG_NT, d);
    assert RuleFacts(d.rule) && d.rule.lhs == REG_NT && d.rule.pattern.Term?;
    assert Fits(g, d.how, d.rule.pattern, l.tree);
    var c, ms := CalleeOf(d.rule), d.how.kids;
    assert Fits(g, ms[1], d.rule.pattern.kids[1], l.tree.kids[1]) && ms[1].Leaf?;
    assert Bounded(d) && BoundedMatch(d.how) && BoundedMatch(ms[1]);
    assert Derives(g, ms[1].sub, l.tree.kids[1], CALL_ARGS_NT) && Bounded(ms[1].sub);
  }

  lemma LeastIsOkHere(g: Grammar, l: Labelled)
    requires Facts(g.rules) && Good(g, l) && LeastAt(g, l, REG_NT)
    ensures CallOk(g, l.tree)
  {
    var t := l.tree;
    if t.op == CALL && |t.kids| == 2 && IsCallee(g, t.kids[0]) && IsArgumentList(g, t.kids[1]) {
      var c, f :| Call(c) in g.rules && Derives(g, f, t.kids[0], c) && Cost(f) + 1 < INFINITY;
      var a :| Derives(g, a, t.kids[1], CALL_ARGS_NT);
      var e := CallOf(g, c, f, a, t);
      RecordedCall(g, l);
    }
  }

  lemma {:induction false} LeastIsOk(g: Grammar, l: Labelled)
    requires Facts(g.rules) && Good(g, l) && LeastEverywhere(g, l)
    ensures CallsOk(g, l.tree)
    decreases l
  {
    LeastIsOkHere(g, l);
    forall k | 0 <= k < |l.tree.kids| ensures CallsOk(g, l.tree.kids[k]) {
      LeastIsOk(g, l.kids[k]);
    }
  }

  /** On every tree: the labels are least among all derivations that cost less than `INFINITY`, at every node and for
      every nonterminal, if and only if the argument list of every call in the tree has a bounded derivation. */
  lemma LeastIffArgumentsBounded(l: Labelled)
    requires Good(ASM, l)
    ensures LeastEverywhere(ASM, l) <==> CallsOk(ASM, l.tree)
  {
    AsmFacts();
    if CallsOk(ASM, l.tree) {
      OkIsLeast(ASM, l);
    }
    if LeastEverywhere(ASM, l) {
      LeastIsOk(ASM, l);
    }
  }
}
