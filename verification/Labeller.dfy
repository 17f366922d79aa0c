/** The tree-pattern labeller that olive emits (thirdparty/olive/iburg.c): for every node of a tree and
    every nonterminal, the cheapest rule that starts a derivation of the node from the nonterminal. */
module Labeller {
  import opened Options

  /** COST_INFINITY of src/codegen/asm/BrgTreeBuilder.h. */
  const INFINITY: nat := 32767

  /** Terminals and nonterminals are numbered. `counted` says whether the cost clause of the rule names
      the nonterminal at this place. */
  datatype Pattern = Term(op: nat, kids: seq<Pattern>) | Nonterm(nt: nat, counted: bool)

  datatype Rule = Rule(lhs: nat, pattern: Pattern, extra: nat)

  datatype Grammar = Grammar(nts: nat, rules: seq<Rule>)

  datatype Tree = Tree(op: nat, kids: seq<Tree>)

  /** A finished state of the labeller, for one node of the tree. */
  datatype Labelled = Labelled(tree: Tree, kids: seq<Labelled>, cost: seq<nat>, rule: seq<Option<Rule>>)

  predicate RuleOk(r: Rule, nts: nat) {
    && r.lhs < nts && PatternOk(r.pattern, nts)
    && (r.pattern.Nonterm? ==> r.pattern.counted)
  }

  predicate PatternOk(p: Pattern, nts: nat) {
    match p
    case Nonterm(nt, _) => nt < nts
    case Term(_, ps) => forall k :: 0 <= k < |ps| ==> PatternOk(ps[k], nts)
  }

  /** Nonterminals are in range, and the cost of a chain rule names its operand. */
  predicate GrammarOk(g: Grammar) { forall r :: r in g.rules ==> RuleOk(r, g.nts) }

  // ---------------------------------------------------------------------------------------------
  // Derivations: what the labels are about
  // ---------------------------------------------------------------------------------------------

  /** The use of a rule, and of further rules wherever its pattern has a nonterminal. */
  datatype Derivation = Use(rule: Rule, how: Match)

  datatype Match = Leaf(sub: Derivation) | Inner(kids: seq<Match>)

  predicate Derives(g: Grammar, d: Derivation, t: Tree, nt: nat)
    decreases d
  {
    d.rule in g.rules && d.rule.lhs == nt && Fits(g, d.how, d.rule.pattern, t)
  }

  predicate Fits(g: Grammar, m: Match, p: Pattern, t: Tree)
    decreases m
  {
    match p
    case Nonterm(nt, _) => m.Leaf? && Derives(g, m.sub, t, nt)
    case Term(op, ps) =>
      && m.Inner? && t.op == op && |m.kids| == |ps| == |t.kids|
      && forall k :: 0 <= k < |ps| ==> Fits(g, m.kids[k], ps[k], t.kids[k])
  }

  function Cost(d: Derivation): nat { d.rule.extra + MatchCost(d.how, d.rule.pattern) }

  function MatchCost(m: Match, p: Pattern): nat {
    match p
    case Nonterm(_, counted) => if counted && m.Leaf? then Cost(m.sub) else 0
    case Term(_, ps) => if m.Inner? then MatchCosts(m.kids, ps) else 0
  }

  function MatchCosts(ms: seq<Match>, ps: seq<Pattern>): nat {
    if ms == [] || ps == [] then 0 else MatchCost(ms[0], ps[0]) + MatchCosts(ms[1..], ps[1..])
  }

  /** No part of the derivation costs as much as `INFINITY`. */
  predicate Bounded(d: Derivation) { Cost(d) < INFINITY && BoundedMatch(d.how) }

  predicate BoundedMatch(m: Match) {
    match m
    case Leaf(d) => Bounded(d)
    case Inner(ms) => forall k :: 0 <= k < |ms| ==> BoundedMatch(ms[k])
  }

  // ---------------------------------------------------------------------------------------------
  // Reading labels
  // ---------------------------------------------------------------------------------------------

  function RuleOf(l: Labelled, nt: nat): Option<Rule> { if nt < |l.rule| then l.rule[nt] else None }

  function CostOf(l: Labelled, nt: nat): nat { if nt < |l.cost| then l.cost[nt] else INFINITY }

  /** The emitted test: operators agree, and the nonterminals of the pattern have a rule. Operators have
      fixed arities, so that equal operators come with equally many children. */
  predicate Test(p: Pattern, l: Labelled) {
    match p
    case Nonterm(nt, _) => RuleOf(l, nt).Some?
    case Term(op, ps) => l.tree.op == op && TestAll(ps, l.kids)
  }

  predicate TestAll(ps: seq<Pattern>, ls: seq<Labelled>) {
    |ps| == |ls| && forall k :: 0 <= k < |ps| ==> Test(ps[k], ls[k])
  }

  /** The counted costs that the clause of a rule adds up. */
  function LabelCost(p: Pattern, l: Labelled): nat {
    match p
    case Nonterm(nt, counted) => if counted then CostOf(l, nt) else 0
    case Term(_, ps) => LabelCosts(ps, l.kids)
  }

  function LabelCosts(ps: seq<Pattern>, ls: seq<Labelled>): nat {
    if ps == [] || ls == [] then 0 else LabelCost(ps[0], ls[0]) + LabelCosts(ps[1..], ls[1..])
  }

  /** `d` is what one gets by using the recorded rules from `nt` on, as the actions do. */
  predicate Follows(l: Labelled, nt: nat, d: Derivation)
    decreases d
  {
    RuleOf(l, nt) == Some(d.rule) && FollowsMatch(l, d.how, d.rule.pattern)
  }

  predicate FollowsMatch(l: Labelled, m: Match, p: Pattern)
    decreases m
  {
    match p
    case Nonterm(nt, _) => m.Leaf? && Follows(l, nt, m.sub)
    case Term(_, ps) =>
      && m.Inner? && |m.kids| == |ps| == |l.kids|
      && forall k :: 0 <= k < |ps| ==> FollowsMatch(l.kids[k], m.kids[k], ps[k])
  }

  // ---------------------------------------------------------------------------------------------
  // What the labels promise
  // ---------------------------------------------------------------------------------------------

  /** `d` is the derivation of `nt` that the labels record, at the recorded cost. */
  ghost predicate Records(g: Grammar, l: Labelled, nt: nat, d: Derivation) {
    Follows(l, nt, d) && Derives(g, d, l.tree, nt) && Bounded(d) && Cost(d) == CostOf(l, nt)
  }

  /** The recorded cost is the least of all bounded derivations of `nt`, and the recorded rules make one
      that costs as much; without a bounded derivation nothing is recorded. */
  ghost predicate BestFor(g: Grammar, l: Labelled, nt: nat) {
    && (RuleOf(l, nt).Some? ==> exists d :: Records(g, l, nt, d))
    && (RuleOf(l, nt).None? ==> CostOf(l, nt) == INFINITY)
    && (forall d :: Derives(g, d, l.tree, nt) && Bounded(d) ==> RuleOf(l, nt).Some? && CostOf(l, nt) <= Cost(d))
  }

  /** `l` labels its tree: at every node and for every nonterminal the label is best. */
  ghost predicate Good(g: Grammar, l: Labelled) {
    && |l.kids| == |l.tree.kids|
    && (forall k :: 0 <= k < |l.kids| ==> l.kids[k].tree == l.tree.kids[k] && Good(g, l.kids[k]))
    && (forall nt: nat :: BestFor(g, l, nt))
  }

  // ---------------------------------------------------------------------------------------------
  // Patterns over labelled nodes
  // ---------------------------------------------------------------------------------------------

  ghost predicate GoodMatch(g: Grammar, l: Labelled, m: Match, p: Pattern) {
    Fits(g, m, p, l.tree) && BoundedMatch(m) && FollowsMatch(l, m, p)
  }

  /** A pattern that passes the test has a match that follows the labels and costs what they say. */
  lemma {:induction false} TestedMatch(g: Grammar, p: Pattern, l: Labelled) returns (m: Match)
    requires Good(g, l) && Test(p, l)
    ensures GoodMatch(g, l, m, p) && MatchCost(m, p) == LabelCost(p, l)
    decreases p
  {
    match p
    case Nonterm(nt, _) =>
      assert BestFor(g, l, nt);
      var d :| Records(g, l, nt, d);
      m := Leaf(d);
    case Term(_, ps) =>
      var ms := TestedMatches(g, ps, l.kids);
      m := Inner(ms);
      forall k | 0 <= k < |ps| ensures Fits(g, ms[k], ps[k], l.tree.kids[k]) && FollowsMatch(l.kids[k], ms[k], ps[k]) {
        assert GoodMatch(g, l.kids[k], ms[k], ps[k]);
      }
      forall k | 0 <= k < |ms| ensures BoundedMatch(ms[k]) {
        assert GoodMatch(g, l.kids[k], ms[k], ps[k]);
      }
  }

  lemma {:induction false} TestedMatches(g: Grammar, ps: seq<Pattern>, ls: seq<Labelled>) returns (ms: seq<Match>)
    requires TestAll(ps, ls) && forall k :: 0 <= k < |ls| ==> Good(g, ls[k])
    ensures |ms| == |ps| && forall k :: 0 <= k < |ps| ==> GoodMatch(g, ls[k], ms[k], ps[k])
    ensures MatchCosts(ms, ps) == LabelCosts(ps, ls)
    decreases ps
  {
    if ps == [] {
      ms := [];
    } else {
      var m := TestedMatch(g, ps[0], ls[0]);
      assert TestAll(ps[1..], ls[1..]);
      var rest := TestedMatches(g, ps[1..], ls[1..]);
      ms := [m] + rest;
      forall k | 0 <= k < |ps| ensures GoodMatch(g, ls[k], ms[k], ps[k]) {
        if k > 0 {
          assert GoodMatch(g, ls[1..][k - 1], rest[k - 1], ps[1..][k - 1]);
        }
      }
      assert ms[1..] == rest;
    }
  }

  /** A bounded match passes the test, and the labels add up to no more than it costs. */
  lemma {:induction false} MatchIsTested(g: Grammar, m: Match, p: Pattern, l: Labelled)
    requires Good(g, l) && Fits(g, m, p, l.tree) && BoundedMatch(m)
    ensures Test(p, l) && LabelCost(p, l) <= MatchCost(m, p)
    decreases p
  {
    match p
    case Nonterm(nt, _) =>
      assert BestFor(g, l, nt);
    case Term(_, ps) =>
      MatchesAreTested(g, m.kids, ps, l.kids);
  }

  lemma {:induction false} MatchesAreTested(g: Grammar, ms: seq<Match>, ps: seq<Pattern>, ls: seq<Labelled>)
    requires |ms| == |ps| == |ls|
    requires forall k :: 0 <= k < |ps| ==> Good(g, ls[k]) && Fits(g, ms[k], ps[k], ls[k].tree) && BoundedMatch(ms[k])
    ensures TestAll(ps, ls) && LabelCosts(ps, ls) <= MatchCosts(ms, ps)
    decreases ps
  {
    if ps != [] {
      MatchIsTested(g, ms[0], ps[0], ls[0]);
      MatchesAreTested(g, ms[1..], ps[1..], ls[1..]);
      forall k | 0 <= k < |ps| ensures Test(ps[k], ls[k]) {
        if k > 0 {
          assert Test(ps[1..][k - 1], ls[1..][k - 1]);
        }
      }
    }
  }

  // ---------------------------------------------------------------------------------------------
  // A state under construction
  // ---------------------------------------------------------------------------------------------

  ghost predicate KidsGood(g: Grammar, l: Labelled) {
    |l.kids| == |l.tree.kids| && forall k :: 0 <= k < |l.kids| ==> l.kids[k].tree == l.tree.kids[k] && Good(g, l.kids[k])
  }

  /** The parts of `d` are what the labels record now, or its nonterminal has become cheaper since. */
  ghost predicate Current(l: Labelled, wit: map<nat, Derivation>, d: Derivation) {
    || FromLabels(l, wit, d)
    || (d.rule.pattern.Nonterm? && d.how.Leaf? && CostOf(l, d.rule.pattern.nt) < Cost(d.how.sub))
  }

  ghost predicate Stands(g: Grammar, l: Labelled, wit: map<nat, Derivation>, nt: nat, d: Derivation) {
    && RuleOf(l, nt) == Some(d.rule) && Derives(g, d, l.tree, nt) && Bounded(d) && Cost(d) == CostOf(l, nt)
    && Current(l, wit, d)
  }

  ghost predicate WitnessedAt(g: Grammar, l: Labelled, wit: map<nat, Derivation>, nt: nat) {
    if RuleOf(l, nt).None? then CostOf(l, nt) == INFINITY else nt in wit && Stands(g, l, wit, nt, wit[nt])
  }

  /** Every recorded rule starts the derivation that `wit` has for it. */
  ghost predicate Witnessed(g: Grammar, l: Labelled, wit: map<nat, Derivation>) {
    |l.cost| == |l.rule| == g.nts && forall nt: nat {:trigger WitnessedAt(g, l, wit, nt)} :: WitnessedAt(g, l, wit, nt)
  }

  function RuleCost(r: Rule, l: Labelled): nat { LabelCost(r.pattern, l) + r.extra }

  function Recorded(l: Labelled, r: Rule, c: nat): Labelled
    requires r.lhs < |l.cost| == |l.rule|
  {
    l.(cost := l.cost[r.lhs := c], rule := l.rule[r.lhs := Some(r)])
  }

  /** The parts of `d` are what the labels record now. */
  ghost predicate FromLabels(l: Labelled, wit: map<nat, Derivation>, d: Derivation) {
    match d.rule.pattern
    case Term(_, ps) => FollowsMatch(l, d.how, d.rule.pattern)
    case Nonterm(b, _) => RuleOf(l, b).Some? && b in wit && d.how == Leaf(wit[b])
  }

  /** What a rule that passes the test and lowers a cost is recorded for. */
  lemma RuleWitness(g: Grammar, l: Labelled, wit: map<nat, Derivation>, r: Rule) returns (d: Derivation)
    requires GrammarOk(g) && KidsGood(g, l) && Witnessed(g, l, wit) && r in g.rules
    requires Test(r.pattern, l) && RuleCost(r, l) < INFINITY
    ensures d.rule == r && Derives(g, d, l.tree, r.lhs) && Bounded(d) && Cost(d) == RuleCost(r, l)
    ensures FromLabels(l, wit, d)
  {
    match r.pattern
    case Term(_, ps) =>
      var ms := TestedMatches(g, ps, l.kids);
      d := Use(r, Inner(ms));
      forall k | 0 <= k < |ps|
        ensures Fits(g, ms[k], ps[k], l.tree.kids[k]) && FollowsMatch(l.kids[k], ms[k], ps[k]) && BoundedMatch(ms[k])
      {
        assert GoodMatch(g, l.kids[k], ms[k], ps[k]);
      }
    case Nonterm(b, _) =>
      assert WitnessedAt(g, l, wit, b);
      assert RuleOk(r, g.nts);
      d := Use(r, Leaf(wit[b]));
  }

  lemma RecordKeepsWitnessed(g: Grammar, l: Labelled, wit: map<nat, Derivation>, r: Rule, d: Derivation)
    requires GrammarOk(g) && Witnessed(g, l, wit) && r in g.rules && r.lhs < g.nts
    requires d.rule == r && Derives(g, d, l.tree, r.lhs) && Bounded(d) && Cost(d) < l.cost[r.lhs]
    requires FromLabels(l, wit, d)
    ensures Witnessed(g, Recorded(l, r, Cost(d)), wit[r.lhs := d])
  {
    var l', wit' := Recorded(l, r, Cost(d)), wit[r.lhs := d];
    assert WitnessedAt(g, l, wit, r.lhs);
    forall nt: nat ensures WitnessedAt(g, l', wit', nt) {
      assert WitnessedAt(g, l, wit, nt);
      if nt == r.lhs {
        if r.pattern.Nonterm? {
          assert WitnessedAt(g, l, wit, r.pattern.nt);
          assert RuleOk(r, g.nts);
        }
      } else if nt in wit && wit[nt].rule.pattern.Nonterm? {
        assert WitnessedAt(g, l, wit, wit[nt].rule.pattern.nt);
      }
    }
  }

  // ---------------------------------------------------------------------------------------------
  // Chain rules
  // ---------------------------------------------------------------------------------------------

  /** A chain rule that would lower the cost of its left-hand side. */
  predicate IsOpen(r: Rule, cost: seq<nat>) {
    && r.pattern.Nonterm? && r.lhs < |cost| && r.pattern.nt < |cost|
    && cost[r.pattern.nt] + r.extra < cost[r.lhs]
  }

  ghost predicate NoneOpened(g: Grammar, before: seq<nat>, after: seq<nat>) {
    forall q :: q in g.rules && IsOpen(q, after) ==> IsOpen(q, before)
  }

  ghost predicate Lowered(before: seq<nat>, after: seq<nat>) {
    |after| == |before| && forall k :: 0 <= k < |after| ==> after[k] <= before[k]
  }

  function Sum(cost: seq<nat>): nat { if cost == [] then 0 else cost[0] + Sum(cost[1..]) }

  lemma {:induction false} SumIsLower(before: seq<nat>, after: seq<nat>)
    requires Lowered(before, after)
    ensures Sum(after) <= Sum(before)
    ensures before != after ==> Sum(after) < Sum(before)
  {
    if before != [] {
      SumIsLower(before[1..], after[1..]);
      if before[0] == after[0] && before[1..] == after[1..] {
        assert before == [before[0]] + before[1..] == after;
      }
    }
  }

  /** The first `i` of the chain rules `rs` are not open. */
  ghost predicate ClosedUpTo(rs: seq<Rule>, i: nat, cost: seq<nat>)
    requires i <= |rs|
  {
    forall j :: 0 <= j < i ==> !IsOpen(rs[j], cost)
  }

  lemma ClosedStep(g: Grammar, rs: seq<Rule>, i: nat, before: seq<nat>, after: seq<nat>)
    requires i < |rs| && ClosedUpTo(rs, i, before) && NoneOpened(g, before, after) && !IsOpen(rs[i], after)
    requires forall r :: r in rs ==> r in g.rules
    ensures ClosedUpTo(rs, i + 1, after)
  {
    forall j | 0 <= j < i + 1 ensures !IsOpen(rs[j], after) {
      assert rs[j] in rs;
    }
  }

  /** Rules with a given terminal at the root, the last one first. */
  function RulesFor(rules: seq<Rule>, op: nat): (rs: seq<Rule>)
    ensures forall r :: r in rs <==> r in rules && r.pattern.Term? && r.pattern.op == op
  {
    if rules == [] then [] else
      RulesFor(rules[1..], op) + (if rules[0].pattern.Term? && rules[0].pattern.op == op then [rules[0]] else [])
  }

  /** Chain rules of a given nonterminal, the last one first. */
  function ChainFor(rules: seq<Rule>, nt: nat): (rs: seq<Rule>)
    ensures forall r :: r in rs <==> r in rules && r.pattern.Nonterm? && r.pattern.nt == nt
  {
    if rules == [] then [] else
      ChainFor(rules[1..], nt) + (if rules[0].pattern.Nonterm? && rules[0].pattern.nt == nt then [rules[0]] else [])
  }

  /** The state of one node: costs start at `INFINITY` and rules at none. */
  class State {
    const g: Grammar
    const tree: Tree
    const kids: seq<Labelled>
    var cost: seq<nat>
    var rule: seq<Option<Rule>>
    ghost var wit: map<nat, Derivation>

    function Snapshot(): Labelled
      reads this
    {
      Labelled(tree, kids, cost, rule)
    }

    ghost predicate Valid()
      reads this
    {
      GrammarOk(g) && KidsGood(g, Snapshot()) && Witnessed(g, Snapshot(), wit)
    }

    constructor (g: Grammar, tree: Tree, kids: seq<Labelled>)
      requires GrammarOk(g) && KidsGood(g, Labelled(tree, kids, [], []))
      ensures Valid() && this.g == g && this.tree == tree && this.kids == kids
      ensures cost == seq(g.nts, _ => INFINITY)
    {
      this.g, this.tree, this.kids := g, tree, kids;
      cost, rule, wit := seq(g.nts, _ => INFINITY), seq(g.nts, _ => None), map[];
    }

    /** Uses a rule that passes its test, if that lowers a cost. */
    method Record(r: Rule)
      requires Valid() && r in g.rules && Test(r.pattern, Snapshot())
      modifies this
      ensures Valid() && Lowered(old(cost), cost) && NoneOpened(g, old(cost), cost)
      ensures r.lhs < |cost| && cost[r.lhs] <= old(RuleCost(r, Snapshot())) && !IsOpen(r, cost)
      decreases Sum(cost), 0
    {
      var c := RuleCost(r, Snapshot());
      assert RuleOk(r, g.nts);
      assert WitnessedAt(g, Snapshot(), wit, r.lhs);
      if c < cost[r.lhs] {
        ghost var before := cost;
        ghost var d := RuleWitness(g, Snapshot(), wit, r);
        RecordKeepsWitnessed(g, Snapshot(), wit, r, d);
        cost, rule, wit := cost[r.lhs := c], rule[r.lhs := Some(r)], wit[r.lhs := d];
        assert Snapshot() == Recorded(old(Snapshot()), r, Cost(d));
        SumIsLower(before, cost);
        Closure(r.lhs);
      }
    }

    /** Tries the chain rules of a nonterminal whose cost has become lower. */
    method Closure(nt: nat)
      requires Valid() && nt < |cost| && rule[nt].Some?
      modifies this
      ensures Valid() && Lowered(old(cost), cost) && NoneOpened(g, old(cost), cost)
      ensures forall q :: q in g.rules && q.pattern.Nonterm? && q.pattern.nt == nt ==> !IsOpen(q, cost)
      decreases Sum(cost), 1
    {
      var rs := ChainFor(g.rules, nt);
      ghost var before := cost;
      for i := 0 to |rs|
        invariant Valid() && Lowered(before, cost) && NoneOpened(g, before, cost)
        invariant nt < |cost| && rule[nt].Some?
        invariant ClosedUpTo(rs, i, cost)
      {
        assert rs[i] in rs;
        SumIsLower(before, cost);
        assert WitnessedAt(g, Snapshot(), wit, nt);
        ghost var c := cost;
        Record(rs[i]);
        ClosedStep(g, rs, i, c, cost);
        assert WitnessedAt(g, Snapshot(), wit, nt);
      }
    }
  }

  // ---------------------------------------------------------------------------------------------
  // A finished state
  // ---------------------------------------------------------------------------------------------

  ghost predicate NoneOpen(g: Grammar, cost: seq<nat>) { forall q :: q in g.rules ==> !IsOpen(q, cost) }

  /** A rule that applies at the root promises nothing cheaper than what is recorded. */
  predicate Settled(l: Labelled, r: Rule) { Test(r.pattern, l) ==> CostOf(l, r.lhs) <= RuleCost(r, l) }

  ghost predicate AllSettled(g: Grammar, l: Labelled) { forall r :: r in g.rules ==> Settled(l, r) }

  /** With no chain rule open, the witnesses are what the recorded rules lead to. */
  lemma {:induction false} WitnessFollows(g: Grammar, l: Labelled, wit: map<nat, Derivation>, nt: nat, d: Derivation)
    requires GrammarOk(g) && Witnessed(g, l, wit) && NoneOpen(g, l.cost)
    requires Stands(g, l, wit, nt, d)
    ensures Follows(l, nt, d)
    decreases d
  {
    if d.rule.pattern.Nonterm? {
      var b := d.rule.pattern.nt;
      assert RuleOk(d.rule, g.nts) && !IsOpen(d.rule, l.cost);
      assert Cost(d) == d.rule.extra + MatchCost(d.how, d.rule.pattern) == d.rule.extra + Cost(d.how.sub);
      assert WitnessedAt(g, l, wit, b);
      WitnessFollows(g, l, wit, b, d.how.sub);
    }
  }

  /** No bounded derivation is cheaper than the label. */
  lemma {:induction false} LabelIsLeast(g: Grammar, l: Labelled, wit: map<nat, Derivation>, nt: nat, d: Derivation)
    requires GrammarOk(g) && KidsGood(g, l) && Witnessed(g, l, wit) && AllSettled(g, l)
    requires Derives(g, d, l.tree, nt) && Bounded(d)
    ensures RuleOf(l, nt).Some? && CostOf(l, nt) <= Cost(d)
    decreases d
  {
    assert Settled(l, d.rule) && RuleOk(d.rule, g.nts);
    assert WitnessedAt(g, l, wit, nt);
    match d.rule.pattern
    case Term(_, ps) =>
      MatchesAreTested(g, d.how.kids, ps, l.kids);
      assert Cost(d) == d.rule.extra + MatchCosts(d.how.kids, ps);
      assert RuleCost(d.rule, l) == LabelCosts(ps, l.kids) + d.rule.extra;
    case Nonterm(b, _) =>
      assert Cost(d) == d.rule.extra + Cost(d.how.sub);
      LabelIsLeast(g, l, wit, b, d.how.sub);
  }

  lemma FinishedIsGood(g: Grammar, l: Labelled, wit: map<nat, Derivation>)
    requires GrammarOk(g) && KidsGood(g, l) && Witnessed(g, l, wit) && NoneOpen(g, l.cost) && AllSettled(g, l)
    ensures Good(g, l)
  {
    forall nt: nat ensures BestFor(g, l, nt) {
      assert WitnessedAt(g, l, wit, nt);
      if RuleOf(l, nt).Some? {
        WitnessFollows(g, l, wit, nt, wit[nt]);
        assert Records(g, l, nt, wit[nt]);
      }
      forall d | Derives(g, d, l.tree, nt) && Bounded(d) ensures RuleOf(l, nt).Some? && CostOf(l, nt) <= Cost(d) {
        LabelIsLeast(g, l, wit, nt, d);
      }
    }
  }

  /** Chain rules that are not open are settled, and so are the rules that were tried. */
  lemma TriedAreSettled(g: Grammar, l: Labelled, tried: seq<Rule>)
    requires GrammarOk(g) && |l.cost| == |l.rule| == g.nts && NoneOpen(g, l.cost)
    requires forall r :: r in tried <==> r in g.rules && r.pattern.Term? && r.pattern.op == l.tree.op
    requires forall k :: 0 <= k < |tried| ==> Settled(l, tried[k])
    ensures AllSettled(g, l)
  {
    forall r | r in g.rules ensures Settled(l, r) {
      assert RuleOk(r, g.nts);
      if r.pattern.Term? && r.pattern.op == l.tree.op {
        var k :| 0 <= k < |tried| && tried[k] == r;
        assert Settled(l, tried[k]);
      } else if r.pattern.Nonterm? {
        assert !IsOpen(r, l.cost);
      }
    }
  }

  /** For rules with a terminal at the root, test and cost do not depend on the state under construction. */
  lemma SettledStays(l: Labelled, l': Labelled, r: Rule)
    requires r.pattern.Term? && l'.tree == l.tree && l'.kids == l.kids
    requires Settled(l, r) && CostOf(l', r.lhs) <= CostOf(l, r.lhs)
    ensures Settled(l', r)
  {
  }

  /** Labels a node after its children. */
  method Label(g: Grammar, t: Tree) returns (l: Labelled)
    requires GrammarOk(g)
    ensures l.tree == t && Good(g, l)
    decreases t
  {
    var kids: seq<Labelled> := [];
    for i := 0 to |t.kids|
      invariant |kids| == i
      invariant forall k :: 0 <= k < i ==> kids[k].tree == t.kids[k] && Good(g, kids[k])
    {
      var kid := Label(g, t.kids[i]);
      kids := kids + [kid];
    }
    var s := new State(g, t, kids);
    var rs := RulesFor(g.rules, t.op);
    for i := 0 to |rs|
      invariant s.Valid() && s.g == g && s.tree == t && s.kids == kids && NoneOpen(g, s.cost)
      invariant forall j :: 0 <= j < i ==> Settled(s.Snapshot(), rs[j])
    {
      ghost var before := s.Snapshot();
      assert rs[i] in rs && RuleOk(rs[i], g.nts);
      if Test(rs[i].pattern, s.Snapshot()) {
        s.Record(rs[i]);
      }
      assert Settled(s.Snapshot(), rs[i]);
      forall j | 0 <= j < i ensures Settled(s.Snapshot(), rs[j]) {
        assert rs[j] in rs && RuleOk(rs[j], g.nts);
        SettledStays(before, s.Snapshot(), rs[j]);
      }
    }
    l := s.Snapshot();
    TriedAreSettled(g, l, rs);
    FinishedIsGood(g, l, s.wit);
  }

  // ---------------------------------------------------------------------------------------------
  // Where every cost is counted
  // ---------------------------------------------------------------------------------------------

  predicate Counts(p: Pattern) {
    match p
    case Nonterm(_, counted) => counted
    case Term(_, ps) => forall k :: 0 <= k < |ps| ==> Counts(ps[k])
  }

  predicate Without(t: Tree, op: nat) { t.op != op && forall k :: 0 <= k < |t.kids| ==> Without(t.kids[k], op) }

  /** Only rules for `op` leave a cost out. */
  ghost predicate CountsBut(g: Grammar, op: nat) {
    forall r :: r in g.rules ==> Counts(r.pattern) || (r.pattern.Term? && r.pattern.op == op)
  }

  /** A derivation that counts everything is bounded as soon as its cost is. */
  lemma {:induction false} CheapIsBounded(g: Grammar, d: Derivation, t: Tree, nt: nat, op: nat)
    requires CountsBut(g, op) && Without(t, op) && Derives(g, d, t, nt)
    ensures Bounded(d) <==> Cost(d) < INFINITY
    decreases d
  {
    if Cost(d) < INFINITY {
      assert Counts(d.rule.pattern);
      CheapMatchIsBounded(g, d.how, d.rule.pattern, t, op);
    }
  }

  lemma {:induction false} CheapMatchIsBounded(g: Grammar, m: Match, p: Pattern, t: Tree, op: nat)
    requires CountsBut(g, op) && Without(t, op) && Fits(g, m, p, t) && Counts(p) && MatchCost(m, p) < INFINITY
    ensures BoundedMatch(m)
    decreases m
  {
    match p
    case Nonterm(nt, _) => CheapIsBounded(g, m.sub, t, nt, op);
    case Term(_, ps) =>
      forall k | 0 <= k < |m.kids| ensures BoundedMatch(m.kids[k]) {
        PartCosts(m.kids, ps, k);
        CheapMatchIsBounded(g, m.kids[k], ps[k], t.kids[k], op);
      }
  }

  lemma {:induction false} PartCosts(ms: seq<Match>, ps: seq<Pattern>, k: nat)
    requires k < |ms| == |ps|
    ensures MatchCost(ms[k], ps[k]) <= MatchCosts(ms, ps)
  {
    if k > 0 {
      PartCosts(ms[1..], ps[1..], k - 1);
    }
  }

  // ---------------------------------------------------------------------------------------------
  // Covering a tree
  // ---------------------------------------------------------------------------------------------

  ghost predicate Derivable(g: Grammar, t: Tree, nt: nat) { exists d :: Derives(g, d, t, nt) && Bounded(d) }

  lemma RecordedIffDerivable(g: Grammar, l: Labelled, nt: nat)
    requires BestFor(g, l, nt)
    ensures RuleOf(l, nt).Some? <==> Derivable(g, l.tree, nt)
  {
    if RuleOf(l, nt).Some? {
      var d :| Records(g, l, nt, d);
      assert Derives(g, d, l.tree, nt) && Bounded(d);
    }
  }

  /** `burm_label`: a tree is covered just when the start symbol has a bounded derivation of it. */
  method Cover(g: Grammar, start: nat, t: Tree) returns (l: Labelled, covered: bool)
    requires GrammarOk(g)
    ensures l.tree == t && Good(g, l)
    ensures covered <==> Derivable(g, t, start)
    ensures covered ==> exists d :: Records(g, l, start, d)
  {
    l := Label(g, t);
    covered := RuleOf(l, start).Some?;
    assert BestFor(g, l, start);
    RecordedIffDerivable(g, l, start);
  }
}
