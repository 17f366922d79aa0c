/** Which trees of the back end its grammar covers, and at what cost (src/codegen/asm/AsmBuilderHelper.gen,
    src/codegen/asm/BrgTreeBuilder.h:376-563): those that selection is about, returns, branches and calls. */
module GrammarCovers {
  import opened AsmGrammar
  import opened CallCosts
  import opened Labeller
  import opened Options
  import S = Selection
  import SL = SelectionLists

  // ---------------------------------------------------------------------------------------------
  // The rules, by operator
  // ---------------------------------------------------------------------------------------------

  predicate IsArithmetic(op: nat) { op == ADD || op == SUB || op == MUL || op == SDIV }

  /** What an operator adds, by whether its operands are immediates. */
  function OperatorCost(op: nat, left: bool, right: bool): nat {
    if op == SUB && left && !right then 2 else if op == SDIV then (if right then 3 else 2) else 1
  }

  predicate Value(nt: nat) { nt == REG_NT || nt == IMM_NT }

  predicate Pointer(nt: nat) { nt == MEM_NT || nt == REG_NT }

  predicate TwoListed(op: nat, lhs: nat, a: nat, b: nat, extra: nat) {
    if IsArithmetic(op) then
      lhs == REG_NT && Value(a) && Value(b) && extra == OperatorCost(op, a == IMM_NT, b == IMM_NT)
    else if op == GETELEMENTPTR then lhs == MEM_NT && Pointer(a) && Value(b) && extra == 1
    else if op == ICMP then lhs == COND_NT && Value(a) && Value(b) && !(a == IMM_NT && b == IMM_NT) && extra == 1
    else if op == STORE then
      && lhs == STMT_NT && extra == 1
      && ((Value(a) && Pointer(b)) || (b == MEM_NT && (a == MEM_NT || a == LABEL_NT || a == FUNC_ARG_NT)))
    else op == CALLARGS && lhs == CALL_ARGS_NT && a == CALL_ARG_NT && b == CALL_ARGS_NT && extra == 0
  }

  /** The leaf that stands for a nonterminal. */
  predicate LeafListed(op: nat, lhs: nat) {
    || (op == LABEL && lhs == LABEL_NT) || (op == CONST && lhs == IMM_NT) || (op == REG && lhs == REG_NT)
    || (op == ALLOCA && lhs == MEM_NT) || (op == FUNCARG && lhs == FUNC_ARG_NT)
  }

  predicate ChainListed(lhs: nat, nt: nat, extra: nat) {
    || (lhs == STMT_NT && nt == REG_NT && extra == 0)
    || (lhs == CALL_ARG_NT && (nt == REG_NT || nt == IMM_NT || nt == MEM_NT || nt == LABEL_NT) && extra == 1)
  }

  /** A rule of the grammar. */
  predicate Listed(r: Rule) {
    match r.pattern
    case Nonterm(nt, counted) => counted && ChainListed(r.lhs, nt, r.extra)
    case Term(op, ps) =>
      || (ps == [] && LeafListed(op, r.lhs) && r.extra == 0)
      || (|ps| == 1 && ps[0].Nonterm? && ps[0].counted && OneListed(op, r.lhs, ps[0].nt, r.extra))
      || (|ps| == 2 && Counted2(ps) && TwoListed(op, r.lhs, ps[0].nt, ps[1].nt, r.extra))
      || r == Rule(STMT_NT, Term(RET, [Op0(UNDEF)]), 0) || r == NO_ARGS
      || r == Rule(STMT_NT, Term(BR, [N(COND_NT), N(LABEL_NT), N(LABEL_NT)]), 1)
      || r == Rule(STMT_NT, Term(BR, [N(LABEL_NT), Op0(UNDEF), Op0(UNDEF)]), 1)
      || r == Call(LABEL_NT) || r == Call(REG_NT) || r == Call(MEM_NT)
  }

  predicate Counted2(ps: seq<Pattern>)
    requires |ps| == 2
  {
    ps[0].Nonterm? && ps[0].counted && ps[1].Nonterm? && ps[1].counted
  }

  predicate OneListed(op: nat, lhs: nat, a: nat, extra: nat) {
    || (op == LOAD && lhs == REG_NT && Pointer(a) && extra == 1)
    || (op == RET && lhs == STMT_NT && Value(a) && extra == 1)
  }

  ghost predicate BackEnd(g: Grammar) { forall r :: r in g.rules <==> Listed(r) }

  lemma PartsListed(r: Rule)
    ensures r in LEAVES || r in LOADS || r in STORES || r in ADDRESSES || r in BRANCHES || r in CALLS ==> Listed(r)
  {
  }

  lemma ArithmeticListed(op: nat, r: Rule)
    requires IsArithmetic(op) && r in Arithmetic(op, OperatorCost(op, false, false), OperatorCost(op, false, true),
                                                 OperatorCost(op, true, false), OperatorCost(op, true, true))
    ensures Listed(r)
  {
  }

  lemma OneIsRule(r: Rule)
    requires r.pattern.Term? && |r.pattern.kids| == 1 && r.pattern.kids[0].Nonterm? && r.pattern.kids[0].counted
    requires OneListed(r.pattern.op, r.lhs, r.pattern.kids[0].nt, r.extra)
    ensures r in LOADS
  {
    var op, a := r.pattern.op, r.pattern.kids[0].nt;
    assert r == Rule(r.lhs, Op1(op, a), r.extra);
    assert LOADS[0] == Rule(REG_NT, Op1(LOAD, MEM_NT), 1) && LOADS[1] == Rule(REG_NT, Op1(LOAD, REG_NT), 1);
    assert LOADS[3] == Rule(STMT_NT, Op1(RET, REG_NT), 1) && LOADS[5] == Rule(STMT_NT, Op1(RET, IMM_NT), 1);
  }

  lemma ArithmeticIsRule(op: nat, a: nat, b: nat)
    requires IsArithmetic(op) && Value(a) && Value(b)
    ensures Rule(REG_NT, Op2(op, a, b), OperatorCost(op, a == IMM_NT, b == IMM_NT))
         in Arithmetic(op, OperatorCost(op, false, false), OperatorCost(op, false, true), OperatorCost(op, true, false),
                       OperatorCost(op, true, true))
  {
    var rs := Arithmetic(op, OperatorCost(op, false, false), OperatorCost(op, false, true), OperatorCost(op, true, false),
                         OperatorCost(op, true, true));
    var r := Rule(REG_NT, Op2(op, a, b), OperatorCost(op, a == IMM_NT, b == IMM_NT));
    assert r == rs[0] || r == rs[1] || r == rs[2] || r == rs[3];
  }

  lemma AddressIsRule(a: nat, b: nat)
    requires Pointer(a) && Value(b)
    ensures Rule(MEM_NT, Op2(GETELEMENTPTR, a, b), 1) in ADDRESSES
  {
    var r := Rule(MEM_NT, Op2(GETELEMENTPTR, a, b), 1);
    assert r == ADDRESSES[0] || r == ADDRESSES[1] || r == ADDRESSES[2] || r == ADDRESSES[3];
  }

  lemma StoreIsRule(a: nat, b: nat)
    requires TwoListed(STORE, STMT_NT, a, b, 1)
    ensures Rule(STMT_NT, Op2(STORE, a, b), 1) in STORES
  {
    var r := Rule(STMT_NT, Op2(STORE, a, b), 1);
    assert r == STORES[0] || r == STORES[1] || r == STORES[2] || r == STORES[3] || r == STORES[4] || r == STORES[5]
        || r == STORES[6];
  }

  lemma CompareIsRule(a: nat, b: nat)
    requires TwoListed(ICMP, COND_NT, a, b, 1)
    ensures Rule(COND_NT, Op2(ICMP, a, b), 1) in BRANCHES
  {
    var r := Rule(COND_NT, Op2(ICMP, a, b), 1);
    assert r == BRANCHES[0] || r == BRANCHES[1] || r == BRANCHES[2];
  }

  ghost predicate InPart(r: Rule) {
    || r in LEAVES || r in LOADS || r in STORES || r in ADDRESSES || r in BRANCHES || r in CALLS
    || r in Arithmetic(ADD, 1, 1, 1, 1) || r in Arithmetic(SUB, 1, 1, 2, 1) || r in Arithmetic(MUL, 1, 1, 1, 1)
    || r in Arithmetic(SDIV, 2, 3, 2, 3)
  }

  lemma TwoIsRule(r: Rule)
    requires r.pattern.Term? && |r.pattern.kids| == 2 && Counted2(r.pattern.kids)
    requires TwoListed(r.pattern.op, r.lhs, r.pattern.kids[0].nt, r.pattern.kids[1].nt, r.extra)
    ensures InPart(r)
  {
    var op, a, b := r.pattern.op, r.pattern.kids[0].nt, r.pattern.kids[1].nt;
    assert r == Rule(r.lhs, Op2(op, a, b), r.extra);
    if IsArithmetic(op) {
      ArithmeticIsRule(op, a, b);
    } else if op == GETELEMENTPTR {
      AddressIsRule(a, b);
    } else if op == ICMP {
      CompareIsRule(a, b);
    } else if op == STORE {
      StoreIsRule(a, b);
    } else {
      assert r == CALLS[5];
    }
  }

  lemma LeafIsRule(op: nat, lhs: nat)
    requires LeafListed(op, lhs)
    ensures Rule(lhs, Op0(op), 0) in LEAVES
  {
    var r := Rule(lhs, Op0(op), 0);
    assert r == LEAVES[0] || r == LEAVES[1] || r == LEAVES[2] || r == LEAVES[3] || r == LEAVES[4];
  }

  lemma OtherIsRule(r: Rule)
    requires Listed(r) && (r.pattern.Nonterm? || |r.pattern.kids| == 3 || !(|r.pattern.kids| == 2 && Counted2(r.pattern.kids)))
    requires r.pattern.Term? ==> |r.pattern.kids| > 0
    requires r.pattern.Term? && |r.pattern.kids| == 1 ==> !r.pattern.kids[0].Nonterm?
    ensures InPart(r)
  {
    if r.pattern.Nonterm? {
      assert r == Rule(r.lhs, N(r.pattern.nt), r.extra);
      assert r == LOADS[2] || r == CALLS[0] || r == CALLS[1] || r == CALLS[2] || r == CALLS[3];
    } else {
      assert r == LOADS[4] || r == CALLS[4] || r == BRANCHES[3] || r == BRANCHES[4] || r == CALLS[6] || r == CALLS[7]
          || r == CALLS[8];
    }
  }

  lemma PartIsListed(r: Rule)
    requires InPart(r)
    ensures Listed(r)
  {
    PartsListed(r);
    if r in Arithmetic(ADD, 1, 1, 1, 1) {
      ArithmeticListed(ADD, r);
    } else if r in Arithmetic(SUB, 1, 1, 2, 1) {
      ArithmeticListed(SUB, r);
    } else if r in Arithmetic(MUL, 1, 1, 1, 1) {
      ArithmeticListed(MUL, r);
    } else if r in Arithmetic(SDIV, 2, 3, 2, 3) {
      ArithmeticListed(SDIV, r);
    }
  }

  lemma ListedIsPart(r: Rule)
    requires Listed(r)
    ensures InPart(r)
  {
    if r.pattern.Term? && r.pattern.kids == [] {
      LeafIsRule(r.pattern.op, r.lhs);
      assert r == Rule(r.lhs, Op0(r.pattern.op), 0);
    } else if r.pattern.Term? && |r.pattern.kids| == 1 && r.pattern.kids[0].Nonterm? {
      OneIsRule(r);
    } else if r.pattern.Term? && |r.pattern.kids| == 2 && Counted2(r.pattern.kids) {
      TwoIsRule(r);
    } else {
      OtherIsRule(r);
    }
  }

  /** The grammar has these rules and no others. */
  lemma AsmIsBackEnd()
    ensures BackEnd(ASM)
  {
    forall r ensures r in ASM.rules <==> Listed(r) {
      if Listed(r) {
        ListedIsPart(r);
      }
      if r in ASM.rules {
        PartIsListed(r);
      }
    }
  }

  // ---------------------------------------------------------------------------------------------
  // Derivations of a node from those of its children
  // ---------------------------------------------------------------------------------------------

  /** Nonterminals that no chain rule leads to. */
  predicate Base(nt: nat) { nt != STMT_NT && nt != CALL_ARG_NT }

  ghost predicate At(g: Grammar, t: Tree, nt: nat, c: nat) { exists d :: Derives(g, d, t, nt) && Cost(d) == c }

  /** There is a derivation of `t` from `nt` at cost `c`, and none from another base nonterminal or at another cost. */
  ghost predicate OnlyAs(g: Grammar, t: Tree, nt: nat, c: nat) {
    && Base(nt) && At(g, t, nt, c)
    && forall d, q: nat :: Base(q) && Derives(g, d, t, q) ==> q == nt && Cost(d) == c
  }

  function Node1(op: nat, x: Tree): Tree { Tree(op, [x]) }

  function Node2(op: nat, x: Tree, y: Tree): Tree { Tree(op, [x, y]) }

  lemma UseOne(g: Grammar, r: Rule, op: nat, a: nat, x: Tree, c: nat)
    requires r in g.rules && r.pattern == Op1(op, a) && At(g, x, a, c)
    ensures At(g, Node1(op, x), r.lhs, c + r.extra)
  {
    var d :| Derives(g, d, x, a) && Cost(d) == c;
    var e := Use(r, Inner([Leaf(d)]));
    assert Fits(g, Leaf(d), N(a), x);
    OneCost(e, op, a, d);
    assert Derives(g, e, Node1(op, x), r.lhs);
  }

  lemma OneCost(e: Derivation, op: nat, a: nat, d: Derivation)
    requires e.rule.pattern == Op1(op, a) && e.how == Inner([Leaf(d)])
    ensures Cost(e) == Cost(d) + e.rule.extra
  {
    var ms, ps := [Leaf(d)], [N(a)];
    assert MatchCosts(ms, ps) == MatchCost(ms[0], ps[0]) + MatchCosts(ms[1..], ps[1..]);
  }

  lemma UseTwo(g: Grammar, r: Rule, op: nat, a: nat, b: nat, x: Tree, y: Tree, c1: nat, c2: nat)
    requires r in g.rules && r.pattern == Op2(op, a, b) && At(g, x, a, c1) && At(g, y, b, c2)
    ensures At(g, Node2(op, x, y), r.lhs, c1 + c2 + r.extra)
  {
    var d1 :| Derives(g, d1, x, a) && Cost(d1) == c1;
    var d2 :| Derives(g, d2, y, b) && Cost(d2) == c2;
    var e := Use(r, Inner([Leaf(d1), Leaf(d2)]));
    assert Fits(g, Leaf(d1), N(a), x) && Fits(g, Leaf(d2), N(b), y);
    TwoCost(e, op, a, b, d1, d2);
    assert Derives(g, e, Node2(op, x, y), r.lhs);
  }

  lemma TwoCost(e: Derivation, op: nat, a: nat, b: nat, d1: Derivation, d2: Derivation)
    requires e.rule.pattern == Op2(op, a, b) && e.how == Inner([Leaf(d1), Leaf(d2)])
    ensures Cost(e) == Cost(d1) + Cost(d2) + e.rule.extra
  {
    var ms, ps := [Leaf(d1), Leaf(d2)], [N(a), N(b)];
    assert MatchCosts(ms, ps) == MatchCost(ms[0], ps[0]) + MatchCosts(ms[1..], ps[1..]);
    assert MatchCosts(ms[1..], ps[1..]) == MatchCost(ms[1], ps[1]) + MatchCosts(ms[1..][1..], ps[1..][1..]);
  }

  /** How a node with one child was derived. */
  lemma OneUsed(g: Grammar, d: Derivation, op: nat, x: Tree) returns (a: nat, e: Derivation)
    requires d.rule in g.rules && d.rule.pattern.Term? && Derives(g, d, Node1(op, x), d.rule.lhs)
    requires |d.rule.pattern.kids| == 1 && d.rule.pattern.kids[0].Nonterm? && d.rule.pattern.kids[0].counted
    ensures d.rule.pattern == Op1(op, a) && Derives(g, e, x, a) && Cost(d) == Cost(e) + d.rule.extra
  {
    a := d.rule.pattern.kids[0].nt;
    assert d.rule.pattern.kids == [N(a)];
    assert Fits(g, d.how.kids[0], N(a), x);
    e := d.how.kids[0].sub;
    assert d.how.kids == [Leaf(e)];
    OneCost(d, op, a, e);
  }

  lemma TwoUsed(g: Grammar, d: Derivation, op: nat, x: Tree, y: Tree) returns (a: nat, b: nat, e1: Derivation, e2: Derivation)
    requires d.rule in g.rules && d.rule.pattern.Term? && Derives(g, d, Node2(op, x, y), d.rule.lhs)
    requires |d.rule.pattern.kids| == 2 && Counted2(d.rule.pattern.kids)
    ensures d.rule.pattern == Op2(op, a, b) && Derives(g, e1, x, a) && Derives(g, e2, y, b)
    ensures Cost(d) == Cost(e1) + Cost(e2) + d.rule.extra
  {
    a, b := d.rule.pattern.kids[0].nt, d.rule.pattern.kids[1].nt;
    assert d.rule.pattern.kids == [N(a), N(b)];
    assert Fits(g, d.how.kids[0], N(a), x) && Fits(g, d.how.kids[1], N(b), y);
    e1, e2 := d.how.kids[0].sub, d.how.kids[1].sub;
    assert d.how.kids == [Leaf(e1), Leaf(e2)];
    TwoCost(d, op, a, b, e1, e2);
  }

  /** A node of the operators of this section is derived by a rule for its operator, unless by a chain rule. */
  lemma RuleForNode(g: Grammar, d: Derivation, t: Tree, nt: nat)
    requires BackEnd(g) && Derives(g, d, t, nt) && Base(nt)
    ensures Listed(d.rule) && d.rule.lhs == nt && d.rule.pattern.Term? && d.rule.pattern.op == t.op
    ensures |d.rule.pattern.kids| == |t.kids|
  {
    assert Fits(g, d.how, d.rule.pattern, t);
  }

  lemma LeafOnly(g: Grammar, op: nat, nt: nat)
    requires BackEnd(g) && LeafListed(op, nt)
    ensures OnlyAs(g, Tree(op, []), nt, 0)
  {
    var r, t := Rule(nt, Op0(op), 0), Tree(op, []);
    assert Listed(r) && r in g.rules;
    var e := Use(r, Inner([]));
    assert Derives(g, e, t, nt) && Cost(e) == 0;
    forall d, q: nat | Base(q) && Derives(g, d, t, q) ensures q == nt && Cost(d) == 0 {
      RuleForNode(g, d, t, q);
      assert Fits(g, d.how, d.rule.pattern, t) && d.rule.pattern.kids == [];
    }
  }

  lemma LoadOnly(g: Grammar, x: Tree, a: nat, c: nat)
    requires BackEnd(g) && OnlyAs(g, x, a, c) && Pointer(a)
    ensures OnlyAs(g, Node1(LOAD, x), REG_NT, c + 1)
  {
    var r, t := Rule(REG_NT, Op1(LOAD, a), 1), Node1(LOAD, x);
    assert Listed(r) && r in g.rules;
    UseOne(g, r, LOAD, a, x, c);
    forall d, q: nat | Base(q) && Derives(g, d, t, q) ensures q == REG_NT && Cost(d) == c + 1 {
      RuleForNode(g, d, t, q);
      var b, e := OneUsed(g, d, LOAD, x);
    }
  }

  /** The operators with two operands that give a value or a place. */
  predicate Gives(op: nat, lhs: nat, a: nat, b: nat, extra: nat) {
    (IsArithmetic(op) || op == GETELEMENTPTR || op == ICMP) && TwoListed(op, lhs, a, b, extra)
  }

  lemma TwoOnly(g: Grammar, op: nat, lhs: nat, x: Tree, y: Tree, a: nat, b: nat, c1: nat, c2: nat, extra: nat)
    requires BackEnd(g) && OnlyAs(g, x, a, c1) && OnlyAs(g, y, b, c2) && Gives(op, lhs, a, b, extra)
    ensures OnlyAs(g, Node2(op, x, y), lhs, c1 + c2 + extra)
  {
    var r, t := Rule(lhs, Op2(op, a, b), extra), Node2(op, x, y);
    assert Listed(r) && r in g.rules;
    UseTwo(g, r, op, a, b, x, y, c1, c2);
    forall d, q: nat | Base(q) && Derives(g, d, t, q) ensures q == lhs && Cost(d) == c1 + c2 + extra {
      RuleForNode(g, d, t, q);
      var a', b', e1, e2 := TwoUsed(g, d, op, x, y);
    }
  }

  // ---------------------------------------------------------------------------------------------
  // Values and places
  // ---------------------------------------------------------------------------------------------

  function OperatorOf(op: S.Op): nat {
    match op
    case Add => ADD
    case Sub => SUB
    case Mul => MUL
    case SDiv => SDIV
  }

  /** The labeller's tree for a value, as the tree builder makes it. */
  function TreeOf(t: S.Tree): Tree {
    match t
    case Imm(_) => Tree(CONST, [])
    case Load(_, p) => Node1(LOAD, PlaceTree(p))
    case Binary(_, op, l, r) => Node2(OperatorOf(op), TreeOf(l), TreeOf(r))
  }

  function PlaceTree(p: S.Place): Tree {
    match p
    case Object(_) => Tree(ALLOCA, [])
    case At(t) => TreeOf(t)
    case Element(b, i, _) => Node2(GETELEMENTPTR, PlaceTree(b), TreeOf(i))
  }

  /** Numbers are no pointers. */
  predicate Proper(t: S.Tree) {
    match t
    case Imm(_) => true
    case Load(_, p) => ProperPlace(p)
    case Binary(_, _, l, r) => Proper(l) && Proper(r)
  }

  predicate ProperPlace(p: S.Place) {
    match p
    case Object(_) => true
    case At(t) => !t.Imm? && Proper(t)
    case Element(b, i, _) => ProperPlace(b) && Proper(i)
  }

  function KindOf(t: S.Tree): nat { if t.Imm? then IMM_NT else REG_NT }

  function PlaceKind(p: S.Place): nat { if p.At? then REG_NT else MEM_NT }

  /** What the code for a value is said to cost: one for a load or an element; one for an operator, but two for a number minus
      something and for a division, and three for a division by a number. */
  function TreeCost(t: S.Tree): nat {
    match t
    case Imm(_) => 0
    case Load(_, p) => PlaceCost(p) + 1
    case Binary(_, op, l, r) =>
      TreeCost(l) + TreeCost(r) + match op
                                  case Add => 1
                                  case Mul => 1
                                  case Sub => if l.Imm? && !r.Imm? then 2 else 1
                                  case SDiv => if r.Imm? then 3 else 2
  }

  function PlaceCost(p: S.Place): nat {
    match p
    case Object(_) => 0
    case At(t) => TreeCost(t)
    case Element(b, i, _) => PlaceCost(b) + TreeCost(i) + 1
  }

  lemma {:induction false} ValueCovered(g: Grammar, t: S.Tree)
    requires BackEnd(g) && Proper(t)
    ensures OnlyAs(g, TreeOf(t), KindOf(t), TreeCost(t))
    decreases t
  {
    match t
    case Imm(_) => LeafOnly(g, CONST, IMM_NT);
    case Load(_, p) =>
      PlaceCovered(g, p);
      LoadOnly(g, PlaceTree(p), PlaceKind(p), PlaceCost(p));
    case Binary(_, op, l, r) =>
      ValueCovered(g, l);
      ValueCovered(g, r);
      TwoOnly(g, OperatorOf(op), REG_NT, TreeOf(l), TreeOf(r), KindOf(l), KindOf(r), TreeCost(l), TreeCost(r),
              TreeCost(t) - TreeCost(l) - TreeCost(r));
  }

  lemma {:induction false} PlaceCovered(g: Grammar, p: S.Place)
    requires BackEnd(g) && ProperPlace(p)
    ensures OnlyAs(g, PlaceTree(p), PlaceKind(p), PlaceCost(p))
    decreases p
  {
    match p
    case Object(_) => LeafOnly(g, ALLOCA, MEM_NT);
    case At(t) => ValueCovered(g, t);
    case Element(b, i, _) =>
      PlaceCovered(g, b);
      ValueCovered(g, i);
      TwoOnly(g, GETELEMENTPTR, MEM_NT, PlaceTree(b), TreeOf(i), PlaceKind(b), KindOf(i), PlaceCost(b), TreeCost(i), 1);
  }

  // ---------------------------------------------------------------------------------------------
  // Statements
  // ---------------------------------------------------------------------------------------------

  /** What a statement or a call is about: a value, a place, a label, an argument of the function. */
  datatype Part = Val(value: S.Tree) | Plc(place: S.Place) | Lbl | Arg

  function PartTree(x: Part): Tree {
    match x
    case Val(t) => TreeOf(t)
    case Plc(p) => PlaceTree(p)
    case Lbl => Tree(LABEL, [])
    case Arg => Tree(FUNCARG, [])
  }

  predicate ProperPart(x: Part) { (x.Val? ==> Proper(x.value)) && (x.Plc? ==> ProperPlace(x.place)) }

  function PartKind(x: Part): (nt: nat)
    ensures Base(nt)
  {
    match x
    case Val(t) => KindOf(t)
    case Plc(p) => PlaceKind(p)
    case Lbl => LABEL_NT
    case Arg => FUNC_ARG_NT
  }

  function PartCost(x: Part): nat {
    match x
    case Val(t) => TreeCost(t)
    case Plc(p) => PlaceCost(p)
    case _ => 0
  }

  lemma PartCovered(g: Grammar, x: Part)
    requires BackEnd(g) && ProperPart(x)
    ensures OnlyAs(g, PartTree(x), PartKind(x), PartCost(x))
  {
    match x
    case Val(t) => ValueCovered(g, t);
    case Plc(p) => PlaceCovered(g, p);
    case Lbl => LeafOnly(g, LABEL, LABEL_NT);
    case Arg => LeafOnly(g, FUNCARG, FUNC_ARG_NT);
  }

  /** The roots that the tree builder makes: an instruction on its own, a store, returns, branches, a call. */
  datatype Root =
    | Alone(x: Part)
    | Store(x: Part, to: Part)
    | Return(x: Part)
    | ReturnNothing
    | Branch(l: Part, r: Part)
    | Jump
    | Called(callee: Part, args: seq<Part>)

  const LABEL_TREE: Tree := Tree(LABEL, [])

  function ArgsTree(args: seq<Part>): Tree {
    if args == [] then Node2(CALLARGS, UNDEF_TREE, UNDEF_TREE) else Node2(CALLARGS, PartTree(args[0]), ArgsTree(args[1..]))
  }

  function RootTree(r: Root): Tree {
    match r
    case Alone(x) => PartTree(x)
    case Store(x, to) => Node2(STORE, PartTree(x), PartTree(to))
    case Return(x) => Node1(RET, PartTree(x))
    case ReturnNothing => Node1(RET, UNDEF_TREE)
    case Branch(x, y) => Tree(BR, [Node2(ICMP, PartTree(x), PartTree(y)), LABEL_TREE, LABEL_TREE])
    case Jump => Tree(BR, [LABEL_TREE, UNDEF_TREE, UNDEF_TREE])
    case Called(f, args) => Node2(CALL, PartTree(f), ArgsTree(args))
  }

  ghost predicate ProperRoot(r: Root) {
    match r
    case Alone(x) => ProperPart(x)
    case Store(x, to) => ProperPart(x) && ProperPart(to)
    case Return(x) => ProperPart(x)
    case Branch(x, y) => ProperPart(x) && ProperPart(y)
    case Called(f, args) => ProperPart(f) && forall k :: 0 <= k < |args| ==> ProperPart(args[k])
    case _ => true
  }

  /** A number, or a value in a register. */
  predicate IsValue(x: Part) { Value(PartKind(x)) }

  predicate IsPointer(x: Part) { Pointer(PartKind(x)) }

  predicate IsArgument(x: Part) { !x.Arg? }

  /** What the code for a statement is said to cost; none where there is no rule: a place on its own, an address stored
      through a pointer in a register, a comparison of two numbers, a call of a number. */
  function RootCost(r: Root): Option<nat> {
    match r
    case Alone(x) => if PartKind(x) == REG_NT then Some(PartCost(x)) else None
    case Store(x, to) =>
      if IsPointer(to) && (IsValue(x) || PartKind(to) == MEM_NT) then Some(PartCost(x) + PartCost(to) + 1) else None
    case Return(x) => if IsValue(x) then Some(PartCost(x) + 1) else None
    case ReturnNothing => Some(0)
    case Branch(x, y) =>
      if IsValue(x) && IsValue(y) && !(PartKind(x) == IMM_NT && PartKind(y) == IMM_NT) then Some(PartCost(x) + PartCost(y) + 2)
      else None
    case Jump => Some(1)
    case Called(f, args) =>
      if (IsPointer(f) || f.Lbl?) && forall k :: 0 <= k < |args| ==> IsArgument(args[k]) then Some(PartCost(f) + 1) else None
  }

  /** One for every argument, and what the arguments cost. */
  function ArgsCost(args: seq<Part>): nat { if args == [] then 0 else PartCost(args[0]) + 1 + ArgsCost(args[1..]) }

  /** A statement is derived at this cost, if there is one, and at no other. */
  ghost predicate StmtOnly(g: Grammar, t: Tree, c: Option<nat>) {
    && (c.Some? ==> At(g, t, STMT_NT, c.value))
    && forall d :: Derives(g, d, t, STMT_NT) ==> c == Some(Cost(d))
  }

  lemma ChainCost(e: Derivation, nt: nat, d: Derivation)
    requires e.rule.pattern == N(nt) && e.how == Leaf(d)
    ensures Cost(e) == Cost(d) + e.rule.extra
  {
    assert MatchCost(e.how, e.rule.pattern) == Cost(d);
  }

  /** A statement that is a value. */
  lemma RegisterStmt(g: Grammar, t: Tree, nt: nat, c: nat)
    requires BackEnd(g) && OnlyAs(g, t, nt, c) && t.op != STORE && t.op != RET && t.op != BR
    ensures StmtOnly(g, t, if nt == REG_NT then Some(c) else None)
  {
    var r := Rule(STMT_NT, N(REG_NT), 0);
    assert Listed(r) && r in g.rules;
    if nt == REG_NT {
      var d :| Derives(g, d, t, nt) && Cost(d) == c;
      var e := Use(r, Leaf(d));
      ChainCost(e, REG_NT, d);
      assert Derives(g, e, t, STMT_NT);
    }
    forall d | Derives(g, d, t, STMT_NT) ensures nt == REG_NT && Cost(d) == c {
      assert Listed(d.rule) && Fits(g, d.how, d.rule.pattern, t);
      if d.rule.pattern.Nonterm? {
        assert Derives(g, d.how.sub, t, REG_NT) && d.rule.pattern == N(REG_NT);
        ChainCost(d, REG_NT, d.how.sub);
      }
    }
  }

  lemma StoreStmt(g: Grammar, x: Tree, y: Tree, a: nat, b: nat, c1: nat, c2: nat)
    requires BackEnd(g) && OnlyAs(g, x, a, c1) && OnlyAs(g, y, b, c2)
    ensures StmtOnly(g, Node2(STORE, x, y), if TwoListed(STORE, STMT_NT, a, b, 1) then Some(c1 + c2 + 1) else None)
  {
    var t := Node2(STORE, x, y);
    if TwoListed(STORE, STMT_NT, a, b, 1) {
      var r := Rule(STMT_NT, Op2(STORE, a, b), 1);
      assert Listed(r) && r in g.rules;
      UseTwo(g, r, STORE, a, b, x, y, c1, c2);
    }
    forall d | Derives(g, d, t, STMT_NT) ensures TwoListed(STORE, STMT_NT, a, b, 1) && Cost(d) == c1 + c2 + 1 {
      StmtRule(g, d, t);
      var a', b', e1, e2 := TwoUsed(g, d, STORE, x, y);
    }
  }

  /** No value has one of these operators, so that no chain rule applies. */
  lemma StmtRule(g: Grammar, d: Derivation, t: Tree)
    requires BackEnd(g) && Derives(g, d, t, STMT_NT) && (t.op == STORE || t.op == RET || t.op == BR)
    ensures Listed(d.rule) && d.rule.lhs == STMT_NT && d.rule.pattern.Term? && d.rule.pattern.op == t.op
    ensures |d.rule.pattern.kids| == |t.kids| && Fits(g, d.how, d.rule.pattern, t)
  {
    assert Listed(d.rule) && Fits(g, d.how, d.rule.pattern, t);
    if d.rule.pattern.Nonterm? {
      RuleForNode(g, d.how.sub, t, REG_NT);
      assert false;
    }
  }

  lemma ReturnStmt(g: Grammar, x: Tree, a: nat, c: nat)
    requires BackEnd(g) && OnlyAs(g, x, a, c)
    ensures StmtOnly(g, Node1(RET, x), if Value(a) then Some(c + 1) else None)
  {
    var t := Node1(RET, x);
    if Value(a) {
      var r := Rule(STMT_NT, Op1(RET, a), 1);
      assert Listed(r) && r in g.rules;
      UseOne(g, r, RET, a, x, c);
    }
    forall d | Derives(g, d, t, STMT_NT) ensures Value(a) && Cost(d) == c + 1 {
      StmtRule(g, d, t);
      if d.rule == Rule(STMT_NT, Term(RET, [Op0(UNDEF)]), 0) {
        assert Fits(g, d.how.kids[0], Op0(UNDEF), x);
        UndefIsNothing(g, x, a, c);
        assert false;
      } else {
        var b, e := OneUsed(g, d, RET, x);
      }
    }
  }

  lemma UndefIsNothing(g: Grammar, x: Tree, a: nat, c: nat)
    requires BackEnd(g) && OnlyAs(g, x, a, c)
    ensures x.op != UNDEF
  {
    var d :| Derives(g, d, x, a) && Cost(d) == c;
    RuleForNode(g, d, x, a);
  }

  lemma NothingReturned(g: Grammar)
    requires BackEnd(g)
    ensures StmtOnly(g, RootTree(ReturnNothing), Some(0))
  {
    var r, t := Rule(STMT_NT, Term(RET, [Op0(UNDEF)]), 0), Node1(RET, UNDEF_TREE);
    assert Listed(r) && r in g.rules;
    var e := Use(r, Inner([Inner([])]));
    assert Fits(g, Inner([]), Op0(UNDEF), UNDEF_TREE);
    FlatCost(e, [Inner([])], [Op0(UNDEF)]);
    assert Derives(g, e, t, STMT_NT);
    forall d | Derives(g, d, t, STMT_NT) ensures Cost(d) == 0 {
      StmtRule(g, d, t);
      if d.rule == r {
        assert Fits(g, d.how.kids[0], Op0(UNDEF), UNDEF_TREE) && d.how.kids == [Inner([])];
        FlatCost(d, [Inner([])], [Op0(UNDEF)]);
      } else {
        var b, e := OneUsed(g, d, RET, UNDEF_TREE);
        RuleForNode(g, e, UNDEF_TREE, b);
        assert false;
      }
    }
  }

  lemma FlatCost(e: Derivation, ms: seq<Match>, ps: seq<Pattern>)
    requires e.rule.pattern.Term? && e.rule.pattern.kids == ps && e.how == Inner(ms) && |ms| == |ps| == 1
    ensures Cost(e) == MatchCost(ms[0], ps[0]) + e.rule.extra
  {
    assert MatchCosts(ms, ps) == MatchCost(ms[0], ps[0]) + MatchCosts(ms[1..], ps[1..]);
  }

  lemma ThreeCost(e: Derivation, ms: seq<Match>, ps: seq<Pattern>)
    requires e.rule.pattern.Term? && e.rule.pattern.kids == ps && e.how == Inner(ms) && |ms| == |ps| == 3
    ensures Cost(e) == MatchCost(ms[0], ps[0]) + MatchCost(ms[1], ps[1]) + MatchCost(ms[2], ps[2]) + e.rule.extra
  {
    assert MatchCosts(ms, ps) == MatchCost(ms[0], ps[0]) + MatchCosts(ms[1..], ps[1..]);
    assert MatchCosts(ms[1..], ps[1..]) == MatchCost(ms[1], ps[1]) + MatchCosts(ms[1..][1..], ps[1..][1..]);
    assert ms[1..][1..][0] == ms[2] && ps[1..][1..][0] == ps[2];
    assert MatchCosts(ms[1..][1..], ps[1..][1..])
        == MatchCost(ms[2], ps[2]) + MatchCosts(ms[1..][1..][1..], ps[1..][1..][1..]);
  }

  const BRANCH: Rule := Rule(STMT_NT, Term(BR, [N(COND_NT), N(LABEL_NT), N(LABEL_NT)]), 1)
  const JUMP: Rule := Rule(STMT_NT, Term(BR, [N(LABEL_NT), Op0(UNDEF), Op0(UNDEF)]), 1)

  function BranchTree(cond: Tree): Tree { Tree(BR, [cond, LABEL_TREE, LABEL_TREE]) }

  /** A branch on a condition at cost `c`. */
  lemma BranchStmt(g: Grammar, cond: Tree, c: nat)
    requires BackEnd(g) && OnlyAs(g, cond, COND_NT, c)
    ensures StmtOnly(g, BranchTree(cond), Some(c + 1))
  {
    var t := BranchTree(cond);
    assert Listed(BRANCH) && BRANCH in g.rules;
    LeafOnly(g, LABEL, LABEL_NT);
    var d0 :| Derives(g, d0, cond, COND_NT) && Cost(d0) == c;
    var d1 :| Derives(g, d1, LABEL_TREE, LABEL_NT) && Cost(d1) == 0;
    var ms := [Leaf(d0), Leaf(d1), Leaf(d1)];
    var e := Use(BRANCH, Inner(ms));
    assert Fits(g, Leaf(d0), N(COND_NT), cond) && Fits(g, Leaf(d1), N(LABEL_NT), LABEL_TREE);
    ThreeCost(e, ms, BRANCH.pattern.kids);
    assert Derives(g, e, t, STMT_NT);
    forall d | Derives(g, d, t, STMT_NT) ensures Cost(d) == c + 1 {
      BranchUsed(g, d, cond, c);
    }
  }

  lemma BranchUsed(g: Grammar, d: Derivation, cond: Tree, c: nat)
    requires BackEnd(g) && OnlyAs(g, cond, COND_NT, c) && Derives(g, d, BranchTree(cond), STMT_NT)
    ensures Cost(d) == c + 1
  {
    var t := BranchTree(cond);
    StmtRule(g, d, t);
    LeafOnly(g, LABEL, LABEL_NT);
    var ms, ps := d.how.kids, d.rule.pattern.kids;
    assert Fits(g, ms[0], ps[0], cond) && Fits(g, ms[1], ps[1], LABEL_TREE) && Fits(g, ms[2], ps[2], LABEL_TREE);
    ThreeCost(d, ms, ps);
    assert d.rule == BRANCH || d.rule == JUMP;
  }

  lemma JumpStmt(g: Grammar)
    requires BackEnd(g)
    ensures StmtOnly(g, RootTree(Jump), Some(1))
  {
    var t := RootTree(Jump);
    assert Listed(JUMP) && JUMP in g.rules;
    LeafOnly(g, LABEL, LABEL_NT);
    var d1 :| Derives(g, d1, LABEL_TREE, LABEL_NT) && Cost(d1) == 0;
    var ms := [Leaf(d1), Inner([]), Inner([])];
    var e := Use(JUMP, Inner(ms));
    assert Fits(g, Leaf(d1), N(LABEL_NT), LABEL_TREE) && Fits(g, Inner([]), Op0(UNDEF), UNDEF_TREE);
    ThreeCost(e, ms, JUMP.pattern.kids);
    assert Derives(g, e, t, STMT_NT);
    forall d | Derives(g, d, t, STMT_NT) ensures Cost(d) == 1 {
      JumpUsed(g, d);
    }
  }

  lemma JumpUsed(g: Grammar, d: Derivation)
    requires BackEnd(g) && Derives(g, d, RootTree(Jump), STMT_NT)
    ensures Cost(d) == 1
  {
    StmtRule(g, d, RootTree(Jump));
    LeafOnly(g, LABEL, LABEL_NT);
    var ms, ps := d.how.kids, d.rule.pattern.kids;
    assert Fits(g, ms[0], ps[0], LABEL_TREE) && Fits(g, ms[1], ps[1], UNDEF_TREE) && Fits(g, ms[2], ps[2], UNDEF_TREE);
    ThreeCost(d, ms, ps);
    assert d.rule == BRANCH || d.rule == JUMP;
  }

  /** A comparison that has no rule leaves its branch without one. */
  lemma NoBranchStmt(g: Grammar, x: Tree, y: Tree, a: nat, b: nat, c1: nat, c2: nat)
    requires BackEnd(g) && OnlyAs(g, x, a, c1) && OnlyAs(g, y, b, c2) && !TwoListed(ICMP, COND_NT, a, b, 1)
    ensures StmtOnly(g, BranchTree(Node2(ICMP, x, y)), None)
  {
    var cond := Node2(ICMP, x, y);
    forall d | Derives(g, d, BranchTree(cond), STMT_NT) ensures false {
      StmtRule(g, d, BranchTree(cond));
      var ms, ps := d.how.kids, d.rule.pattern.kids;
      assert Fits(g, ms[0], ps[0], cond);
      assert d.rule == BRANCH || d.rule == JUMP;
      RuleForNode(g, ms[0].sub, cond, ps[0].nt);
      var a', b', e1, e2 := TwoUsed(g, ms[0].sub, ICMP, x, y);
    }
  }

  // ---------------------------------------------------------------------------------------------
  // Calls
  // ---------------------------------------------------------------------------------------------

  lemma ArgumentCovered(g: Grammar, x: Part)
    requires BackEnd(g) && ProperPart(x)
    ensures IsArgument(x) ==> At(g, PartTree(x), CALL_ARG_NT, PartCost(x) + 1)
    ensures forall d :: Derives(g, d, PartTree(x), CALL_ARG_NT) ==> IsArgument(x) && Cost(d) == PartCost(x) + 1
  {
    var t, r := PartTree(x), Rule(CALL_ARG_NT, N(PartKind(x)), 1);
    PartCovered(g, x);
    if IsArgument(x) {
      assert Listed(r) && r in g.rules;
      var d :| Derives(g, d, t, PartKind(x)) && Cost(d) == PartCost(x);
      var e := Use(r, Leaf(d));
      ChainCost(e, PartKind(x), d);
      assert Derives(g, e, t, CALL_ARG_NT);
    }
    forall d | Derives(g, d, t, CALL_ARG_NT) ensures IsArgument(x) && Cost(d) == PartCost(x) + 1 {
      assert Listed(d.rule) && Fits(g, d.how, d.rule.pattern, t);
      assert Derives(g, d.how.sub, t, d.rule.pattern.nt) && d.rule.pattern == N(d.rule.pattern.nt);
      ChainCost(d, d.rule.pattern.nt, d.how.sub);
    }
  }

  predicate AllArguments(args: seq<Part>) { forall k :: 0 <= k < |args| ==> IsArgument(args[k]) }

  ghost predicate ProperParts(args: seq<Part>) { forall k :: 0 <= k < |args| ==> ProperPart(args[k]) }

  ghost predicate ArgsOnly(g: Grammar, args: seq<Part>) {
    && (AllArguments(args) ==> At(g, ArgsTree(args), CALL_ARGS_NT, ArgsCost(args)))
    && forall d :: Derives(g, d, ArgsTree(args), CALL_ARGS_NT) ==> AllArguments(args) && Cost(d) == ArgsCost(args)
  }

  lemma NoArgsCovered(g: Grammar)
    requires BackEnd(g)
    ensures ArgsOnly(g, [])
  {
    var t := ArgsTree([]);
    assert Listed(NO_ARGS) && NO_ARGS in g.rules;
    var ms := [Inner([]), Inner([])];
    var e := Use(NO_ARGS, Inner(ms));
    assert Fits(g, Inner([]), Op0(UNDEF), UNDEF_TREE);
    NoArgsCost(e);
    assert Derives(g, e, t, CALL_ARGS_NT);
    forall d | Derives(g, d, t, CALL_ARGS_NT) ensures Cost(d) == 0 {
      RuleForNode(g, d, t, CALL_ARGS_NT);
      assert Fits(g, d.how, d.rule.pattern, t);
      if d.rule == NO_ARGS {
        assert Fits(g, d.how.kids[0], Op0(UNDEF), UNDEF_TREE) && Fits(g, d.how.kids[1], Op0(UNDEF), UNDEF_TREE);
        assert d.how.kids == ms;
        NoArgsCost(d);
      } else {
        var a, b, e1, e2 := TwoUsed(g, d, CALLARGS, UNDEF_TREE, UNDEF_TREE);
        RuleForNode(g, e2, UNDEF_TREE, CALL_ARGS_NT);
        assert false;
      }
    }
  }

  lemma NoArgsCost(e: Derivation)
    requires e.rule == NO_ARGS && e.how == Inner([Inner([]), Inner([])])
    ensures Cost(e) == 0
  {
    var ms, ps := e.how.kids, NO_ARGS.pattern.kids;
    assert MatchCosts(ms, ps) == MatchCost(ms[0], ps[0]) + MatchCosts(ms[1..], ps[1..]);
    assert MatchCosts(ms[1..], ps[1..]) == MatchCost(ms[1], ps[1]) + MatchCosts(ms[1..][1..], ps[1..][1..]);
  }

  lemma {:induction false} ArgsCovered(g: Grammar, args: seq<Part>)
    requires BackEnd(g) && ProperParts(args)
    ensures ArgsOnly(g, args)
  {
    if args == [] {
      NoArgsCovered(g);
    } else {
      assert ProperPart(args[0]);
      ArgumentCovered(g, args[0]);
      ArgsCovered(g, args[1..]);
      MoreArgsCovered(g, args);
    }
  }

  lemma MoreArgsCovered(g: Grammar, args: seq<Part>)
    requires BackEnd(g) && args != [] && ProperPart(args[0]) && ArgsOnly(g, args[1..])
    requires IsArgument(args[0]) ==> At(g, PartTree(args[0]), CALL_ARG_NT, PartCost(args[0]) + 1)
    requires forall d :: Derives(g, d, PartTree(args[0]), CALL_ARG_NT) ==> IsArgument(args[0]) && Cost(d) == PartCost(args[0]) + 1
    ensures ArgsOnly(g, args)
  {
    var x, rest := PartTree(args[0]), ArgsTree(args[1..]);
    assert Listed(MORE_ARGS) && MORE_ARGS in g.rules;
    if AllArguments(args) {
      assert IsArgument(args[0]) && AllArguments(args[1..]);
      UseTwo(g, MORE_ARGS, CALLARGS, CALL_ARG_NT, CALL_ARGS_NT, x, rest, PartCost(args[0]) + 1, ArgsCost(args[1..]));
    }
    forall d | Derives(g, d, ArgsTree(args), CALL_ARGS_NT) ensures AllArguments(args) && Cost(d) == ArgsCost(args) {
      RuleForNode(g, d, ArgsTree(args), CALL_ARGS_NT);
      PartCovered(g, args[0]);
      UndefIsNothing(g, x, PartKind(args[0]), PartCost(args[0]));
      NoArgsFirst(g, d, x, rest);
      var a, b, e1, e2 := TwoUsed(g, d, CALLARGS, x, rest);
      AllFromRest(args);
    }
  }

  lemma NoArgsFirst(g: Grammar, d: Derivation, x: Tree, y: Tree)
    requires Fits(g, d.how, d.rule.pattern, Node2(CALLARGS, x, y))
    ensures d.rule == NO_ARGS ==> x.op == UNDEF
  {
    if d.rule == NO_ARGS {
      assert Fits(g, d.how.kids[0], Op0(UNDEF), x);
    }
  }

  lemma AllFromRest(args: seq<Part>)
    requires args != [] && IsArgument(args[0]) && AllArguments(args[1..])
    ensures AllArguments(args)
  {
    forall k | 0 <= k < |args| ensures IsArgument(args[k]) {
      assert k > 0 ==> args[k] == args[1..][k - 1];
    }
  }

  predicate IsCallable(x: Part) { IsPointer(x) || x.Lbl? }

  /** A call costs what its callee does, and one. */
  lemma CallCovered(g: Grammar, f: Part, args: seq<Part>)
    requires BackEnd(g) && ProperPart(f) && ProperParts(args)
    ensures var t := Node2(CALL, PartTree(f), ArgsTree(args));
            && (IsCallable(f) && AllArguments(args) ==> At(g, t, REG_NT, PartCost(f) + 1))
            && forall d, q: nat :: Base(q) && Derives(g, d, t, q) ==>
                 q == REG_NT && IsCallable(f) && AllArguments(args) && Cost(d) == PartCost(f) + 1
  {
    var t := Node2(CALL, PartTree(f), ArgsTree(args));
    PartCovered(g, f);
    ArgsCovered(g, args);
    if IsCallable(f) && AllArguments(args) {
      var d :| Derives(g, d, PartTree(f), PartKind(f)) && Cost(d) == PartCost(f);
      var a :| Derives(g, a, ArgsTree(args), CALL_ARGS_NT) && Cost(a) == ArgsCost(args);
      assert Listed(Call(PartKind(f)));
      var e := CallOf(g, PartKind(f), d, a, t);
    }
    forall d, q: nat | Base(q) && Derives(g, d, t, q)
      ensures q == REG_NT && IsCallable(f) && AllArguments(args) && Cost(d) == PartCost(f) + 1
    {
      RuleForNode(g, d, t, q);
      var c, e1, e2 := CallUsed(g, d, PartTree(f), ArgsTree(args));
    }
  }

  lemma CallUsed(g: Grammar, d: Derivation, x: Tree, y: Tree) returns (c: nat, e1: Derivation, e2: Derivation)
    requires BackEnd(g) && d.rule.pattern.Term? && Listed(d.rule) && Derives(g, d, Node2(CALL, x, y), d.rule.lhs)
    ensures d.rule == Call(c) && (c == LABEL_NT || c == REG_NT || c == MEM_NT)
    ensures Derives(g, e1, x, c) && Derives(g, e2, y, CALL_ARGS_NT) && Cost(d) == Cost(e1) + 1
    ensures d.how == Inner([Leaf(e1), Leaf(e2)])
  {
    assert Fits(g, d.how, d.rule.pattern, Node2(CALL, x, y));
    c := if d.rule == Call(LABEL_NT) then LABEL_NT else if d.rule == Call(REG_NT) then REG_NT else MEM_NT;
    assert d.rule == Call(c);
    var ms := d.how.kids;
    assert Fits(g, ms[0], N(c), x) && Fits(g, ms[1], Nonterm(CALL_ARGS_NT, false), y);
    e1, e2 := ms[0].sub, ms[1].sub;
    assert ms == [Leaf(e1), Leaf(e2)];
    CallCost(d, c);
  }

  lemma CallStmt(g: Grammar, f: Part, args: seq<Part>)
    requires BackEnd(g) && ProperPart(f) && ProperParts(args)
    ensures StmtOnly(g, RootTree(Called(f, args)), RootCost(Called(f, args)))
  {
    var t, r := RootTree(Called(f, args)), Rule(STMT_NT, N(REG_NT), 0);
    CallCovered(g, f, args);
    assert Listed(r) && r in g.rules;
    if IsCallable(f) && AllArguments(args) {
      var d :| Derives(g, d, t, REG_NT) && Cost(d) == PartCost(f) + 1;
      var e := Use(r, Leaf(d));
      ChainCost(e, REG_NT, d);
      assert Derives(g, e, t, STMT_NT);
    }
    forall d | Derives(g, d, t, STMT_NT) ensures RootCost(Called(f, args)) == Some(Cost(d)) {
      var e := CallBelow(g, d, t);
    }
  }

  /** A call on its own is derived as a value. */
  lemma CallBelow(g: Grammar, d: Derivation, t: Tree) returns (e: Derivation)
    requires BackEnd(g) && Derives(g, d, t, STMT_NT) && t.op == CALL
    ensures Derives(g, e, t, REG_NT) && d.how == Leaf(e) && Cost(d) == Cost(e)
  {
    assert Listed(d.rule) && Fits(g, d.how, d.rule.pattern, t);
    assert d.rule.pattern == N(REG_NT);
    e := d.how.sub;
    ChainCost(d, REG_NT, e);
  }

  // ---------------------------------------------------------------------------------------------
  // All roots
  // ---------------------------------------------------------------------------------------------

  lemma {:induction false} ValueWithoutCalls(t: S.Tree)
    ensures Without(TreeOf(t), CALL) && (TreeOf(t).op < STORE || IsArithmetic(TreeOf(t).op))
    decreases t
  {
    match t
    case Imm(_) =>
    case Load(_, p) => PlaceWithoutCalls(p);
    case Binary(_, _, l, r) =>
      ValueWithoutCalls(l);
      ValueWithoutCalls(r);
  }

  lemma {:induction false} PlaceWithoutCalls(p: S.Place)
    ensures Without(PlaceTree(p), CALL)
    ensures PlaceTree(p).op < STORE || PlaceTree(p).op == GETELEMENTPTR || IsArithmetic(PlaceTree(p).op)
    decreases p
  {
    match p
    case Object(_) =>
    case At(t) => ValueWithoutCalls(t);
    case Element(b, i, _) =>
      PlaceWithoutCalls(b);
      ValueWithoutCalls(i);
  }

  lemma PartWithoutCalls(x: Part)
    ensures Without(PartTree(x), CALL) && PartTree(x).op !in {STORE, RET, BR}
  {
    match x
    case Val(t) => ValueWithoutCalls(t);
    case Plc(p) => PlaceWithoutCalls(p);
    case _ =>
  }

  lemma {:induction false} ArgsWithoutCalls(args: seq<Part>)
    ensures Without(ArgsTree(args), CALL)
  {
    if args != [] {
      PartWithoutCalls(args[0]);
      ArgsWithoutCalls(args[1..]);
    }
  }

  lemma RootWithoutCalls(r: Root)
    requires !r.Called?
    ensures Without(RootTree(r), CALL)
  {
    match r
    case Alone(x) => PartWithoutCalls(x);
    case Store(x, to) =>
      PartWithoutCalls(x);
      PartWithoutCalls(to);
    case Return(x) => PartWithoutCalls(x);
    case Branch(x, y) =>
      PartWithoutCalls(x);
      PartWithoutCalls(y);
      assert Without(Node2(ICMP, PartTree(x), PartTree(y)), CALL);
    case _ =>
  }

  /** Every statement is derived at its cost, if it has one, and at no other. */
  lemma RootCovered(g: Grammar, r: Root)
    requires BackEnd(g) && ProperRoot(r)
    ensures StmtOnly(g, RootTree(r), RootCost(r))
  {
    match r
    case Alone(x) =>
      PartCovered(g, x);
      PartWithoutCalls(x);
      RegisterStmt(g, PartTree(x), PartKind(x), PartCost(x));
    case Store(x, to) =>
      PartCovered(g, x);
      PartCovered(g, to);
      StoreStmt(g, PartTree(x), PartTree(to), PartKind(x), PartKind(to), PartCost(x), PartCost(to));
    case Return(x) =>
      PartCovered(g, x);
      ReturnStmt(g, PartTree(x), PartKind(x), PartCost(x));
    case ReturnNothing => NothingReturned(g);
    case Branch(x, y) => BranchCovered(g, x, y);
    case Jump => JumpStmt(g);
    case Called(f, args) => CallStmt(g, f, args);
  }

  lemma BranchCovered(g: Grammar, x: Part, y: Part)
    requires BackEnd(g) && ProperPart(x) && ProperPart(y)
    ensures StmtOnly(g, RootTree(Branch(x, y)), RootCost(Branch(x, y)))
  {
    PartCovered(g, x);
    PartCovered(g, y);
    var a, b := PartKind(x), PartKind(y);
    if TwoListed(ICMP, COND_NT, a, b, 1) {
      TwoOnly(g, ICMP, COND_NT, PartTree(x), PartTree(y), a, b, PartCost(x), PartCost(y), 1);
      BranchStmt(g, Node2(ICMP, PartTree(x), PartTree(y)), PartCost(x) + PartCost(y) + 1);
    } else {
      NoBranchStmt(g, PartTree(x), PartTree(y), a, b, PartCost(x), PartCost(y));
    }
  }

  /** The labeller finds it: the cost is below 32767, and so is that of the arguments of a call, although the call's own cost
      leaves them out. */
  predicate Found(r: Root) {
    RootCost(r).Some? && RootCost(r).value < INFINITY && (r.Called? ==> ArgsCost(r.args) < INFINITY)
  }

  lemma BoundedIsFound(g: Grammar, r: Root, d: Derivation)
    requires BackEnd(g) && CountsBut(g, CALL) && ProperRoot(r) && Derives(g, d, RootTree(r), STMT_NT)
    ensures RootCost(r) == Some(Cost(d)) && (Bounded(d) <==> Found(r))
  {
    RootCovered(g, r);
    if r.Called? {
      BoundedCall(g, r, d);
    } else {
      RootWithoutCalls(r);
      CheapIsBounded(g, d, RootTree(r), STMT_NT, CALL);
    }
  }

  lemma BoundedCall(g: Grammar, r: Root, d: Derivation)
    requires BackEnd(g) && CountsBut(g, CALL) && r.Called? && ProperRoot(r) && Derives(g, d, RootTree(r), STMT_NT)
    ensures Bounded(d) <==> Cost(d) < INFINITY && ArgsCost(r.args) < INFINITY
  {
    var e := CallBelow(g, d, RootTree(r));
    RuleForNode(g, e, RootTree(r), REG_NT);
    var c, e1, e2 := CallUsed(g, e, PartTree(r.callee), ArgsTree(r.args));
    ArgsCovered(g, r.args);
    PartWithoutCalls(r.callee);
    ArgsWithoutCalls(r.args);
    CheapIsBounded(g, e1, PartTree(r.callee), c, CALL);
    CheapIsBounded(g, e2, ArgsTree(r.args), CALL_ARGS_NT, CALL);
    var ms := [Leaf(e1), Leaf(e2)];
    assert e.how.kids == ms;
    assert BoundedMatch(ms[0]) == Bounded(e1) && BoundedMatch(ms[1]) == Bounded(e2);
    assert Bounded(e) <==> Cost(e) < INFINITY && Bounded(e1) && Bounded(e2);
    assert BoundedMatch(d.how) == Bounded(e);
  }

  lemma RootDerivable(g: Grammar, r: Root)
    requires BackEnd(g) && CountsBut(g, CALL) && ProperRoot(r)
    ensures Derivable(g, RootTree(r), STMT_NT) <==> Found(r)
  {
    RootCovered(g, r);
    if Found(r) {
      var d :| Derives(g, d, RootTree(r), STMT_NT) && Cost(d) == RootCost(r).value;
      BoundedIsFound(g, r, d);
    }
    if Derivable(g, RootTree(r), STMT_NT) {
      var d :| Derives(g, d, RootTree(r), STMT_NT) && Bounded(d);
      BoundedIsFound(g, r, d);
    }
  }

  lemma RootLabelled(g: Grammar, l: Labelled, r: Root)
    requires BackEnd(g) && CountsBut(g, CALL) && Good(g, l) && l.tree == RootTree(r) && ProperRoot(r)
    ensures RuleOf(l, STMT_NT).Some? <==> Found(r)
    ensures Found(r) ==> CostOf(l, STMT_NT) == RootCost(r).value
  {
    RootDerivable(g, r);
    assert BestFor(g, l, STMT_NT);
    RecordedIffDerivable(g, l, STMT_NT);
    if Found(r) {
      var d :| Records(g, l, STMT_NT, d);
      BoundedIsFound(g, r, d);
    }
  }

  /** `gen` on the trees that the tree builder makes: a statement is covered if and only if it has a cost below the bound, and
      its label says that cost. */
  method GenRoot(r: Root) returns (l: Labelled, covered: bool)
    requires ProperRoot(r)
    ensures covered <==> Found(r)
    ensures covered ==> CostOf(l, STMT_NT) == RootCost(r).value
  {
    l, covered := Gen(RootTree(r));
    AsmFacts();
    AsmIsBackEnd();
    RootDerivable(ASM, r);
    RootLabelled(ASM, l, r);
  }

  // ---------------------------------------------------------------------------------------------
  // What selection is about
  // ---------------------------------------------------------------------------------------------

  function RootOf(i: SL.Item): Root {
    match i
    case Compute(t) => Alone(Val(t))
    case Locate(p) => Alone(Plc(p))
    case Store(from, to) => Store(match from case Computed(t) => Val(t) case AddressOf(p) => Plc(p), Plc(to))
  }

  lemma {:induction false} SelectableIsProper(t: S.Tree)
    requires t.Imm? || S.Selectable(t)
    ensures Proper(t)
    decreases t
  {
    match t
    case Imm(_) =>
    case Load(_, p) => SelectablePlaceIsProper(p);
    case Binary(_, _, l, r) =>
      SelectableIsProper(l);
      SelectableIsProper(r);
  }

  lemma {:induction false} SelectablePlaceIsProper(p: S.Place)
    requires S.SelectablePlace(p)
    ensures ProperPlace(p)
    decreases p
  {
    match p
    case Object(_) =>
    case At(t) => SelectableIsProper(t);
    case Element(b, i, _) =>
      SelectablePlaceIsProper(b);
      SelectableIsProper(i);
  }

  /** The instructions that selection has code for are those that the grammar covers: values and stores, but no address
      through a pointer in a register, and no place on its own. */
  lemma SelectedIsCovered(i: SL.Item)
    requires match i
             case Compute(t) => S.Selectable(t)
             case Locate(p) => S.SelectablePlace(p)
             case Store(from, to) => SL.SelectableSource(from) && S.SelectablePlace(to)
    ensures ProperRoot(RootOf(i))
    ensures RootCost(RootOf(i)).Some? <==> if i.Locate? then i.place.At? else SL.SelectableItem(i)
  {
    match i
    case Compute(t) => SelectableIsProper(t);
    case Locate(p) => SelectablePlaceIsProper(p);
    case Store(from, to) =>
      SelectablePlaceIsProper(to);
      match from {
        case Computed(t) => SelectableIsProper(t);
        case AddressOf(p) => SelectablePlaceIsProper(p);
      }
  }
}
