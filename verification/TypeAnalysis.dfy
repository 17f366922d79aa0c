/** Unification and the solving loop (src/semantic/TypeAnalysis.cpp). */
module TypeAnalysis {
  import opened Types
  import opened Partitions
  import opened UnionFinds

  datatype Constraint = Constraint(lhs: Type, rhs: Type)

  function SidesOf(cs: seq<Constraint>): set<Type> {
    if cs == [] then {} else Subterms(cs[0].lhs) + Subterms(cs[0].rhs) + SidesOf(cs[1..])
  }

  /** `e` satisfies every constraint and gives equal components to equal types. */
  ghost predicate Solution(e: Partition, cs: seq<Constraint>) {
    Solved(e, SidesOf(cs)) && Satisfies(e, cs)
  }

  lemma {:induction false} SidesClosed(cs: seq<Constraint>)
    ensures Closed(SidesOf(cs))
    ensures forall c :: c in cs ==> c.lhs in SidesOf(cs) && c.rhs in SidesOf(cs)
  {
    if cs != [] {
      SubtermsClosed(cs[0].lhs);
      SubtermsClosed(cs[0].rhs);
      SidesClosed(cs[1..]);
      forall c | c in cs ensures c.lhs in SidesOf(cs) && c.rhs in SidesOf(cs) {
        assert c == cs[0] || c in cs[1..];
      }
    }
  }

  // ------------------------------------------------------------------------- one call of unify

  /** What unification relies on: representatives of `u` lie in `u` and are proper where they can be. */
  ghost predicate Sound(m: Partition, u: set<Type>) {
    ProperReps(m) && Idempotent(m) && forall t :: t in u ==> RepOf(m, t) in u
  }

  /** Classes have only been joined. */
  ghost predicate Grown(m: Partition, m': Partition, u: set<Type>) {
    Coarser(m, m') && Classes(m', u) <= Classes(m, u)
  }

  /** Representatives for which `unify` returns true: what is below them is not looked at. */
  predicate Compatible(r1: Type, r2: Type) {
    r1 == r2 || !Proper(r1) || !Proper(r2) ||
    (SameShape(r1, r2) && (r1.ArrayType? && r2.ArrayType? ==> r1.numElements == r2.numElements))
  }

  /** What a call that returned false has met: two shapes, or two array lengths. */
  ghost predicate Clash(m: Partition, a: Type, b: Type, u: set<Type>) {
    Mismatch(m, a, b, u) || (Same(m, a, b) && LengthsMeet(m, u))
  }

  lemma MergeKeepsSound(m: Partition, m': Partition, r1: Type, r2: Type, u: set<Type>)
    requires Sound(m, u) && Merged(m, m', r1, r2) && r2 in u && RepOf(m, r2) == r2
    requires Proper(r1) ==> Proper(r2)
    ensures Sound(m', u)
  {
  }

  /** A congruent partition keeps up with unifying the components of two types it has put together. */
  ghost predicate Follows(m: Partition, m': Partition, u: set<Type>) {
    forall e :: Congruent(e, u) && Coarser(m, e) ==> Coarser(m', e)
  }

  lemma PartIsForced(m: Partition, m1: Partition, m2: Partition, r1: Type, r2: Type, k: nat, u: set<Type>)
    requires r1 in u && r2 in u && Proper(r1) && Proper(r2) && Same(m, r1, r2) && SameShape(r1, r2) && k < |Parts(r1)|
    requires Follows(m, m1, u) && Forced(m1, m2, Parts(r1)[k], Parts(r2)[k], u)
    ensures Follows(m, m2, u)
  {
    forall e | Congruent(e, u) && Coarser(m, e) ensures Coarser(m2, e) {
      assert Same(e, r1, r2);
      assert Agree(e, r1, r2);
      assert Same(e, Parts(r1)[k], Parts(r2)[k]);
    }
  }

  lemma FollowedIsForced(m: Partition, m1: Partition, m2: Partition, a: Type, b: Type, u: set<Type>)
    requires Forced(m, m1, a, b, u) && Follows(m1, m2, u)
    ensures Forced(m, m2, a, b, u)
  {
  }

  lemma SameStays(m: Partition, m': Partition, a: Type, b: Type)
    requires Coarser(m, m') && Same(m, a, b)
    ensures Same(m', a, b)
  {
  }

  /** The first `k` components have met. */
  ghost predicate MetUpTo(m: Partition, r1: Type, r2: Type, k: nat, u: set<Type>)
    requires |Parts(r1)| == |Parts(r2)|
  {
    forall j :: 0 <= j < k && j < |Parts(r1)| ==> Met(m, Parts(r1)[j], Parts(r2)[j], u)
  }

  lemma NextMet(m: Partition, m': Partition, r1: Type, r2: Type, k: nat, u: set<Type>)
    requires k < |Parts(r1)| == |Parts(r2)| && MetUpTo(m, r1, r2, k, u) && Coarser(m, m')
    requires Met(m', Parts(r1)[k], Parts(r2)[k], u)
    ensures MetUpTo(m', r1, r2, k + 1, u)
  {
    forall j | 0 <= j < k + 1 && j < |Parts(r1)| ensures Met(m', Parts(r1)[j], Parts(r2)[j], u) {
      if j < k {
        MetStays(m, m', Parts(r1)[j], Parts(r2)[j], u);
      }
    }
  }

  lemma GrownTrans(m: Partition, n: Partition, p: Partition, u: set<Type>)
    requires Grown(m, n, u) && Grown(n, p, u)
    ensures Grown(m, p, u)
  {
    CoarserTrans(m, n, p);
  }

  lemma CarriesOn(m: Partition, n: Partition, p: Partition, u: set<Type>)
    requires Carries(m, n, n, u) && Carries(n, p, p, u) && Coarser(n, p)
    ensures Carries(m, p, p, u)
  {
    CarriesLater(m, n, n, p, u);
    CarriesTrans(m, n, p, p, u);
  }

  lemma SameIsAllowed(m: Partition, u: set<Type>)
    ensures Carries(m, m, m, u) && Follows(m, m, u) && Grown(m, m, u)
  {
  }

  class Analysis {
    const uf: UnionFind

    ghost predicate Valid(u: set<Type>)
      reads this, uf
    {
      uf.Valid() && Sound(uf.rep, u)
    }

    constructor ()
      ensures forall u :: Valid(u)
      ensures fresh(uf) && uf.rep == map[]
    {
      uf := new UnionFind();
    }

    /** `u` is any finite closed set that holds the types: it bounds the recursion, since every nested
        call follows a merge and so meets fewer classes of `u`, cyclic types included. */
    method Unify(t1: Type, t2: Type, ghost u: set<Type>) returns (ok: bool)
      requires Valid(u) && Closed(u) && t1 in u && t2 in u
      modifies this, uf
      ensures Valid(u) && Grown(old(uf.rep), uf.rep, u)
      ensures ok == Compatible(RepOf(old(uf.rep), t1), RepOf(old(uf.rep), t2))
      ensures if ok then Same(uf.rep, t1, t2) else Clash(uf.rep, t1, t2, u)
      ensures Carries(old(uf.rep), uf.rep, uf.rep, u)
      ensures Forced(old(uf.rep), uf.rep, t1, t2, u)
      decreases Classes(uf.rep, u), 0
    {
      var r1 := uf.Find(t1);
      var r2 := uf.Find(t2);
      ghost var m := uf.rep;
      SameIsAllowed(m, u);
      if r1 == r2 {
        return true;
      }
      if r1.VarType? {
        uf.UnionTypes(r1, r2);
        MergeVariable(m, uf.rep, r1, r2, u);
        MergeIsForced(m, uf.rep, r1, r2, t1, t2, u);
        MergeKeepsSound(m, uf.rep, r1, r2, u);
        MergeShrinks(m, uf.rep, r1, r2, u);
      } else if r2.VarType? {
        uf.UnionTypes(r2, r1);
        MergeVariable(m, uf.rep, r2, r1, u);
        MergeIsForced(m, uf.rep, r2, r1, t2, t1, u);
        ForcedEitherWay(m, uf.rep, t1, t2, u);
        MergeKeepsSound(m, uf.rep, r2, r1, u);
        MergeShrinks(m, uf.rep, r2, r1, u);
      } else if SameShape(r1, r2) {
        uf.UnionTypes(r1, r2);
        ghost var m1 := uf.rep;
        MergeIsForced(m, m1, r1, r2, t1, t2, u);
        MergeKeepsSound(m, m1, r1, r2, u);
        MergeShrinks(m, m1, r1, r2, u);
        if r1.ArrayType? && r2.ArrayType? && r1.numElements != r2.numElements {
          LengthsClash(m, m1, r1, r2, t1, t2, u);
          return false;
        }
        UnifyParts(r1, r2, u);
        GrownTrans(m, m1, uf.rep, u);
        FollowedIsForced(m, m1, uf.rep, t1, t2, u);
        SameStays(m1, uf.rep, r1, r2);
        MergeProper(m, m1, r1, r2, uf.rep, u);
        CarriesTrans(m, m1, uf.rep, uf.rep, u);
        SameStays(m1, uf.rep, t1, t2);
      } else {
        return false;
      }
      return true;
    }

    /** The nested calls for two types that have just been put together: their results are dropped. */
    method UnifyParts(r1: Type, r2: Type, ghost u: set<Type>)
      requires Valid(u) && Closed(u) && r1 in u && r2 in u && Proper(r1) && Proper(r2)
      requires SameShape(r1, r2) && Same(uf.rep, r1, r2)
      modifies this, uf
      ensures Valid(u) && Grown(old(uf.rep), uf.rep, u)
      ensures Carries(old(uf.rep), uf.rep, uf.rep, u) && PartsMet(uf.rep, r1, r2, u)
      ensures Follows(old(uf.rep), uf.rep, u)
      decreases Classes(uf.rep, u), 1
    {
      var ps, qs := Parts(r1), Parts(r2);
      ghost var m := uf.rep;
      SameIsAllowed(m, u);
      for i := 0 to |ps|
        invariant Valid(u) && Grown(m, uf.rep, u)
        invariant Carries(m, uf.rep, uf.rep, u) && MetUpTo(uf.rep, r1, r2, i, u)
        invariant Follows(m, uf.rep, u)
      {
        ghost var m1 := uf.rep;
        var ok := Unify(ps[i], qs[i], u);
        GrownTrans(m, m1, uf.rep, u);
        PartIsForced(m, m1, uf.rep, r1, r2, i, u);
        CarriesOn(m, m1, uf.rep, u);
        NextMet(m1, uf.rep, r1, r2, i, u);
      }
    }

    /** The constraints in order, up to the first one that fails. What stands at the end hangs together by components,
        and it is contained in every congruent partition that satisfies the constraints. */
    method Solve(cs: seq<Constraint>) returns (ok: bool)
      requires Valid(SidesOf(cs)) && uf.rep == map[]
      modifies this, uf
      ensures uf.Valid()
      ensures LinkedUpTo(uf.rep, uf.rep, SidesOf(cs)) && Least(uf.rep, cs)
      ensures if ok then Satisfies(uf.rep, cs) else TurnedDown(uf.rep, cs)
    {
      ghost var u := SidesOf(cs);
      SidesClosed(cs);
      NothingSolved(u, cs);
      for i := 0 to |cs|
        invariant Valid(u)
        invariant LinkedUpTo(uf.rep, uf.rep, u) && Least(uf.rep, cs)
        invariant Holding(uf.rep, cs, i)
      {
        ghost var m := uf.rep;
        assert cs[i] in cs;
        ok := Unify(cs[i].lhs, cs[i].rhs, u);
        LeastStep(m, uf.rep, cs, i);
        LinkedStays(m, m, uf.rep, u);
        if !ok {
          return;
        }
        HoldingStep(m, uf.rep, cs, i);
      }
      return true;
    }
  }

  lemma LengthsClash(m: Partition, m1: Partition, r1: Type, r2: Type, a: Type, b: Type, u: set<Type>)
    requires Merged(m, m1, r1, r2) && RepOf(m, r1) == r1 && RepOf(m, r2) == r2 && RepOf(m, a) == r1 && RepOf(m, b) == r2
    requires r1 in u && r2 in u && LengthsDiffer(r1, r2)
    ensures Clash(m1, a, b, u) && Carries(m, m1, m1, u)
  {
    MergeProper(m, m1, r1, r2, m1, u);
  }

  /** Every congruent partition that satisfies the constraints contains `m`. */
  ghost predicate Least(m: Partition, cs: seq<Constraint>) {
    forall e :: Congruent(e, SidesOf(cs)) && Satisfies(e, cs) ==> Coarser(m, e)
  }

  /** The two sides of some constraint clash. */
  ghost predicate TurnedDown(m: Partition, cs: seq<Constraint>) {
    exists c :: c in cs && Clash(m, c.lhs, c.rhs, SidesOf(cs))
  }

  ghost predicate Satisfies(e: Partition, cs: seq<Constraint>) {
    forall c :: c in cs ==> Same(e, c.lhs, c.rhs)
  }

  ghost predicate Holding(m: Partition, cs: seq<Constraint>, i: nat) {
    forall j :: 0 <= j < i && j < |cs| ==> Same(m, cs[j].lhs, cs[j].rhs)
  }

  lemma HoldingStep(m: Partition, m': Partition, cs: seq<Constraint>, i: nat)
    requires i < |cs| && Holding(m, cs, i) && Coarser(m, m') && Same(m', cs[i].lhs, cs[i].rhs)
    ensures Holding(m', cs, i + 1)
  {
    forall j | 0 <= j < i + 1 && j < |cs| ensures Same(m', cs[j].lhs, cs[j].rhs) {
      if j < i {
        SameStays(m, m', cs[j].lhs, cs[j].rhs);
      }
    }
  }

  lemma NothingSolved(u: set<Type>, cs: seq<Constraint>)
    ensures LinkedUpTo(map[], map[], u) && Least(map[], cs)
  {
  }

  lemma LeastStep(m: Partition, m': Partition, cs: seq<Constraint>, i: nat)
    requires i < |cs| && Least(m, cs) && Forced(m, m', cs[i].lhs, cs[i].rhs, SidesOf(cs))
    ensures Least(m', cs)
  {
    forall e | Congruent(e, SidesOf(cs)) && Satisfies(e, cs) ensures Coarser(m', e) {
      assert cs[i] in cs;
    }
  }

  // ------------------------------------------------------------------------- what the answer means

  /** What `Solve` promises of its answer and the final partition. */
  ghost predicate Answer(m: Partition, cs: seq<Constraint>, ok: bool) {
    && LinkedUpTo(m, m, SidesOf(cs)) && Least(m, cs)
    && if ok then Satisfies(m, cs) else TurnedDown(m, cs)
  }

  lemma SolutionContains(m: Partition, cs: seq<Constraint>, e: Partition)
    requires Least(m, cs) && Solution(e, cs)
    ensures Coarser(m, e)
  {
    SolvedIsCongruent(e, SidesOf(cs));
  }

  /** Where two shapes have met below the top there is no solution. */
  lemma StuckHasNoSolution(m: Partition, cs: seq<Constraint>, e: Partition)
    requires Least(m, cs) && Stuck(m, SidesOf(cs))
    ensures !Solution(e, cs)
  {
    if Solution(e, cs) {
      SolutionContains(m, cs, e);
      StuckStays(m, e, SidesOf(cs));
      StuckIsUnsolved(e, SidesOf(cs));
    }
  }

  lemma MismatchHasNoSolution(m: Partition, cs: seq<Constraint>, c: Constraint, e: Partition)
    requires Least(m, cs) && c in cs && Mismatch(m, c.lhs, c.rhs, SidesOf(cs))
    ensures !Solution(e, cs)
  {
    if Solution(e, cs) {
      SolutionContains(m, cs, e);
      MismatchStays(m, e, c.lhs, c.rhs, SidesOf(cs));
      MismatchIsUnsolvable(e, c.lhs, c.rhs, SidesOf(cs));
    }
  }

  /** Unless arrays of different lengths are in one class: the constraints have a solution if and only if they are accepted
      and no shapes have met below the top, and then the final partition is the least one. */
  lemma AnswerIsRight(m: Partition, cs: seq<Constraint>, ok: bool)
    requires Answer(m, cs, ok) && !LengthsMeet(m, SidesOf(cs))
    ensures (exists e :: Solution(e, cs)) <==> ok && !Stuck(m, SidesOf(cs))
    ensures Solution(m, cs) <==> ok && !Stuck(m, SidesOf(cs))
  {
    var u := SidesOf(cs);
    if !ok {
      var c :| c in cs && Clash(m, c.lhs, c.rhs, u);
      forall e ensures !Solution(e, cs) {
        MismatchHasNoSolution(m, cs, c, e);
      }
    } else if Stuck(m, u) {
      forall e ensures !Solution(e, cs) {
        StuckHasNoSolution(m, cs, e);
      }
    } else {
      LinkedIsSolved(m, u);
      assert Solution(m, cs);
    }
  }

  /** Constraints without arrays of different lengths are accepted if and only if the two sides of each end in one class;
      they are turned down for shapes only. */
  lemma AcceptedIffTogether(m: Partition, cs: seq<Constraint>, ok: bool)
    requires Answer(m, cs, ok) && !LengthsMeet(m, SidesOf(cs))
    ensures ok <==> Satisfies(m, cs)
    ensures ok <==> forall c :: c in cs ==> !Mismatch(m, c.lhs, c.rhs, SidesOf(cs))
  {
    var u := SidesOf(cs);
    forall c | c in cs && Mismatch(m, c.lhs, c.rhs, u) ensures !Same(m, c.lhs, c.rhs) {
      MismatchIsApart(m, c.lhs, c.rhs, u);
    }
    if !ok {
      var c :| c in cs && Clash(m, c.lhs, c.rhs, u);
      assert Mismatch(m, c.lhs, c.rhs, u);
    }
  }

  lemma MismatchIsApart(m: Partition, a: Type, b: Type, u: set<Type>)
    requires LinkedUpTo(m, m, u) && Mismatch(m, a, b, u)
    ensures !Same(m, a, b)
  {
    var p, q :| p in u && q in u && Proper(p) && Proper(q) && Same(m, p, a) && Same(m, q, b) && !SameShape(p, q);
    if Same(m, a, b) {
      LinkedSameShape(m, u, p, q);
    }
  }

  /** No two array types of the constraints have different lengths. */
  predicate OneLength(cs: seq<Constraint>) {
    forall x, y :: x in SidesOf(cs) && y in SidesOf(cs) ==> !LengthsDiffer(x, y)
  }

  /** A condition on the constraints alone: then the answer is right but for shapes that have met below the top. */
  lemma OneLengthIsRight(m: Partition, cs: seq<Constraint>, ok: bool)
    requires Answer(m, cs, ok) && OneLength(cs)
    ensures (exists e :: Solution(e, cs)) <==> ok && !Stuck(m, SidesOf(cs))
    ensures ok <==> Satisfies(m, cs)
  {
    AnswerIsRight(m, cs, ok);
    AcceptedIffTogether(m, cs, ok);
  }

  // ------------------------------------------------------------------------- ground assignments

  /** A type under an assignment of the type variables, with arrays decayed to pointers. */
  function Value(sigma: nat -> Type, t: Type): Type {
    match t
    case VarType(n) => sigma(n)
    case IntType => IntType
    case PointerType(p) => PointerType(Value(sigma, p))
    case ArrayType(e, _) => PointerType(Value(sigma, e))
    case FunctionType(ps, r) => FunctionType(Values(sigma, ps), Value(sigma, r))
  }

  function Values(sigma: nat -> Type, ts: seq<Type>): (vs: seq<Type>)
    ensures |vs| == |ts| && forall k :: 0 <= k < |ts| ==> vs[k] == Value(sigma, ts[k])
  {
    if ts == [] then [] else [Value(sigma, ts[0])] + Values(sigma, ts[1..])
  }

  ghost predicate SatisfiedBy(sigma: nat -> Type, cs: seq<Constraint>) {
    forall c :: c in cs ==> Value(sigma, c.lhs) == Value(sigma, c.rhs)
  }

  /** The types of `u` sorted by their values. */
  ghost function ByValue(sigma: nat -> Type, u: set<Type>): Partition { map t | t in u :: Value(sigma, t) }

  lemma EqualValuesAgree(sigma: nat -> Type, u: set<Type>, a: Type, b: Type)
    requires Closed(u) && a in u && b in u && Proper(a) && Proper(b) && Value(sigma, a) == Value(sigma, b)
    ensures Agree(ByValue(sigma, u), a, b)
  {
    if a.FunctionType? {
      var vs, ws := Values(sigma, a.params), Values(sigma, b.params);
      assert |vs| == |ws|;
      forall k | 0 <= k < |Parts(a)| ensures Same(ByValue(sigma, u), Parts(a)[k], Parts(b)[k]) {
        assert Parts(a)[k] in u && Parts(b)[k] in u;
        if k < |vs| {
          assert vs[k] == Value(sigma, Parts(a)[k]) && ws[k] == Value(sigma, Parts(b)[k]);
        }
      }
    } else {
      assert |Parts(a)| > 0 ==> Parts(a)[0] in u && Parts(b)[0] in u;
    }
  }

  lemma AssignmentIsSolution(sigma: nat -> Type, cs: seq<Constraint>)
    requires SatisfiedBy(sigma, cs)
    ensures Solution(ByValue(sigma, SidesOf(cs)), cs)
  {
    var u := SidesOf(cs);
    var e := ByValue(sigma, u);
    SidesClosed(cs);
    forall a, b | a in u && b in u && Proper(a) && Proper(b) && Same(e, a, b) ensures Agree(e, a, b) {
      EqualValuesAgree(sigma, u, a, b);
    }
  }

  /** Every satisfying assignment makes equal what the final partition puts together. */
  lemma ClassesHaveOneValue(m: Partition, cs: seq<Constraint>, sigma: nat -> Type, a: Type, b: Type)
    requires Least(m, cs) && SatisfiedBy(sigma, cs) && a in SidesOf(cs) && b in SidesOf(cs) && Same(m, a, b)
    ensures Value(sigma, a) == Value(sigma, b)
  {
    AssignmentIsSolution(sigma, cs);
    SolutionContains(m, cs, ByValue(sigma, SidesOf(cs)));
    assert Same(ByValue(sigma, SidesOf(cs)), a, b);
  }

  /** Constraints that some assignment satisfies are turned down for array lengths only, and unless lengths have met the
      final partition is a solution. */
  method SolveSatisfiable(analysis: Analysis, cs: seq<Constraint>, ghost sigma: nat -> Type) returns (ok: bool)
    requires analysis.Valid(SidesOf(cs)) && analysis.uf.rep == map[] && SatisfiedBy(sigma, cs)
    modifies analysis, analysis.uf
    ensures !LengthsMeet(analysis.uf.rep, SidesOf(cs)) ==> ok && Solution(analysis.uf.rep, cs)
    ensures forall a, b :: a in SidesOf(cs) && b in SidesOf(cs) && Same(analysis.uf.rep, a, b) ==>
              Value(sigma, a) == Value(sigma, b)
  {
    ok := analysis.Solve(cs);
    AssignmentIsSolution(sigma, cs);
    if !LengthsMeet(analysis.uf.rep, SidesOf(cs)) {
      AnswerIsRight(analysis.uf.rep, cs, ok);
    }
    forall a, b | a in SidesOf(cs) && b in SidesOf(cs) && Same(analysis.uf.rep, a, b)
      ensures Value(sigma, a) == Value(sigma, b)
    {
      ClassesHaveOneValue(analysis.uf.rep, cs, sigma, a, b);
    }
  }

  const NESTED_CLASH: Constraint := Constraint(PointerType(IntType), PointerType(FunctionType([], IntType)))

  /** `true` does not mean solvable: the clash below the pointers is met, and its result dropped. */
  method NestedClashIsDropped() returns (ok: bool)
    ensures ok
    ensures forall e :: !Solution(e, [NESTED_CLASH])
  {
    var analysis := new Analysis();
    ghost var u := SidesOf([NESTED_CLASH]);
    SidesClosed([NESTED_CLASH]);
    assert NESTED_CLASH in [NESTED_CLASH];
    ok := analysis.Unify(NESTED_CLASH.lhs, NESTED_CLASH.rhs, u);
    ghost var a, b := Parts(NESTED_CLASH.lhs)[0], Parts(NESTED_CLASH.rhs)[0];
    assert a in u && b in u && !SameShape(a, b);
    forall e ensures !Solution(e, [NESTED_CLASH]) {
      assert Solution(e, [NESTED_CLASH]) ==> Agree(e, NESTED_CLASH.lhs, NESTED_CLASH.rhs);
    }
  }
}
