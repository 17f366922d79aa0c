/** Partitions of the types, given by representatives: a type that is not in the map stands for
    itself. */
module Partitions {
  import opened Types

  type Partition = map<Type, Type>

  function RepOf(m: Partition, t: Type): Type { if t in m then m[t] else t }

  predicate Same(m: Partition, a: Type, b: Type) { RepOf(m, a) == RepOf(m, b) }

  /** Every class of `m` lies in one class of `e`. */
  ghost predicate Coarser(m: Partition, e: Partition) {
    forall a, b :: Same(m, a, b) ==> Same(e, a, b)
  }

  ghost predicate Idempotent(m: Partition) {
    forall t :: RepOf(m, RepOf(m, t)) == RepOf(m, t)
  }

  /** Two types agree up to `e`: one shape, and components that `e` puts together. */
  predicate Agree(e: Partition, a: Type, b: Type) {
    SameShape(a, b) && forall k :: 0 <= k < |Parts(a)| ==> Same(e, Parts(a)[k], Parts(b)[k])
  }

  predicate Proper(t: Type) { !t.VarType? }

  /** The solved form: proper types of one class agree. */
  ghost predicate Solved(m: Partition, u: set<Type>) {
    forall a, b :: a in u && b in u && Proper(a) && Proper(b) && Same(m, a, b) ==> Agree(m, a, b)
  }

  /** `m'` is `m` with the class of `r1` joined to that of `r2`. */
  ghost predicate Merged(m: Partition, m': Partition, r1: Type, r2: Type) {
    forall t :: RepOf(m', t) == if RepOf(m, t) == r1 then r2 else RepOf(m, t)
  }

  lemma CoarserTrans(m: Partition, n: Partition, e: Partition)
    requires Coarser(m, n) && Coarser(n, e)
    ensures Coarser(m, e)
  {
  }

  // ------------------------------------------------------------------------- clashes

  /** `a` and `b` have proper types of different shapes in their classes. */
  ghost predicate Mismatch(m: Partition, a: Type, b: Type, u: set<Type>) {
    exists p, q :: p in u && q in u && Proper(p) && Proper(q) && Same(m, p, a) && Same(m, q, b) && !SameShape(p, q)
  }

  /** Two proper types of one class have components that mismatch. */
  ghost predicate Stuck(m: Partition, u: set<Type>) {
    exists a, b, k :: a in u && b in u && Proper(a) && Proper(b) && Same(m, a, b) && SameShape(a, b)
      && 0 <= k < |Parts(a)| && Mismatch(m, Parts(a)[k], Parts(b)[k], u)
  }

  lemma MismatchStays(m: Partition, e: Partition, a: Type, b: Type, u: set<Type>)
    requires Mismatch(m, a, b, u) && Coarser(m, e)
    ensures Mismatch(e, a, b, u)
  {
    var p, q :| p in u && q in u && Proper(p) && Proper(q) && Same(m, p, a) && Same(m, q, b) && !SameShape(p, q);
    assert Same(e, p, a) && Same(e, q, b);
  }

  lemma StuckStays(m: Partition, e: Partition, u: set<Type>)
    requires Stuck(m, u) && Coarser(m, e)
    ensures Stuck(e, u)
  {
    var a, b, k :| a in u && b in u && Proper(a) && Proper(b) && Same(m, a, b) && SameShape(a, b)
      && 0 <= k < |Parts(a)| && Mismatch(m, Parts(a)[k], Parts(b)[k], u);
    MismatchStays(m, e, Parts(a)[k], Parts(b)[k], u);
    assert Same(e, a, b);
  }

  lemma MismatchIsUnsolvable(e: Partition, a: Type, b: Type, u: set<Type>)
    requires Mismatch(e, a, b, u) && Solved(e, u)
    ensures !Same(e, a, b)
  {
    var p, q :| p in u && q in u && Proper(p) && Proper(q) && Same(e, p, a) && Same(e, q, b) && !SameShape(p, q);
    assert Same(e, a, b) ==> Same(e, p, q);
  }

  lemma StuckIsUnsolved(e: Partition, u: set<Type>)
    requires Stuck(e, u)
    ensures !Solved(e, u)
  {
    if Solved(e, u) {
      var a, b, k :| a in u && b in u && Proper(a) && Proper(b) && Same(e, a, b) && SameShape(a, b)
        && 0 <= k < |Parts(a)| && Mismatch(e, Parts(a)[k], Parts(b)[k], u);
      assert Agree(e, a, b);
      MismatchIsUnsolvable(e, Parts(a)[k], Parts(b)[k], u);
    }
  }

  // ------------------------------------------------------------------------- what classes hang together by

  predicate LengthsDiffer(x: Type, y: Type) { x.ArrayType? && y.ArrayType? && x.numElements != y.numElements }

  /** Arrays of different lengths in one class. */
  ghost predicate LengthsMeet(m: Partition, u: set<Type>) {
    exists x, y :: x in u && y in u && LengthsDiffer(x, y) && Same(m, x, y)
  }

  /** Put together, or of different shapes. */
  ghost predicate Met(m: Partition, a: Type, b: Type, u: set<Type>) { Same(m, a, b) || Mismatch(m, a, b, u) }

  ghost predicate PartsMet(m: Partition, x: Type, y: Type, u: set<Type>)
    requires |Parts(x)| == |Parts(y)|
  {
    forall k :: 0 <= k < |Parts(x)| ==> Met(m, Parts(x)[k], Parts(y)[k], u)
  }

  /** Two types of one class and one shape whose components have met, unless they are arrays of different lengths. */
  ghost predicate Near(e: Partition, u: set<Type>, x: Type, y: Type) {
    Same(e, x, y) && SameShape(x, y) && (LengthsDiffer(x, y) || PartsMet(e, x, y, u))
  }

  /** A partition that puts near types together. */
  ghost predicate Joins(c: Partition, e: Partition, u: set<Type>) {
    forall x, y :: x in u && y in u && Near(e, u, x, y) ==> Same(c, x, y)
  }

  /** Near types lead from `a` to `b`: whatever puts them together puts `a` and `b` together. */
  ghost predicate Linked(e: Partition, u: set<Type>, a: Type, b: Type) { forall c :: Joins(c, e, u) ==> Same(c, a, b) }

  /** Proper types of one class of `m` are linked in `e`. With `e == m`, nothing but what `unify` does has joined them. */
  ghost predicate LinkedUpTo(m: Partition, e: Partition, u: set<Type>) {
    forall a, b :: a in u && b in u && Proper(a) && Proper(b) && Same(m, a, b) ==> Linked(e, u, a, b)
  }

  /** What is linked up to anything coarser than `later` stays so on the way from `m` to `m'`. */
  ghost predicate Carries(m: Partition, m': Partition, later: Partition, u: set<Type>) {
    forall e :: Coarser(later, e) && LinkedUpTo(m, e, u) ==> LinkedUpTo(m', e, u)
  }

  lemma MetStays(m: Partition, e: Partition, a: Type, b: Type, u: set<Type>)
    requires Met(m, a, b, u) && Coarser(m, e)
    ensures Met(e, a, b, u)
  {
    if !Same(m, a, b) {
      MismatchStays(m, e, a, b, u);
    }
  }

  lemma PartsMetStay(m: Partition, e: Partition, x: Type, y: Type, u: set<Type>)
    requires |Parts(x)| == |Parts(y)| && PartsMet(m, x, y, u) && Coarser(m, e)
    ensures PartsMet(e, x, y, u)
  {
    forall k | 0 <= k < |Parts(x)| ensures Met(e, Parts(x)[k], Parts(y)[k], u) {
      MetStays(m, e, Parts(x)[k], Parts(y)[k], u);
    }
  }

  lemma CarriesLater(m: Partition, m': Partition, sooner: Partition, later: Partition, u: set<Type>)
    requires Carries(m, m', sooner, u) && Coarser(sooner, later)
    ensures Carries(m, m', later, u)
  {
    forall e | Coarser(later, e) && LinkedUpTo(m, e, u) ensures LinkedUpTo(m', e, u) {
      CoarserTrans(sooner, later, e);
    }
  }

  lemma CarriesTrans(m: Partition, n: Partition, p: Partition, later: Partition, u: set<Type>)
    requires Carries(m, n, later, u) && Carries(n, p, later, u)
    ensures Carries(m, p, later, u)
  {
  }

  /** A representative is proper if its class has a proper type. */
  ghost predicate ProperReps(m: Partition) {
    forall t :: Proper(t) ==> Proper(RepOf(m, t))
  }

  /** Joining a class of type variables to another class. */
  lemma MergeVariable(m: Partition, m': Partition, r1: Type, r2: Type, u: set<Type>)
    requires Merged(m, m', r1, r2) && ProperReps(m) && !Proper(r1)
    ensures Carries(m, m', m', u) && ProperReps(m')
  {
    forall e | Coarser(m', e) && LinkedUpTo(m, e, u) ensures LinkedUpTo(m', e, u) {
      forall a, b | a in u && b in u && Proper(a) && Proper(b) && Same(m', a, b) ensures Linked(e, u, a, b) {
        assert Same(m, a, b);
      }
    }
  }

  /** Joining two classes of proper types that are near in `later`. */
  lemma MergeProper(m: Partition, m': Partition, r1: Type, r2: Type, later: Partition, u: set<Type>)
    requires Merged(m, m', r1, r2) && Proper(r1) && Proper(r2) && r1 in u && r2 in u
    requires RepOf(m, r1) == r1 && RepOf(m, r2) == r2 && Near(later, u, r1, r2)
    ensures Carries(m, m', later, u)
  {
    forall e | Coarser(later, e) && LinkedUpTo(m, e, u) ensures LinkedUpTo(m', e, u) {
      NearStays(later, e, u, r1, r2);
      forall a, b | a in u && b in u && Proper(a) && Proper(b) && Same(m', a, b) ensures Linked(e, u, a, b) {
        MergedLinked(m, r1, r2, e, u, a, b);
      }
    }
  }

  lemma NearStays(m: Partition, e: Partition, u: set<Type>, x: Type, y: Type)
    requires Near(m, u, x, y) && Coarser(m, e)
    ensures Near(e, u, x, y)
  {
    if !LengthsDiffer(x, y) {
      PartsMetStay(m, e, x, y, u);
    }
  }

  lemma LinkedStays(m: Partition, e: Partition, e': Partition, u: set<Type>)
    requires LinkedUpTo(m, e, u) && Coarser(e, e')
    ensures LinkedUpTo(m, e', u)
  {
    forall a, b | a in u && b in u && Proper(a) && Proper(b) && Same(m, a, b) ensures Linked(e', u, a, b) {
      assert Linked(e, u, a, b);
      forall c | Joins(c, e', u) ensures Same(c, a, b) {
        JoinsStays(c, e, e', u);
      }
    }
  }

  lemma JoinsStays(c: Partition, e: Partition, e': Partition, u: set<Type>)
    requires Joins(c, e', u) && Coarser(e, e')
    ensures Joins(c, e, u)
  {
    forall x, y | x in u && y in u && Near(e, u, x, y) ensures Same(c, x, y) {
      NearStays(e, e', u, x, y);
    }
  }

  lemma MergedLinked(m: Partition, r1: Type, r2: Type, e: Partition, u: set<Type>, a: Type, b: Type)
    requires LinkedUpTo(m, e, u) && Near(e, u, r1, r2) && Proper(r1) && Proper(r2) && r1 in u && r2 in u
    requires RepOf(m, r1) == r1 && RepOf(m, r2) == r2
    requires a in u && b in u && Proper(a) && Proper(b)
    requires Same(m, a, b) || (RepOf(m, a) == r1 && RepOf(m, b) == r2) || (RepOf(m, a) == r2 && RepOf(m, b) == r1)
    ensures Linked(e, u, a, b)
  {
    if !Same(m, a, b) {
      var p, q := if RepOf(m, a) == r1 then r1 else r2, if RepOf(m, a) == r1 then r2 else r1;
      assert Linked(e, u, a, p) && Linked(e, u, q, b);
      forall c | Joins(c, e, u) ensures Same(c, a, b) {
        assert Same(c, r1, r2);
      }
    }
  }

  // ------------------------------------------------------------------------- linked and solved

  /** What a type looks like up to `m`, as a type. */
  function Look(m: Partition, t: Type): Type {
    match t
    case VarType(_) => t
    case IntType => IntType
    case PointerType(p) => PointerType(RepOf(m, p))
    case ArrayType(e, _) => PointerType(RepOf(m, e))
    case FunctionType(ps, r) => FunctionType(RepsOf(m, ps), RepOf(m, r))
  }

  function RepsOf(m: Partition, ts: seq<Type>): (rs: seq<Type>)
    ensures |rs| == |ts| && forall k :: 0 <= k < |ts| ==> rs[k] == RepOf(m, ts[k])
  {
    if ts == [] then [] else [RepOf(m, ts[0])] + RepsOf(m, ts[1..])
  }

  lemma SameLookAgrees(m: Partition, a: Type, b: Type)
    requires Proper(a) && Proper(b)
    ensures Look(m, a) == Look(m, b) <==> Agree(m, a, b)
  {
    if a.FunctionType? && b.FunctionType? {
      var ps, qs := RepsOf(m, a.params), RepsOf(m, b.params);
      if Agree(m, a, b) {
        var n := |a.params|;
        assert Same(m, Parts(a)[n], Parts(b)[n]);
        forall k | 0 <= k < n ensures ps[k] == qs[k] {
          assert Same(m, Parts(a)[k], Parts(b)[k]);
        }
        assert ps == qs;
      }
    } else if Agree(m, a, b) && !a.IntType? {
      assert Same(m, Parts(a)[0], Parts(b)[0]);
    }
  }

  /** Classes that hang together by components are in solved form, unless two array lengths or two shapes have met. */
  lemma LinkedIsSolved(m: Partition, u: set<Type>)
    requires LinkedUpTo(m, m, u) && !LengthsMeet(m, u) && !Stuck(m, u)
    ensures Solved(m, u)
  {
    var c := map t | t in u :: Look(m, t);
    forall x, y | x in u && y in u && Near(m, u, x, y) ensures Same(c, x, y) {
      NearAgrees(m, u, x, y);
      SameLookAgrees(m, x, y);
    }
    assert Joins(c, m, u);
    forall a, b | a in u && b in u && Proper(a) && Proper(b) && Same(m, a, b) ensures Agree(m, a, b) {
      assert Linked(m, u, a, b) && Same(c, a, b);
      SameLookAgrees(m, a, b);
    }
  }

  lemma NearAgrees(m: Partition, u: set<Type>, x: Type, y: Type)
    requires Near(m, u, x, y) && x in u && y in u && !LengthsMeet(m, u) && !Stuck(m, u)
    ensures Agree(m, x, y)
  {
    forall k | 0 <= k < |Parts(x)| ensures Same(m, Parts(x)[k], Parts(y)[k]) {
      assert Met(m, Parts(x)[k], Parts(y)[k], u);
    }
  }

  /** Proper types of one class have one shape, whatever has been met. */
  lemma LinkedSameShape(m: Partition, u: set<Type>, a: Type, b: Type)
    requires LinkedUpTo(m, m, u) && a in u && b in u && Proper(a) && Proper(b) && Same(m, a, b)
    ensures SameShape(a, b)
  {
    var c := map t | t in u :: Shape(t);
    forall x, y | x in u && y in u && Near(m, u, x, y) ensures Same(c, x, y) {
      SameShapeIsShape(x, y);
    }
    assert Linked(m, u, a, b) && Joins(c, m, u) && Same(c, a, b);
    SameShapeIsShape(a, b);
  }

  function Ints(n: nat): (ts: seq<Type>)
    ensures |ts| == n
  {
    seq(n, _ => IntType)
  }

  /** The shape alone, as a type. */
  function Shape(t: Type): Type {
    match t
    case VarType(_) => t
    case IntType => IntType
    case FunctionType(ps, _) => FunctionType(Ints(|ps|), IntType)
    case _ => PointerType(IntType)
  }

  lemma SameShapeIsShape(x: Type, y: Type)
    requires Proper(x) && Proper(y)
    ensures SameShape(x, y) <==> Shape(x) == Shape(y)
  {
  }

  // ------------------------------------------------------------------------- what is forced

  /** Types of one class and one shape have their components put together. */
  ghost predicate Congruent(e: Partition, u: set<Type>) {
    forall a, b :: a in u && b in u && Proper(a) && Proper(b) && Same(e, a, b) && SameShape(a, b) ==> Agree(e, a, b)
  }

  lemma SolvedIsCongruent(e: Partition, u: set<Type>)
    requires Solved(e, u)
    ensures Congruent(e, u)
  {
  }

  /** A congruent partition with `a = b` that already puts together what `m` does puts together what `m'` does. Shapes
      that clash do not matter to it, so that there is always one. */
  ghost predicate Forced(m: Partition, m': Partition, a: Type, b: Type, u: set<Type>) {
    forall e :: Congruent(e, u) && Coarser(m, e) && Same(e, a, b) ==> Coarser(m', e)
  }

  lemma MergeIsForced(m: Partition, m': Partition, r1: Type, r2: Type, a: Type, b: Type, u: set<Type>)
    requires Merged(m, m', r1, r2) && RepOf(m, a) == r1 && RepOf(m, b) == r2 && Idempotent(m)
    ensures Forced(m, m', a, b, u)
  {
    forall e | Congruent(e, u) && Coarser(m, e) && Same(e, a, b) ensures Coarser(m', e) {
      assert Same(m, a, r1) && Same(m, b, r2);
      forall x, y | Same(m', x, y) ensures Same(e, x, y) {
        assert Same(m, x, RepOf(m, x)) && Same(m, y, RepOf(m, y));
      }
    }
  }

  lemma ForcedEitherWay(m: Partition, m': Partition, a: Type, b: Type, u: set<Type>)
    requires Forced(m, m', b, a, u)
    ensures Forced(m, m', a, b, u)
  {
    forall e | Congruent(e, u) && Coarser(m, e) && Same(e, a, b) ensures Coarser(m', e) {
      assert Same(e, b, a);
    }
  }

  // ------------------------------------------------------------------------- counting classes

  /** The number of classes that the types of `u` fall into. */
  ghost function Classes(m: Partition, u: set<Type>): nat { |Reps(m, u)| }

  ghost function Reps(m: Partition, u: set<Type>): set<Type> { set t | t in u :: RepOf(m, t) }

  lemma MergeShrinks(m: Partition, m': Partition, r1: Type, r2: Type, u: set<Type>)
    requires Merged(m, m', r1, r2) && r1 != r2 && r1 in u && r2 in u
    requires RepOf(m, r1) == r1 && RepOf(m, r2) == r2
    ensures Classes(m', u) < Classes(m, u)
  {
    assert Reps(m', u) == Reps(m, u) - {r1};
    assert r1 in Reps(m, u);
  }
}
