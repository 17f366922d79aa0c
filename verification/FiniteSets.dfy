/** Cardinalities of finite sets, as far as the proofs need them. */
module FiniteSets {
  lemma SubsetSize<T>(a: set<T>, b: set<T>)
    requires a <= b
    ensures |a| <= |b|
    ensures |a| == |b| ==> a == b
  {
    assert b == a + (b - a);
  }

  /** A set injected into another one is no larger. */
  lemma {:induction false} InjectionSize<T, U>(s: set<T>, f: T -> U, t: set<U>)
    requires forall x :: x in s ==> f(x) in t
    requires forall x, y :: x in s && y in s && x != y ==> f(x) != f(y)
    ensures |s| <= |t|
  {
    if s != {} {
      var x :| x in s;
      InjectionSize(s - {x}, f, t - {f(x)});
    }
  }
}
