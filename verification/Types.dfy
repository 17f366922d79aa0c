/** Types and what the analysis reads of them (src/frontend/Type.h). Types are interned there, so
    pointer equality is structural equality. */
module Types {
  datatype Type =
    | VarType(node: nat)
    | IntType
    | PointerType(pointee: Type)
    | ArrayType(elem: Type, numElements: nat)
    | FunctionType(params: seq<Type>, ret: Type)

  /** The components of a type, in the order in which they are unified. */
  function Parts(t: Type): seq<Type> {
    match t
    case VarType(_) => []
    case IntType => []
    case PointerType(p) => [p]
    case ArrayType(e, _) => [e]
    case FunctionType(ps, r) => ps + [r]
  }

  predicate PointerLike(t: Type) { t.PointerType? || t.ArrayType? }

  /** One type constructor, arrays counted as pointers and functions told apart by arity. */
  predicate SameShape(a: Type, b: Type) {
    || (a.IntType? && b.IntType?)
    || (PointerLike(a) && PointerLike(b))
    || (a.FunctionType? && b.FunctionType? && |a.params| == |b.params|)
  }

  function Subterms(t: Type): (s: set<Type>)
    ensures t in s
  {
    match t
    case VarType(_) => {t}
    case IntType => {t}
    case PointerType(p) => {t} + Subterms(p)
    case ArrayType(e, _) => {t} + Subterms(e)
    case FunctionType(ps, r) => {t} + Subterms(r) + SubtermsOfAll(ps)
  }

  function SubtermsOfAll(ts: seq<Type>): (s: set<Type>)
    ensures forall t :: t in ts ==> t in s
  {
    if ts == [] then {} else Subterms(ts[0]) + SubtermsOfAll(ts[1..])
  }

  predicate Closed(u: set<Type>) {
    forall t :: t in u ==> forall k :: 0 <= k < |Parts(t)| ==> Parts(t)[k] in u
  }

  lemma {:induction false} SubtermsClosed(t: Type)
    ensures Closed(Subterms(t))
  {
    match t
    case VarType(_) =>
    case IntType =>
    case PointerType(p) => SubtermsClosed(p);
    case ArrayType(e, _) => SubtermsClosed(e);
    case FunctionType(ps, r) =>
      SubtermsClosed(r);
      SubtermsOfAllClosed(ps);
  }

  lemma {:induction false} SubtermsOfAllClosed(ts: seq<Type>)
    ensures Closed(SubtermsOfAll(ts))
  {
    if ts != [] {
      SubtermsClosed(ts[0]);
      SubtermsOfAllClosed(ts[1..]);
    }
  }
}
