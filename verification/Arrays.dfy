/** Arrays of arrays as sizes and subscripts make them (src/codegen/ir/IRCodeGeneratorImpl.cpp:299-316): every element has
    bytes of its own. */
module Arrays {
  import opened Ast
  import opened Int64
  import opened Options

  /** Indices into a type, one for each dimension that they go into, in range. */
  predicate Indexes(ty: Ty, ks: seq<nat>) { ks == [] || (ty.ArrTy? && ks[0] < ty.length && Indexes(ty.elem, ks[1..])) }

  /** What they lead to. */
  function Reached(ty: Ty, ks: seq<nat>): Ty
    requires Indexes(ty, ks)
  {
    if ks == [] then ty else Reached(ty.elem, ks[1..])
  }

  /** How many bytes from the beginning. */
  function Offset(ty: Ty, ks: seq<nat>): nat
    requires Indexes(ty, ks)
  {
    if ks == [] then 0 else ks[0] * SizeOf(ty.elem) + Offset(ty.elem, ks[1..])
  }

  lemma Rows(j: nat, k: nat, size: nat)
    requires j < k
    ensures j * size + size <= k * size
  {
    assert (k - j - 1) * size >= 0;
    assert k * size == j * size + size + (k - j - 1) * size;
  }

  /** An element lies within the array. */
  lemma {:induction false} InBounds(ty: Ty, ks: seq<nat>)
    requires Indexes(ty, ks)
    ensures Offset(ty, ks) + SizeOf(Reached(ty, ks)) <= SizeOf(ty)
    decreases ks
  {
    if ks != [] {
      InBounds(ty.elem, ks[1..]);
      Rows(ks[0], ty.length, SizeOf(ty.elem));
    }
  }

  /** Different indices, as many of them, lead to elements of one type without a byte in common. */
  lemma {:induction false} ElementsApart(ty: Ty, js: seq<nat>, ks: seq<nat>)
    requires Indexes(ty, js) && Indexes(ty, ks) && |js| == |ks| && js != ks
    ensures Reached(ty, js) == Reached(ty, ks)
    ensures var size := SizeOf(Reached(ty, js));
            Offset(ty, js) + size <= Offset(ty, ks) || Offset(ty, ks) + size <= Offset(ty, js)
    decreases js
  {
    SameType(ty, js, ks);
    if js[0] == ks[0] {
      assert js == [js[0]] + js[1..] && ks == [ks[0]] + ks[1..];
      ElementsApart(ty.elem, js[1..], ks[1..]);
    } else {
      InBounds(ty.elem, js[1..]);
      InBounds(ty.elem, ks[1..]);
      if js[0] < ks[0] {
        Rows(js[0], ks[0], SizeOf(ty.elem));
      } else {
        Rows(ks[0], js[0], SizeOf(ty.elem));
      }
    }
  }

  lemma {:induction false} SameType(ty: Ty, js: seq<nat>, ks: seq<nat>)
    requires Indexes(ty, js) && Indexes(ty, ks) && |js| == |ks|
    ensures Reached(ty, js) == Reached(ty, ks)
    decreases js
  {
    if js != [] {
      SameType(ty.elem, js[1..], ks[1..]);
    }
  }

  // ---------------------------------------------------------------------------------------------
  // Subscripts
  // ---------------------------------------------------------------------------------------------

  /** `b[k0][k1]...` */
  function Element(b: Expr, ks: seq<nat>): Expr
    decreases ks
  {
    if ks == [] then b else Element(Subscript(b, Num(ks[0])), ks[1..])
  }

  /** A subscript denotes the cell at the offset that its indices give. */
  lemma {:induction false} SubscriptIsOffset(env: Env, b: Expr, ty: Ty, ks: seq<nat>, mem: Memory, input: seq<int>, a: int)
    requires TypeOf(env.types, b) == Some(ty) && Indexes(ty, ks)
    requires Address(env, b, mem, input) == Some(Result(a, input)) && InRange(a)
    ensures Address(env, Element(b, ks), mem, input) == Some(Result(Wrap(a + Offset(ty, ks)), input))
    ensures TypeOf(env.types, Element(b, ks)) == Some(Reached(ty, ks))
    decreases ks
  {
    if ks != [] {
      var step := ks[0] * SizeOf(ty.elem);
      var a1 := ElementAt(a, ks[0], SizeOf(ty.elem));
      assert Value(env, Num(ks[0]), mem, input) == Some(Result(ks[0], input));
      assert Address(env, Subscript(b, Num(ks[0])), mem, input) == Some(Result(a1, input));
      SubscriptIsOffset(env, Subscript(b, Num(ks[0])), ty.elem, ks[1..], mem, input, a1);
      WrapOfSum(a + step, Offset(ty.elem, ks[1..]));
    }
  }
}
