/** The union-find structure (src/semantic/TypeAnalysis.h). */
module UnionFinds {
  import opened Types
  import opened Partitions

  function RankOf(rank: map<Type, nat>, t: Type): nat { if t in rank then rank[t] else 0 }

  /** From `t` one step along `parent` stays in the class of `t` and, unless `t` is its own parent and
      so the representative, goes to a smaller rank. */
  ghost predicate Node(parent: map<Type, Type>, rep: Partition, rank: map<Type, nat>, t: Type)
    requires t in parent
  {
    && parent[t] in parent && RepOf(rep, t) in parent
    && RepOf(rep, parent[t]) == RepOf(rep, t)
    && RepOf(rep, RepOf(rep, t)) == RepOf(rep, t)
    && (parent[t] == t ==> RepOf(rep, t) == t)
    && (parent[t] != t ==> RankOf(rank, parent[t]) < RankOf(rank, t))
    && (RepOf(rep, t) != t ==> RankOf(rank, RepOf(rep, t)) < RankOf(rank, t))
  }

  /** Following `parent` leads to the representative, through ever smaller ranks. */
  ghost predicate Forest(parent: map<Type, Type>, rep: Partition, rank: map<Type, nat>) {
    && rep.Keys <= parent.Keys
    && forall t {:trigger Node(parent, rep, rank, t)} :: t in parent ==> Node(parent, rep, rank, t)
  }

  lemma ForestIdempotent(parent: map<Type, Type>, rep: Partition, rank: map<Type, nat>)
    requires Forest(parent, rep, rank)
    ensures Idempotent(rep)
  {
    forall t ensures RepOf(rep, RepOf(rep, t)) == RepOf(rep, t) {
      if t in parent {
        assert Node(parent, rep, rank, t);
      }
    }
  }

  lemma AddKeepsForest(parent: map<Type, Type>, rep: Partition, rank: map<Type, nat>, t: Type)
    requires Forest(parent, rep, rank) && t !in parent
    ensures Forest(parent[t := t], rep, rank)
  {
    var parent' := parent[t := t];
    forall s | s in parent' ensures Node(parent', rep, rank, s) {
      if s != t {
        assert Node(parent, rep, rank, s);
      }
    }
  }

  /** Path compression: a type may hang directly below its representative. */
  lemma CompressKeepsForest(parent: map<Type, Type>, rep: Partition, rank: map<Type, nat>, t: Type)
    requires Forest(parent, rep, rank) && t in parent
    ensures Forest(parent[t := RepOf(rep, t)], rep, rank)
  {
    assert Node(parent, rep, rank, t);
    var parent' := parent[t := RepOf(rep, t)];
    forall s | s in parent' ensures Node(parent', rep, rank, s) {
      assert Node(parent, rep, rank, s);
    }
  }

  function Relinked(parent: map<Type, Type>, rep: Partition, r1: Type, r2: Type): Partition {
    map t | t in parent :: if RepOf(rep, t) == r1 then r2 else RepOf(rep, t)
  }

  /** Ranks after `r1` is hung below `r2`: everything below `r1` moves above `r2`. */
  function Reranked(parent: map<Type, Type>, rep: Partition, rank: map<Type, nat>, r1: Type, r2: Type): map<Type, nat> {
    map t | t in parent :: if RepOf(rep, t) == r1 then RankOf(rank, t) + RankOf(rank, r2) + 1 else RankOf(rank, t)
  }

  lemma LinkKeepsForest(parent: map<Type, Type>, rep: Partition, rank: map<Type, nat>, r1: Type, r2: Type)
    requires Forest(parent, rep, rank) && r1 in parent && r2 in parent
    requires RepOf(rep, r1) == r1 && RepOf(rep, r2) == r2 && r1 != r2
    ensures Forest(parent[r1 := r2], Relinked(parent, rep, r1, r2), Reranked(parent, rep, rank, r1, r2))
    ensures Merged(rep, Relinked(parent, rep, r1, r2), r1, r2)
  {
    var parent', rep', rank' := parent[r1 := r2], Relinked(parent, rep, r1, r2), Reranked(parent, rep, rank, r1, r2);
    forall s | s in parent' ensures Node(parent', rep', rank', s) {
      LinkKeepsNode(parent, rep, rank, r1, r2, s);
    }
  }

  lemma LinkKeepsNode(parent: map<Type, Type>, rep: Partition, rank: map<Type, nat>, r1: Type, r2: Type, s: Type)
    requires Forest(parent, rep, rank) && r1 in parent && r2 in parent && s in parent
    requires RepOf(rep, r1) == r1 && RepOf(rep, r2) == r2 && r1 != r2
    ensures Node(parent[r1 := r2], Relinked(parent, rep, r1, r2), Reranked(parent, rep, rank, r1, r2), s)
  {
    assert Node(parent, rep, rank, s);
    assert Node(parent, rep, rank, r1);
  }

  class UnionFind {
    var parent: map<Type, Type>
    /** The partition that `parent` stands for, and what makes following it terminate. */
    ghost var rep: Partition
    ghost var rank: map<Type, nat>

    ghost predicate Valid()
      reads this
    {
      Forest(parent, rep, rank)
    }

    constructor ()
      ensures Valid() && rep == map[]
    {
      parent, rep, rank := map[], map[], map[];
    }

    method MakeSet(t: Type)
      requires Valid()
      modifies this`parent
      ensures Valid()
      ensures parent == if t in old(parent) then old(parent) else old(parent)[t := t]
    {
      if t !in parent {
        AddKeepsForest(parent, rep, rank, t);
        parent := parent[t := t];
      }
    }

    /** Path compression does not change the partition. */
    method Find(t: Type) returns (r: Type)
      requires Valid()
      modifies this`parent
      ensures Valid() && r == RepOf(rep, t) && r in parent && old(parent.Keys) <= parent.Keys
      decreases RankOf(rank, t)
    {
      MakeSet(t);
      assert Node(parent, rep, rank, t);
      if parent[t] != t {
        var root := Find(parent[t]);
        CompressKeepsForest(parent, rep, rank, t);
        parent := parent[t := root];
      }
      r := parent[t];
    }

    method UnionTypes(t1: Type, t2: Type)
      requires Valid()
      modifies this
      ensures Valid()
      ensures Merged(old(rep), rep, RepOf(old(rep), t1), RepOf(old(rep), t2))
    {
      var r1 := Find(t1);
      var r2 := Find(t2);
      ForestIdempotent(parent, rep, rank);
      if r1 != r2 {
        LinkKeepsForest(parent, rep, rank, r1, r2);
        rep, rank := Relinked(parent, rep, r1, r2), Reranked(parent, rep, rank, r1, r2);
        parent := parent[r1 := r2];
      }
    }
  }
}
