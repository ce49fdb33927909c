/** `_UnionFind`: parent links that never lead upwards in key order, with path compression. */
module UnionFind {
  import opened KeyOrder

  type Parents = map<string, string>

  function Up(p: Parents, k: string): string
    requires k in p
  {
    p[k]
  }

  /** Every link stays inside the table and leads to a key that is no greater. */
  predicate Heap(p: Parents) {
    forall k {:trigger Up(p, k)} :: k in p ==> Up(p, k) in p && Leq(Up(p, k), k)
  }

  lemma HeapUpdate(p: Parents, k: string, v: string)
    requires Heap(p) && (v in p || v == k) && Leq(v, k)
    ensures Heap(p[k := v])
  {
    var q := p[k := v];
    forall x | x in q
      ensures Up(q, x) in q && Leq(Up(q, x), x)
    {
      if x != k {
        assert Up(p, x) in p && Leq(Up(p, x), x);
      }
    }
  }

  function Below(p: Parents, k: string): set<string> {
    set x | x in p && Leq(x, k)
  }

  lemma BelowShrinks(p: Parents, k: string)
    requires Heap(p) && k in p && Up(p, k) != k
    ensures Below(p, Up(p, k)) < Below(p, k)
  {
    forall x | x in Below(p, Up(p, k))
      ensures x in Below(p, k)
    {
      LeqTransitive(x, Up(p, k), k);
    }
    LeqReflexive(k);
    assert k in Below(p, k);
    if k in Below(p, Up(p, k)) {
      LeqAntisymmetric(k, Up(p, k));
    }
  }

  /** The representative reached by following links. */
  ghost function Root(p: Parents, k: string): (r: string)
    requires Heap(p) && k in p
    ensures r in p && Up(p, r) == r
    decreases Below(p, k)
  {
    if Up(p, k) == k then k else
      BelowShrinks(p, k);
      Root(p, Up(p, k))
  }

  lemma {:induction false} RootBelow(p: Parents, k: string)
    requires Heap(p) && k in p
    ensures Leq(Root(p, k), k)
    decreases Below(p, k)
  {
    if Up(p, k) == k {
      LeqReflexive(k);
    } else {
      BelowShrinks(p, k);
      RootBelow(p, Up(p, k));
      LeqTransitive(Root(p, k), Up(p, k), k);
    }
  }

  ghost predicate SameRoots(p: Parents, q: Parents) {
    Heap(p) && Heap(q) && p.Keys == q.Keys && forall x {:trigger Root(q, x)} :: x in p ==> Root(q, x) == Root(p, x)
  }

  /** Pointing a key straight at its root changes no class. */
  lemma {:induction false} CompressRoot(p: Parents, k: string, x: string)
    requires Heap(p) && k in p && x in p
    ensures Heap(p[k := Root(p, k)])
    ensures Root(p[k := Root(p, k)], x) == Root(p, x)
    decreases Below(p, x)
  {
    var r := Root(p, k);
    var q := p[k := r];
    RootBelow(p, k);
    HeapUpdate(p, k, r);
    if Up(p, x) != x {
      BelowShrinks(p, x);
      CompressRoot(p, k, Up(p, x));
    }
    assert Up(q, r) == r;
  }

  lemma Compress(p: Parents, k: string)
    requires Heap(p) && k in p
    ensures SameRoots(p, p[k := Root(p, k)])
  {
    var q := p[k := Root(p, k)];
    CompressRoot(p, k, k);
    assert p.Keys == q.Keys;
    forall x | x in p
      ensures Root(q, x) == Root(p, x)
    {
      CompressRoot(p, k, x);
    }
  }

  /** `setdefault(key, key)`. */
  function Added(p: Parents, k: string): Parents {
    if k in p then p else p[k := k]
  }

  lemma AddedHeap(p: Parents, k: string)
    requires Heap(p)
    ensures Heap(Added(p, k))
    ensures forall x {:trigger Root(Added(p, k), x)} :: x in p ==> Root(Added(p, k), x) == Root(p, x)
    ensures k !in p ==> Root(Added(p, k), k) == k
  {
    LeqReflexive(k);
    HeapUpdate(p, k, k);
    forall x | x in p
      ensures Root(Added(p, k), x) == Root(p, x)
    {
      AddedRoot(p, k, x);
    }
  }

  lemma {:induction false} AddedRoot(p: Parents, k: string, x: string)
    requires Heap(p) && Heap(Added(p, k)) && x in p
    ensures Root(Added(p, k), x) == Root(p, x)
    decreases Below(p, x)
  {
    if Up(p, x) != x {
      BelowShrinks(p, x);
      AddedRoot(p, k, Up(p, x));
    }
  }

  /** The representative after two roots have been joined under the smaller one. */
  ghost function Joined(p: Parents, a: string, b: string, x: string): string
    requires Heap(p) && a in p && b in p && x in p
  {
    var ra, rb := Root(p, a), Root(p, b);
    if Root(p, x) == ra || Root(p, x) == rb then Min(ra, rb) else Root(p, x)
  }

  ghost predicate JoinedAll(p: Parents, a: string, b: string, q: Parents) {
    && Heap(p) && Heap(q) && p.Keys == q.Keys && a in p && b in p
    && forall x {:trigger Root(q, x)} :: x in p ==> Root(q, x) == Joined(p, a, b, x)
  }

  lemma {:induction false} LinkRoot(p: Parents, lo: string, hi: string, x: string)
    requires Heap(p) && lo in p && hi in p && Up(p, lo) == lo && Up(p, hi) == hi && lo != hi && Leq(lo, hi) && x in p
    ensures Heap(p[hi := lo])
    ensures Root(p[hi := lo], x) == if Root(p, x) == hi then lo else Root(p, x)
    decreases Below(p, x)
  {
    var q := p[hi := lo];
    HeapUpdate(p, hi, lo);
    assert Up(q, lo) == lo;
    if Up(p, x) != x {
      BelowShrinks(p, x);
      LinkRoot(p, lo, hi, Up(p, x));
    }
  }

  class UnionFind {
    var parent: Parents

    constructor ()
      ensures parent == map[]
    {
      parent := map[];
    }

    /** Two loops: climb to the root, then point every key on the way at it. */
    method Find(key: string) returns (root: string)
      requires Heap(parent)
      modifies this
      ensures SameRoots(Added(old(parent), key), parent)
      ensures key in parent && root == Root(parent, key)
    {
      AddedHeap(parent, key);
      parent := Added(parent, key);
      ghost var start := parent;
      root := key;
      while parent[root] != root
        invariant parent == start && root in parent && Root(start, root) == Root(start, key)
        decreases Below(start, root)
      {
        BelowShrinks(start, root);
        root := parent[root];
      }
      var k := key;
      while parent[k] != root
        invariant SameRoots(start, parent) && k in parent && Root(parent, k) == root && Root(start, key) == root
        decreases Below(parent, k)
      {
        ghost var before := parent;
        BelowShrinks(parent, k);
        Compress(parent, k);
        parent, k := parent[k := root], parent[k];
        assert Below(parent, k) == Below(before, k);
        assert Root(before, k) == root;
      }
    }

    /** The greater root goes under the smaller one. */
    method Union(a: string, b: string)
      requires Heap(parent)
      modifies this
      ensures JoinedAll(Added(Added(old(parent), a), b), a, b, parent)
    {
      AddedHeap(parent, a);
      AddedHeap(Added(parent, a), b);
      ghost var start := Added(Added(parent, a), b);
      var ra := Find(a);
      ghost var mid := parent;
      SameRootsAdded(Added(old(parent), a), mid, b);
      var rb := Find(b);
      SameRootsTransitive(start, Added(mid, b), parent);
      AddedHeap(mid, b);
      assert Root(parent, a) == ra && Root(parent, b) == rb;
      if ra != rb {
        LeqTotal(ra, rb);
        JoinRoots(start, parent, a, b);
        parent := parent[Max(ra, rb) := Min(ra, rb)];
      } else {
        AlreadyJoined(start, parent, a, b);
      }
    }
  }

  lemma SameRootsAdded(p: Parents, q: Parents, k: string)
    requires SameRoots(p, q)
    ensures SameRoots(Added(p, k), Added(q, k))
  {
    AddedHeap(p, k);
    AddedHeap(q, k);
    var p', q' := Added(p, k), Added(q, k);
    assert p'.Keys == q'.Keys;
    forall x | x in p'
      ensures Root(q', x) == Root(p', x)
    {
      if x in p {
        assert Root(q, x) == Root(p, x);
      }
    }
  }

  lemma SameRootsTransitive(p: Parents, q: Parents, r: Parents)
    requires SameRoots(p, q) && SameRoots(q, r)
    ensures SameRoots(p, r)
  {
    forall x | x in p
      ensures Root(r, x) == Root(p, x)
    {
      assert Root(r, x) == Root(q, x);
    }
  }

  lemma JoinRoots(p: Parents, q: Parents, a: string, b: string)
    requires SameRoots(p, q) && a in p && b in p && Root(q, a) != Root(q, b)
    ensures JoinedAll(p, a, b, q[Max(Root(q, a), Root(q, b)) := Min(Root(q, a), Root(q, b))])
  {
    var lo, hi := Min(Root(q, a), Root(q, b)), Max(Root(q, a), Root(q, b));
    LeqTotal(Root(q, a), Root(q, b));
    LinkRoot(q, lo, hi, lo);
    var q' := q[hi := lo];
    assert q'.Keys == q.Keys;
    assert Root(q, a) == Root(p, a) && Root(q, b) == Root(p, b);
    forall x | x in p
      ensures Root(q', x) == Joined(p, a, b, x)
    {
      assert Root(q, x) == Root(p, x);
      LinkRoot(q, lo, hi, x);
    }
  }

  lemma AlreadyJoined(p: Parents, q: Parents, a: string, b: string)
    requires SameRoots(p, q) && a in p && b in p && Root(q, a) == Root(q, b)
    ensures JoinedAll(p, a, b, q)
  {
    assert Root(q, a) == Root(p, a) && Root(q, b) == Root(p, b);
    forall x | x in p
      ensures Root(q, x) == Joined(p, a, b, x)
    {
      assert Root(q, x) == Root(p, x);
    }
  }
}
