/** `sibling_groups`: union-find over the three edge kinds computes exactly the lineage classes. */
module SiblingGroups {
  import opened KeyOrder
  import opened UnionFind
  import opened Lineage

  /** Roots never merge keys that no walk joins. */
  ghost predicate Faithful(nodes: seq<Node>, p: Parents) {
    && Heap(p) && p.Keys == Keys(nodes)
    && forall x, y {:trigger Root(p, x), Root(p, y)} :: x in p && y in p && Root(p, x) == Root(p, y) ==>
         Linked(nodes, x, y)
  }

  /** No merge is undone. */
  ghost predicate Coarser(p: Parents, q: Parents) {
    && Heap(p) && Heap(q) && p.Keys == q.Keys
    && forall x, y {:trigger Root(q, x), Root(q, y)} :: x in p && y in p && Root(p, x) == Root(p, y) ==>
         Root(q, x) == Root(q, y)
  }

  lemma CoarserTransitive(p: Parents, q: Parents, r: Parents)
    requires Coarser(p, q) && Coarser(q, r)
    ensures Coarser(p, r)
  {
    forall x, y | x in p && y in p && Root(p, x) == Root(p, y)
      ensures Root(r, x) == Root(r, y)
    {
      assert Root(q, x) == Root(q, y);
    }
  }

  lemma UnionStep(nodes: seq<Node>, p: Parents, a: string, b: string, q: Parents)
    requires Faithful(nodes, p) && a in p && b in p && Linked(nodes, a, b)
    requires JoinedAll(p, a, b, q)
    ensures Faithful(nodes, q) && Coarser(p, q) && Root(q, a) == Root(q, b)
  {
    LinkedSymmetric(nodes, a, b);
    forall x, y | x in q && y in q && Root(q, x) == Root(q, y)
      ensures Linked(nodes, x, y)
    {
      JoinedFaithful(nodes, p, a, b, x, y);
    }
    forall x, y | x in p && y in p && Root(p, x) == Root(p, y)
      ensures Root(q, x) == Root(q, y)
    {
      assert Root(q, x) == Joined(p, a, b, x) && Root(q, y) == Joined(p, a, b, y);
    }
    assert Root(q, a) == Joined(p, a, b, a) && Root(q, b) == Joined(p, a, b, b);
  }

  lemma JoinedFaithful(nodes: seq<Node>, p: Parents, a: string, b: string, x: string, y: string)
    requires Faithful(nodes, p) && a in p && b in p && Linked(nodes, a, b) && Linked(nodes, b, a)
    requires x in p && y in p && Joined(p, a, b, x) == Joined(p, a, b, y)
    ensures Linked(nodes, x, y)
  {
    if Root(p, x) == Root(p, y) {
      assert Linked(nodes, x, y);
    } else {
      // One of them sits under a's old root, the other under b's.
      var c := if Root(p, x) == Root(p, a) then a else b;
      var d := if c == a then b else a;
      assert Root(p, c) == Root(p, x) && Root(p, d) == Root(p, y);
      LinkedTransitive(nodes, x, c, d);
      LinkedTransitive(nodes, x, d, y);
    }
  }

  ghost predicate SameClass(p: Parents, x: string, y: string) {
    Heap(p) && x in p && y in p && Root(p, x) == Root(p, y)
  }

  /** The edges leaving the first `n` entries have all been merged. */
  ghost predicate Covered(nodes: seq<Node>, p: Parents, n: nat) {
    forall i, j {:trigger Edge(nodes[i], nodes[j])} ::
      0 <= i < n <= |nodes| && 0 <= j < |nodes| && Edge(nodes[i], nodes[j]) ==>
      SameClass(p, nodes[i].key, nodes[j].key)
  }

  lemma CoveredCoarser(nodes: seq<Node>, p: Parents, q: Parents, n: nat)
    requires Covered(nodes, p, n) && Coarser(p, q)
    ensures Covered(nodes, q, n)
  {
    forall i, j | 0 <= i < n <= |nodes| && 0 <= j < |nodes| && Edge(nodes[i], nodes[j])
      ensures SameClass(q, nodes[i].key, nodes[j].key)
    {
      assert SameClass(p, nodes[i].key, nodes[j].key);
    }
  }

  lemma {:induction false} WalkSameClass(nodes: seq<Node>, p: Parents, w: seq<string>)
    requires Heap(p) && p.Keys == Keys(nodes) && Covered(nodes, p, |nodes|) && Walk(nodes, w)
    ensures SameClass(p, w[0], w[|w| - 1])
  {
    if |w| > 1 {
      var v := w[..|w| - 1];
      assert Walk(nodes, v) by {
        forall i | 1 <= i < |v|
          ensures Touch(nodes, v[i - 1], v[i])
        {
          assert Touch(nodes, w[i - 1], w[i]);
        }
      }
      WalkSameClass(nodes, p, v);
      assert Touch(nodes, w[|w| - 2], w[|w| - 1]);
    }
  }

  /** With every edge merged, sharing a root is being linked. */
  lemma SharingIsLinking(nodes: seq<Node>, p: Parents, x: string, y: string)
    requires Faithful(nodes, p) && Covered(nodes, p, |nodes|) && x in p && y in p
    ensures SameClass(p, x, y) <==> Linked(nodes, x, y)
  {
    if Linked(nodes, x, y) {
      var w := WalkOf(nodes, x, y);
      WalkSameClass(nodes, p, w);
    }
  }

  /** The root of a key is the leader of its class. */
  lemma RootLeads(nodes: seq<Node>, p: Parents, x: string)
    requires Faithful(nodes, p) && Covered(nodes, p, |nodes|) && x in p
    ensures Root(p, x) in Leaders(nodes) && Linked(nodes, Root(p, x), x)
    ensures x in Leaders(nodes) ==> Root(p, x) == x
  {
    var r := Root(p, x);
    assert Root(p, r) == r;
    assert Linked(nodes, r, x) && Linked(nodes, x, r);
    forall y | y in ClassOf(nodes, r)
      ensures Leq(r, y)
    {
      SharingIsLinking(nodes, p, r, y);
      RootBelow(p, y);
    }
    if x in Leaders(nodes) {
      assert r in ClassOf(nodes, x);
      RootBelow(p, x);
      LeqAntisymmetric(r, x);
    }
  }

  // ----- The tables built while scanning -----

  datatype Label = ByGroup | BySha

  function LabelOf(l: Label, n: Node): string {
    match l
    case ByGroup => n.group
    case BySha => n.sha
  }

  type Index = map<string, seq<string>>

  /** The index lists, under each label, the keys of the entries that carry it. */
  predicate Indexed(l: Label, nodes: seq<Node>, index: Index) {
    && (forall i {:trigger LabelOf(l, nodes[i])} :: 0 <= i < |nodes| ==>
          LabelOf(l, nodes[i]) in index && nodes[i].key in index[LabelOf(l, nodes[i])])
    && (forall g, k {:trigger Carries(l, nodes, g, k)} :: g in index && k in index[g] ==> Carries(l, nodes, g, k))
  }

  predicate Carries(l: Label, nodes: seq<Node>, g: string, k: string) {
    exists i :: 0 <= i < |nodes| && LabelOf(l, nodes[i]) == g && nodes[i].key == k
  }

  /** `setdefault(label, []).append(key)`. */
  function Listed(index: Index, g: string, k: string): Index {
    index[g := (if g in index then index[g] else []) + [k]]
  }

  lemma IndexOneMore(l: Label, nodes: seq<Node>, i: nat, index: Index)
    requires i < |nodes| && Indexed(l, nodes[..i], index)
    ensures Indexed(l, nodes[..i + 1], Listed(index, LabelOf(l, nodes[i]), nodes[i].key))
  {
    var g', after := LabelOf(l, nodes[i]), nodes[..i + 1];
    var index' := Listed(index, g', nodes[i].key);
    assert after[i] == nodes[i];
    forall g, k | g in index' && k in index'[g]
      ensures Carries(l, after, g, k)
    {
      if g == g' && k == nodes[i].key {
        assert LabelOf(l, after[i]) == g;
      } else {
        assert Carries(l, nodes[..i], g, k);
        var j :| 0 <= j < i && LabelOf(l, nodes[..i][j]) == g && nodes[..i][j].key == k;
        assert after[j] == nodes[..i][j];
      }
    }
    forall j | 0 <= j < |after|
      ensures LabelOf(l, after[j]) in index' && after[j].key in index'[LabelOf(l, after[j])]
    {
      if j < i {
        assert after[j] == nodes[..i][j];
      }
    }
  }

  /** Merge a key with each of a list of keys it is linked to. */
  method UnionPeers(uf: UnionFind, ghost nodes: seq<Node>, key: string, peers: seq<string>)
    requires Faithful(nodes, uf.parent) && key in uf.parent
    requires forall k :: k in peers ==> Linked(nodes, key, k)
    modifies uf
    ensures Faithful(nodes, uf.parent) && Coarser(old(uf.parent), uf.parent)
    ensures forall k :: k in peers ==> SameClass(uf.parent, key, k)
  {
    for i := 0 to |peers|
      invariant Faithful(nodes, uf.parent) && Coarser(old(uf.parent), uf.parent)
      invariant forall j :: 0 <= j < i ==> SameClass(uf.parent, key, peers[j])
    {
      ghost var before := uf.parent;
      LinkedInKeys(nodes, key, peers[i]);
      uf.Union(key, peers[i]);
      UnionStep(nodes, before, key, peers[i], uf.parent);
      CoarserTransitive(old(uf.parent), before, uf.parent);
      forall j | 0 <= j < i
        ensures SameClass(uf.parent, key, peers[j])
      {
        assert SameClass(before, key, peers[j]);
      }
    }
  }

  method UnionControls(uf: UnionFind, nodes: seq<Node>, i: nat, byKey: set<string>)
    requires Faithful(nodes, uf.parent) && i < |nodes| && byKey == Keys(nodes)
    modifies uf
    ensures Faithful(nodes, uf.parent) && Coarser(old(uf.parent), uf.parent)
    ensures forall c :: c in nodes[i].controls && c in byKey ==> SameClass(uf.parent, nodes[i].key, c)
  {
    var key := nodes[i].key;
    var rest := nodes[i].controls;
    while rest != {}
      invariant rest <= nodes[i].controls
      invariant Faithful(nodes, uf.parent) && Coarser(old(uf.parent), uf.parent)
      invariant forall c :: c in nodes[i].controls - rest && c in byKey ==> SameClass(uf.parent, key, c)
      decreases rest
    {
      var control :| control in rest;
      rest := rest - {control};
      if control in byKey {
        var j :| 0 <= j < |nodes| && nodes[j].key == control;
        assert KeyEdge(nodes, key, control);
        LinkedEdge(nodes, key, control);
        ghost var before := uf.parent;
        UnionPeers(uf, nodes, key, [control]);
        CoarserTransitive(old(uf.parent), before, uf.parent);
        forall c | c in nodes[i].controls - rest && c in byKey
          ensures SameClass(uf.parent, key, c)
        {
          if c != control {
            assert SameClass(before, key, c);
          } else {
            assert c in [control];
          }
        }
      }
    }
  }

  lemma PeersLinked(l: Label, nodes: seq<Node>, index: Index, i: nat)
    requires Indexed(l, nodes, index) && i < |nodes| && LabelOf(l, nodes[i]) in index
    ensures forall k :: k in index[LabelOf(l, nodes[i])] ==> Linked(nodes, nodes[i].key, k)
  {
    forall k | k in index[LabelOf(l, nodes[i])]
      ensures Linked(nodes, nodes[i].key, k)
    {
      assert Carries(l, nodes, LabelOf(l, nodes[i]), k);
      var j :| 0 <= j < |nodes| && LabelOf(l, nodes[j]) == LabelOf(l, nodes[i]) && nodes[j].key == k;
      assert KeyEdge(nodes, nodes[i].key, k);
      LinkedEdge(nodes, nodes[i].key, k);
    }
  }

  /** All merges one entry asks for. */
  method UnionEntry(uf: UnionFind, nodes: seq<Node>, i: nat, byGroup: Index, bySha: Index, byKey: set<string>)
    requires Faithful(nodes, uf.parent) && i < |nodes| && byKey == Keys(nodes)
    requires Indexed(ByGroup, nodes, byGroup) && Indexed(BySha, nodes, bySha)
    modifies uf
    ensures Faithful(nodes, uf.parent) && Coarser(old(uf.parent), uf.parent)
    ensures forall j :: 0 <= j < |nodes| && Edge(nodes[i], nodes[j]) ==>
      SameClass(uf.parent, nodes[i].key, nodes[j].key)
  {
    var n := nodes[i];
    assert LabelOf(ByGroup, n) in byGroup && LabelOf(BySha, n) in bySha;
    PeersLinked(ByGroup, nodes, byGroup, i);
    PeersLinked(BySha, nodes, bySha, i);
    UnionPeers(uf, nodes, n.key, byGroup[n.group]);
    ghost var p1 := uf.parent;
    UnionPeers(uf, nodes, n.key, bySha[n.sha]);
    ghost var p2 := uf.parent;
    UnionControls(uf, nodes, i, byKey);
    CoarserTransitive(old(uf.parent), p1, p2);
    CoarserTransitive(old(uf.parent), p2, uf.parent);
    forall j | 0 <= j < |nodes| && Edge(n, nodes[j])
      ensures SameClass(uf.parent, n.key, nodes[j].key)
    {
      if n.group == nodes[j].group {
        assert LabelOf(ByGroup, nodes[j]) == n.group;
        assert SameClass(p1, n.key, nodes[j].key);
        assert SameClass(p2, n.key, nodes[j].key);
      } else if n.sha == nodes[j].sha {
        assert LabelOf(BySha, nodes[j]) == n.sha;
        assert SameClass(p2, n.key, nodes[j].key);
      } else {
        assert nodes[j].key in n.controls;
      }
    }
  }

  /** The first pass: register every key and fill the two indexes. */
  method Scan(uf: UnionFind, nodes: seq<Node>) returns (byGroup: Index, bySha: Index)
    requires uf.parent == map[]
    modifies uf
    ensures Faithful(nodes, uf.parent)
    ensures Indexed(ByGroup, nodes, byGroup) && Indexed(BySha, nodes, bySha)
  {
    byGroup, bySha := map[], map[];
    for i := 0 to |nodes|
      invariant Heap(uf.parent) && uf.parent.Keys == Keys(nodes[..i])
      invariant forall x {:trigger Root(uf.parent, x)} :: x in uf.parent ==> Root(uf.parent, x) == x
      invariant Indexed(ByGroup, nodes[..i], byGroup) && Indexed(BySha, nodes[..i], bySha)
    {
      var n := nodes[i];
      ghost var before := uf.parent;
      var _ := uf.Find(n.key);
      AddedHeap(before, n.key);
      KeysOneMore(nodes, i);
      forall x | x in uf.parent
        ensures Root(uf.parent, x) == x
      {
        assert Root(uf.parent, x) == Root(Added(before, n.key), x);
      }
      IndexOneMore(ByGroup, nodes, i, byGroup);
      IndexOneMore(BySha, nodes, i, bySha);
      byGroup, bySha := Listed(byGroup, n.group, n.key), Listed(bySha, n.sha, n.key);
    }
    assert nodes[..|nodes|] == nodes;
    forall x, y | x in uf.parent && y in uf.parent && Root(uf.parent, x) == Root(uf.parent, y)
      ensures Linked(nodes, x, y)
    {
      LinkedReflexive(nodes, x);
    }
  }

  lemma KeysOneMore(nodes: seq<Node>, i: nat)
    requires i < |nodes|
    ensures Keys(nodes[..i + 1]) == Keys(nodes[..i]) + {nodes[i].key}
  {
    var before, after := nodes[..i], nodes[..i + 1];
    forall k | k in Keys(after)
      ensures k in Keys(before) + {nodes[i].key}
    {
      var j :| 0 <= j < |after| && after[j].key == k;
      assert j < i ==> before[j] == after[j];
    }
    forall k | k in Keys(before) + {nodes[i].key}
      ensures k in Keys(after)
    {
      if k in Keys(before) {
        var j :| 0 <= j < |before| && before[j].key == k;
        assert after[j] == before[j];
      } else {
        assert after[i].key == k;
      }
    }
  }

  /** The third pass: the members of every root. */
  method Collect(uf: UnionFind, nodes: seq<Node>) returns (members: map<string, set<string>>)
    requires Faithful(nodes, uf.parent) && Covered(nodes, uf.parent, |nodes|)
    modifies uf
    ensures members.Keys == Leaders(nodes)
    ensures forall m :: m in Leaders(nodes) ==> members[m] == ClassOf(nodes, m)
  {
    ghost var p := uf.parent;
    members := map[];
    for i := 0 to |nodes|
      invariant SameRoots(p, uf.parent)
      invariant Bucketed(p, nodes, i, members)
    {
      ghost var before := uf.parent;
      KeyPresent(nodes, i);
      var root := uf.Find(nodes[i].key);
      FoundRoot(p, before, uf.parent, nodes[i].key);
      BucketsOneMore(p, nodes, i, members);
      members := Put(members, root, nodes[i].key);
    }
    BucketsAreClasses(nodes, p, members);
  }

  /** `{root: sorted(members) for root, members in sorted(groups.items())}`. */
  function Arranged(members: map<string, set<string>>): (groups: Groups)
    ensures |groups| == |Sorted(members.Keys)|
    ensures forall i :: 0 <= i < |groups| ==>
      groups[i].0 == Sorted(members.Keys)[i] && groups[i].0 in members && groups[i].1 == Sorted(members[groups[i].0])
  {
    var roots := Sorted(members.Keys);
    seq(|roots|, i requires 0 <= i < |roots| => assert roots[i] in roots; (roots[i], Sorted(members[roots[i]])))
  }

  lemma ArrangedIsGrouping(nodes: seq<Node>, members: map<string, set<string>>)
    requires members.Keys == Leaders(nodes)
    requires forall m :: m in Leaders(nodes) ==> members[m] == ClassOf(nodes, m)
    ensures Arranged(members) == Grouping(nodes)
  {
    var a, g := Arranged(members), Grouping(nodes);
    forall i | 0 <= i < |a|
      ensures a[i] == g[i]
    {
      assert a[i].0 == Sorted(Leaders(nodes))[i] == g[i].0;
    }
  }

  method UnionAll(uf: UnionFind, nodes: seq<Node>, byGroup: Index, bySha: Index, byKey: set<string>)
    requires Faithful(nodes, uf.parent) && byKey == Keys(nodes)
    requires Indexed(ByGroup, nodes, byGroup) && Indexed(BySha, nodes, bySha)
    modifies uf
    ensures Faithful(nodes, uf.parent) && Covered(nodes, uf.parent, |nodes|)
  {
    for i := 0 to |nodes|
      invariant Faithful(nodes, uf.parent) && Covered(nodes, uf.parent, i)
    {
      ghost var before := uf.parent;
      UnionEntry(uf, nodes, i, byGroup, bySha, byKey);
      CoveredCoarser(nodes, before, uf.parent, i);
    }
  }

  /** `sibling_groups`. */
  method Compute(nodes: seq<Node>) returns (groups: Groups)
    ensures groups == Grouping(nodes)
  {
    var uf := new UnionFind();
    var byGroup, bySha := Scan(uf, nodes);
    var byKey := Keys(nodes);
    UnionAll(uf, nodes, byGroup, bySha, byKey);
    var members := Collect(uf, nodes);
    ArrangedIsGrouping(nodes, members);
    groups := Arranged(members);
  }

  lemma KeyPresent(nodes: seq<Node>, i: nat)
    requires i < |nodes|
    ensures nodes[i].key in Keys(nodes)
  {
  }

  lemma FoundRoot(p: Parents, before: Parents, after: Parents, k: string)
    requires SameRoots(p, before) && k in p && SameRoots(Added(before, k), after)
    ensures SameRoots(p, after) && Root(after, k) == Root(p, k)
  {
    SameRootsTransitive(p, before, after);
  }

  /** `setdefault(root, set())` and `add(key)`. */
  function Put(members: map<string, set<string>>, root: string, key: string): map<string, set<string>> {
    members[root := (if root in members then members[root] else {}) + {key}]
  }

  ghost predicate Rooted(p: Parents, n: Node, r: string) {
    Heap(p) && n.key in p && Root(p, n.key) == r
  }

  ghost predicate Placed(p: Parents, n: Node, members: map<string, set<string>>) {
    exists r :: Rooted(p, n, r) && r in members && n.key in members[r]
  }

  ghost predicate Owned(p: Parents, nodes: seq<Node>, n: nat, r: string, k: string) {
    exists i :: 0 <= i < n <= |nodes| && nodes[i].key == k && Rooted(p, nodes[i], r)
  }

  /** The keys of the first `n` entries, under their roots. */
  ghost predicate Bucketed(p: Parents, nodes: seq<Node>, n: nat, members: map<string, set<string>>) {
    && (forall i {:trigger Placed(p, nodes[i], members)} :: 0 <= i < n <= |nodes| ==> Placed(p, nodes[i], members))
    && (forall r, k {:trigger Owned(p, nodes, n, r, k)} :: r in members && k in members[r] ==> Owned(p, nodes, n, r, k))
    && (forall r :: r in members ==> members[r] != {})
  }

  lemma BucketsOneMore(p: Parents, nodes: seq<Node>, i: nat, members: map<string, set<string>>)
    requires Heap(p) && i < |nodes| && nodes[i].key in p && Bucketed(p, nodes, i, members)
    ensures Bucketed(p, nodes, i + 1, Put(members, Root(p, nodes[i].key), nodes[i].key))
  {
    var root, key := Root(p, nodes[i].key), nodes[i].key;
    var after := Put(members, root, key);
    forall j | 0 <= j < i + 1
      ensures Placed(p, nodes[j], after)
    {
      if j < i {
        assert Placed(p, nodes[j], members);
        var r :| Rooted(p, nodes[j], r) && r in members && nodes[j].key in members[r];
        assert r in after && nodes[j].key in after[r];
      } else {
        assert Rooted(p, nodes[i], root);
      }
    }
    forall r, k | r in after && k in after[r]
      ensures Owned(p, nodes, i + 1, r, k)
    {
      if r in members && k in members[r] {
        assert Owned(p, nodes, i, r, k);
      } else {
        assert Rooted(p, nodes[i], r);
      }
    }
  }

  lemma MemberRoot(nodes: seq<Node>, p: Parents, members: map<string, set<string>>, r: string, k: string)
    requires Faithful(nodes, p) && Bucketed(p, nodes, |nodes|, members) && r in members && k in members[r]
    ensures k in p && Root(p, k) == r
  {
    assert Owned(p, nodes, |nodes|, r, k);
  }

  lemma RootMember(nodes: seq<Node>, p: Parents, members: map<string, set<string>>, k: string)
    requires Faithful(nodes, p) && Bucketed(p, nodes, |nodes|, members) && k in p
    ensures Root(p, k) in members && k in members[Root(p, k)]
  {
    var i :| 0 <= i < |nodes| && nodes[i].key == k;
    assert Placed(p, nodes[i], members);
  }

  lemma BucketsAreClasses(nodes: seq<Node>, p: Parents, members: map<string, set<string>>)
    requires Faithful(nodes, p) && Covered(nodes, p, |nodes|) && Bucketed(p, nodes, |nodes|, members)
    ensures members.Keys == Leaders(nodes)
    ensures forall m :: m in Leaders(nodes) ==> members[m] == ClassOf(nodes, m)
  {
    forall r | r in members
      ensures r in Leaders(nodes)
    {
      var k :| k in members[r];
      MemberRoot(nodes, p, members, r, k);
      RootLeads(nodes, p, k);
    }
    forall m | m in Leaders(nodes)
      ensures m in members && members[m] == ClassOf(nodes, m)
    {
      BucketIsClass(nodes, p, members, m);
    }
  }

  lemma BucketIsClass(nodes: seq<Node>, p: Parents, members: map<string, set<string>>, m: string)
    requires Faithful(nodes, p) && Covered(nodes, p, |nodes|) && Bucketed(p, nodes, |nodes|, members)
    requires m in Leaders(nodes)
    ensures m in members && members[m] == ClassOf(nodes, m)
  {
    RootLeads(nodes, p, m);
    RootMember(nodes, p, members, m);
    forall x | x in members[m]
      ensures x in ClassOf(nodes, m)
    {
      MemberRoot(nodes, p, members, m, x);
      SharingIsLinking(nodes, p, m, x);
    }
    forall x | x in ClassOf(nodes, m)
      ensures x in members[m]
    {
      SharingIsLinking(nodes, p, m, x);
      RootMember(nodes, p, members, x);
    }
  }
}
