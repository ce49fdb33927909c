/** Sibling clusters of corpus entries: what they are, and how the code computes them. */
module Lineage {
  import opened Folding
  import opened KeyOrder

  /** An entry after `_normalize_entry`. */
  datatype Node = Node(key: string, sha: string, group: string, controls: set<string>)

  function Keys(nodes: seq<Node>): set<string> {
    set i | 0 <= i < |nodes| :: nodes[i].key
  }

  /** The three lineage edges: one declared group, the same bytes, or a control reference. */
  predicate Edge(m: Node, n: Node) {
    m.group == n.group || m.sha == n.sha || n.key in m.controls
  }

  predicate KeyEdge(nodes: seq<Node>, x: string, y: string) {
    exists i, j :: 0 <= i < |nodes| && 0 <= j < |nodes|
      && nodes[i].key == x && nodes[j].key == y && Edge(nodes[i], nodes[j])
  }

  /** A walk along edges in either direction. */
  predicate Walk(nodes: seq<Node>, w: seq<string>) {
    && w != []
    && (forall i :: 0 <= i < |w| ==> w[i] in Keys(nodes))
    && (forall i :: 1 <= i < |w| ==> Touch(nodes, w[i - 1], w[i]))
  }

  predicate Touch(nodes: seq<Node>, x: string, y: string) {
    KeyEdge(nodes, x, y) || KeyEdge(nodes, y, x)
  }

  /** The reflexive, symmetric and transitive closure of the edges. */
  ghost predicate Linked(nodes: seq<Node>, x: string, y: string) {
    forall k {:trigger Unfolded(k)} :: Unfolded(k) ==> exists w :: Walk(nodes, w) && w[0] == x && w[|w| - 1] == y
  }

  lemma WalkOf(nodes: seq<Node>, x: string, y: string) returns (w: seq<string>)
    requires Linked(nodes, x, y)
    ensures Walk(nodes, w) && w[0] == x && w[|w| - 1] == y
  {
    assert Unfolded(0);
    w :| Walk(nodes, w) && w[0] == x && w[|w| - 1] == y;
  }

  lemma WalkLinks(nodes: seq<Node>, w: seq<string>)
    requires Walk(nodes, w)
    ensures Linked(nodes, w[0], w[|w| - 1])
  {
  }

  lemma LinkedReflexive(nodes: seq<Node>, x: string)
    requires x in Keys(nodes)
    ensures Linked(nodes, x, x)
  {
    WalkLinks(nodes, [x]);
  }

  lemma LinkedEdge(nodes: seq<Node>, x: string, y: string)
    requires KeyEdge(nodes, x, y)
    ensures Linked(nodes, x, y)
  {
    WalkLinks(nodes, [x, y]);
  }

  function Reverse(w: seq<string>): (r: seq<string>)
    ensures |r| == |w| && forall i :: 0 <= i < |w| ==> r[i] == w[|w| - 1 - i]
  {
    if w == [] then [] else Reverse(w[1..]) + [w[0]]
  }

  lemma LinkedSymmetric(nodes: seq<Node>, x: string, y: string)
    requires Linked(nodes, x, y)
    ensures Linked(nodes, y, x)
  {
    var w := WalkOf(nodes, x, y);
    var r := Reverse(w);
    forall i | 1 <= i < |r|
      ensures Touch(nodes, r[i - 1], r[i])
    {
      assert Touch(nodes, w[|w| - 1 - i], w[|w| - i]);
    }
    WalkLinks(nodes, r);
  }

  lemma LinkedTransitive(nodes: seq<Node>, x: string, y: string, z: string)
    requires Linked(nodes, x, y) && Linked(nodes, y, z)
    ensures Linked(nodes, x, z)
  {
    var v := WalkOf(nodes, x, y);
    var w := WalkOf(nodes, y, z);
    var u := v + w[1..];
    forall i | 1 <= i < |u|
      ensures Touch(nodes, u[i - 1], u[i])
    {
      if i < |v| {
        assert Touch(nodes, v[i - 1], v[i]);
      } else {
        assert Touch(nodes, w[i - |v|], w[i - |v| + 1]);
      }
    }
    WalkLinks(nodes, u);
  }

  lemma LinkedInKeys(nodes: seq<Node>, x: string, y: string)
    requires Linked(nodes, x, y)
    ensures x in Keys(nodes) && y in Keys(nodes)
  {
    var w := WalkOf(nodes, x, y);
  }

  /** The lineage class of a key. */
  ghost function ClassOf(nodes: seq<Node>, x: string): set<string> {
    set y | y in Keys(nodes) && Linked(nodes, x, y)
  }

  /** Keys that are least in their class: one per class. */
  ghost function Leaders(nodes: seq<Node>): set<string> {
    set x | x in Keys(nodes) && forall y :: y in ClassOf(nodes, x) ==> Leq(x, y)
  }

  type Groups = seq<(string, seq<string>)>

  /** The clusters, each under its least member, in key order, members in key order. */
  ghost function Grouping(nodes: seq<Node>): (g: Groups)
    ensures |g| == |Sorted(Leaders(nodes))|
    ensures forall i :: 0 <= i < |g| ==> g[i] == (Sorted(Leaders(nodes))[i], Sorted(ClassOf(nodes, g[i].0)))
  {
    var leaders := Sorted(Leaders(nodes));
    seq(|leaders|, i requires 0 <= i < |leaders| => (leaders[i], Sorted(ClassOf(nodes, leaders[i]))))
  }

  lemma ClassesEqual(nodes: seq<Node>, x: string, y: string)
    requires Linked(nodes, x, y)
    ensures ClassOf(nodes, x) == ClassOf(nodes, y)
  {
    LinkedSymmetric(nodes, x, y);
    forall z | z in Keys(nodes)
      ensures Linked(nodes, x, z) <==> Linked(nodes, y, z)
    {
      if Linked(nodes, x, z) { LinkedTransitive(nodes, y, x, z); }
      if Linked(nodes, y, z) { LinkedTransitive(nodes, x, y, z); }
    }
  }

  /** The leader of a key's class. */
  lemma LeaderOf(nodes: seq<Node>, x: string) returns (m: string)
    requires x in Keys(nodes)
    ensures m in Leaders(nodes) && Linked(nodes, m, x) && ClassOf(nodes, m) == ClassOf(nodes, x)
  {
    LinkedReflexive(nodes, x);
    assert x in ClassOf(nodes, x);
    m := Least(ClassOf(nodes, x));
    ClassesEqual(nodes, x, m);
    LinkedSymmetric(nodes, x, m);
  }

  predicate InGroup(g: Groups, i: int, x: string) {
    0 <= i < |g| && x in g[i].1
  }

  lemma GroupOf(nodes: seq<Node>, x: string) returns (i: nat)
    requires x in Keys(nodes)
    ensures InGroup(Grouping(nodes), i, x)
  {
    var m := LeaderOf(nodes, x);
    i :| 0 <= i < |Sorted(Leaders(nodes))| && Sorted(Leaders(nodes))[i] == m;
  }

  lemma OneGroup(nodes: seq<Node>, i: nat, j: nat, x: string)
    requires InGroup(Grouping(nodes), i, x) && InGroup(Grouping(nodes), j, x)
    ensures i == j
  {
    GroupMember(nodes, i, x);
    GroupMember(nodes, j, x);
    assert Sorted(Leaders(nodes))[i] == Sorted(Leaders(nodes))[j];
  }

  /** Each key is in exactly one cluster, whose key is its least member; two keys share a cluster
      exactly when a walk joins them. */
  lemma GroupingPartitions(nodes: seq<Node>, x: string)
    ensures x in Keys(nodes) <==> exists i :: InGroup(Grouping(nodes), i, x)
    ensures forall i, j :: InGroup(Grouping(nodes), i, x) && InGroup(Grouping(nodes), j, x) ==> i == j
    ensures forall i, y :: InGroup(Grouping(nodes), i, x) ==> (y in Grouping(nodes)[i].1 <==> Linked(nodes, x, y))
    ensures forall i :: InGroup(Grouping(nodes), i, x) ==> Leq(Grouping(nodes)[i].0, x)
  {
    var g := Grouping(nodes);
    if x in Keys(nodes) {
      var i := GroupOf(nodes, x);
    }
    forall i | InGroup(g, i, x)
      ensures x in Keys(nodes) && Leq(g[i].0, x)
      ensures forall y :: y in g[i].1 <==> Linked(nodes, x, y)
    {
      GroupMember(nodes, i, x);
    }
    forall i, j | InGroup(g, i, x) && InGroup(g, j, x)
      ensures i == j
    {
      OneGroup(nodes, i, j, x);
    }
  }

  lemma GroupMember(nodes: seq<Node>, i: nat, x: string)
    requires InGroup(Grouping(nodes), i, x)
    ensures x in Keys(nodes) && Leq(Grouping(nodes)[i].0, x)
    ensures forall y :: y in Grouping(nodes)[i].1 <==> Linked(nodes, x, y)
    ensures ClassOf(nodes, x) != {} && Grouping(nodes)[i].0 == Least(ClassOf(nodes, x))
  {
    var m := Grouping(nodes)[i].0;
    assert m in Leaders(nodes) && x in ClassOf(nodes, m);
    ClassesEqual(nodes, m, x);
    LinkedReflexive(nodes, x);
    LinkedReflexive(nodes, m);
    LeastUnique(ClassOf(nodes, x), m, Least(ClassOf(nodes, x)));
    forall y
      ensures y in Sorted(ClassOf(nodes, x)) <==> Linked(nodes, x, y)
    {
      if Linked(nodes, x, y) {
        LinkedInKeys(nodes, x, y);
      }
    }
  }

  /** The clusters do not depend on the order of the entries. */
  lemma GroupingOrderFree(a: seq<Node>, b: seq<Node>)
    requires multiset(a) == multiset(b)
    ensures Grouping(a) == Grouping(b)
  {
    SameLinks(a, b);
    SameLinks(b, a);
    assert Keys(a) == Keys(b);
    assert forall x, y :: Linked(a, x, y) <==> Linked(b, x, y);
    assert forall x :: ClassOf(a, x) == ClassOf(b, x);
    assert Leaders(a) == Leaders(b);
  }

  lemma SameLinks(a: seq<Node>, b: seq<Node>)
    requires multiset(a) == multiset(b)
    ensures Keys(a) <= Keys(b)
    ensures forall x, y :: Linked(a, x, y) ==> Linked(b, x, y)
  {
    forall x | x in Keys(a)
      ensures x in Keys(b)
    {
      var i :| 0 <= i < |a| && a[i].key == x;
      var i' := Elsewhere(a, b, i);
    }
    forall x, y | KeyEdge(a, x, y)
      ensures KeyEdge(b, x, y)
    {
      var i, j :| 0 <= i < |a| && 0 <= j < |a| && a[i].key == x && a[j].key == y && Edge(a[i], a[j]);
      var i' := Elsewhere(a, b, i);
      var j' := Elsewhere(a, b, j);
    }
    forall x, y | Linked(a, x, y)
      ensures Linked(b, x, y)
    {
      var w := WalkOf(a, x, y);
      WalkLinks(b, w);
    }
  }

  lemma Elsewhere(a: seq<Node>, b: seq<Node>, i: nat) returns (j: nat)
    requires multiset(a) == multiset(b) && i < |a|
    ensures j < |b| && b[j] == a[i]
  {
    assert a[i] in multiset(a);
    assert a[i] in b;
    j :| 0 <= j < |b| && b[j] == a[i];
  }
}
