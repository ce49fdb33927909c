/** Resampling groups of corpus pages, and the label cover that makes their denominators precise. */
module CorpusGroups {
  import opened KeyOrder
  import opened Lineage
  import SiblingGroups
  import LineageSplits

  /** A corpus entry: its lineage node and the pages it declares. */
  datatype Entry = Entry(node: Node, pages: seq<nat>)

  /** `f"{sha256}:{page}"`. */
  datatype PageKey = PageKey(sha: string, page: nat)

  function Nodes(es: seq<Entry>): (nodes: seq<Node>)
    ensures |nodes| == |es| && forall i :: 0 <= i < |es| ==> nodes[i] == es[i].node
  {
    seq(|es|, i requires 0 <= i < |es| => es[i].node)
  }

  /** `corpus_page_keys`, before sorting. */
  function PageKeys(es: seq<Entry>): set<PageKey> {
    set i, p | 0 <= i < |es| && p in es[i].pages :: PageKey(es[i].node.sha, p)
  }

  /** The group ids declared in a set of keys. */
  function GroupIds(nodes: seq<Node>, keys: set<string>): set<string> {
    set i | 0 <= i < |nodes| && nodes[i].key in keys :: nodes[i].group
  }

  /** The smallest declared group id of a key's lineage class. */
  ghost function Canonical(nodes: seq<Node>, x: string): (g: string)
    requires x in Keys(nodes)
    ensures IsLeast(g, GroupIds(nodes, ClassOf(nodes, x)))
  {
    ClassGroupIds(nodes, x);
    Least(GroupIds(nodes, ClassOf(nodes, x)))
  }

  lemma ClassGroupIds(nodes: seq<Node>, x: string)
    requires x in Keys(nodes)
    ensures GroupIds(nodes, ClassOf(nodes, x)) != {}
  {
    LinkedReflexive(nodes, x);
    var i :| 0 <= i < |nodes| && nodes[i].key == x;
    assert nodes[i].group in GroupIds(nodes, ClassOf(nodes, x));
  }

  /** Canonical ids tell classes apart: two classes never declare the same group id. */
  lemma CanonicalSeparates(nodes: seq<Node>, x: string, y: string)
    requires x in Keys(nodes) && y in Keys(nodes)
    ensures Canonical(nodes, x) == Canonical(nodes, y) <==> Linked(nodes, x, y)
  {
    if Linked(nodes, x, y) {
      ClassesEqual(nodes, x, y);
    }
    if Canonical(nodes, x) == Canonical(nodes, y) {
      var i :| 0 <= i < |nodes| && nodes[i].key in ClassOf(nodes, x) && nodes[i].group == Canonical(nodes, x);
      var j :| 0 <= j < |nodes| && nodes[j].key in ClassOf(nodes, y) && nodes[j].group == Canonical(nodes, y);
      LineageSplits.EntryEdge(nodes, nodes[i], nodes[j]);
      LinkedSymmetric(nodes, y, nodes[j].key);
      LinkedTransitive(nodes, x, nodes[i].key, nodes[j].key);
      LinkedTransitive(nodes, x, nodes[j].key, y);
    }
  }

  type Effective = map<PageKey, string>

  /** The finished mapping: every declared page, under the canonical id of its entry's class. */
  ghost predicate Mapped(es: seq<Entry>, e: Effective) {
    && e.Keys == PageKeys(es)
    && forall i, p {:trigger PageKey(es[i].node.sha, p)} :: 0 <= i < |es| && p in es[i].pages ==>
         es[i].node.key in Keys(Nodes(es)) && e[PageKey(es[i].node.sha, p)] == Canonical(Nodes(es), es[i].node.key)
  }

  /** Two pages share a group exactly when their entries are in one lineage class. */
  lemma PagesGroupedByLineage(es: seq<Entry>, e: Effective, i: nat, p: nat, j: nat, q: nat)
    requires Mapped(es, e) && i < |es| && p in es[i].pages && j < |es| && q in es[j].pages
    ensures PageKey(es[i].node.sha, p) in e && PageKey(es[j].node.sha, q) in e
    ensures e[PageKey(es[i].node.sha, p)] == e[PageKey(es[j].node.sha, q)] <==>
      Linked(Nodes(es), es[i].node.key, es[j].node.key)
  {
    CanonicalSeparates(Nodes(es), es[i].node.key, es[j].node.key);
  }

  /** A page carries the canonical id of some entry with its bytes. */
  ghost predicate Justified(es: seq<Entry>, pk: PageKey, g: string) {
    exists i :: 0 <= i < |es| && es[i].node.sha == pk.sha && pk.page in es[i].pages
      && es[i].node.key in Keys(Nodes(es)) && g == Canonical(Nodes(es), es[i].node.key)
  }

  /** The pages of the entries whose keys are in `done` have been written. */
  ghost predicate Written(es: seq<Entry>, done: set<string>, e: Effective) {
    && (forall pk {:trigger Justified(es, pk, e[pk])} :: pk in e ==> Justified(es, pk, e[pk]))
    && (forall i, p {:trigger PageKey(es[i].node.sha, p)} ::
          0 <= i < |es| && es[i].node.key in done && p in es[i].pages ==> PageKey(es[i].node.sha, p) in e)
  }

  lemma KeyOf(es: seq<Entry>, i: nat)
    requires i < |es|
    ensures es[i].node.key in Keys(Nodes(es))
  {
    assert Nodes(es)[i].key == es[i].node.key;
  }

  /** Entries with the same bytes are one class, so writing a page twice writes the same id. */
  lemma SameBytesSameId(es: seq<Entry>, i: nat, j: nat)
    requires i < |es| && j < |es| && es[i].node.sha == es[j].node.sha
    ensures es[i].node.key in Keys(Nodes(es)) && es[j].node.key in Keys(Nodes(es))
    ensures Canonical(Nodes(es), es[i].node.key) == Canonical(Nodes(es), es[j].node.key)
  {
    KeyOf(es, i);
    KeyOf(es, j);
    var nodes := Nodes(es);
    LineageSplits.EntryEdge(nodes, nodes[i], nodes[j]);
    CanonicalSeparates(nodes, es[i].node.key, es[j].node.key);
  }

  lemma WrittenIsMapped(es: seq<Entry>, e: Effective)
    requires Written(es, Keys(Nodes(es)), e)
    ensures Mapped(es, e)
  {
    forall i, p | 0 <= i < |es| && p in es[i].pages
      ensures PageKey(es[i].node.sha, p) in e && es[i].node.key in Keys(Nodes(es))
      ensures e[PageKey(es[i].node.sha, p)] == Canonical(Nodes(es), es[i].node.key)
    {
      KeyOf(es, i);
      var pk := PageKey(es[i].node.sha, p);
      assert Justified(es, pk, e[pk]);
      var j :| 0 <= j < |es| && es[j].node.sha == pk.sha && pk.page in es[j].pages
        && es[j].node.key in Keys(Nodes(es)) && e[pk] == Canonical(Nodes(es), es[j].node.key);
      SameBytesSameId(es, i, j);
    }
    forall pk | pk in e
      ensures pk in PageKeys(es)
    {
      assert Justified(es, pk, e[pk]);
    }
  }

  method WritePages(es: seq<Entry>, i: nat, canonical: string, ghost done: set<string>, before: Effective)
    returns (after: Effective)
    requires i < |es| && Written(es, done, before) && LineageSplits.DistinctKeys(Nodes(es))
    requires es[i].node.key in Keys(Nodes(es)) && canonical == Canonical(Nodes(es), es[i].node.key)
    ensures Written(es, done + {es[i].node.key}, after)
  {
    after := before;
    var pages := es[i].pages;
    for k := 0 to |pages|
      invariant Written(es, done, after)
      invariant forall q :: 0 <= q < k ==> PageKey(es[i].node.sha, pages[q]) in after
    {
      var pk := PageKey(es[i].node.sha, pages[k]);
      ghost var older := after;
      after := after[pk := canonical];
      forall x | x in after
        ensures Justified(es, x, after[x])
      {
        assert x != pk ==> Justified(es, x, older[x]);
      }
    }
    forall j | 0 <= j < |es| && es[j].node.key == es[i].node.key
      ensures j == i
    {
      LineageSplits.SameKeySamePlace(Nodes(es), i, j);
    }
  }

  function SetOf(q: seq<string>): set<string> {
    set m | m in q
  }

  lemma SetOfOneMore(q: seq<string>, k: nat)
    requires k < |q|
    ensures SetOf(q[..k + 1]) == SetOf(q[..k]) + {q[k]}
  {
    assert q[..k + 1] == q[..k] + [q[k]];
  }

  /** All pages of one lineage group. */
  method WriteGroup(es: seq<Entry>, members: seq<string>, canonical: string, ghost done: set<string>, before: Effective)
    returns (after: Effective)
    requires Written(es, done, before) && LineageSplits.DistinctKeys(Nodes(es))
    requires forall m :: m in members ==> m in Keys(Nodes(es)) && canonical == Canonical(Nodes(es), m)
    ensures Written(es, done + SetOf(members), after)
  {
    after := before;
    for k := 0 to |members|
      invariant Written(es, done + SetOf(members[..k]), after)
    {
      assert members[k] in members;
      var i :| 0 <= i < |es| && Nodes(es)[i].key == members[k];
      after := WritePages(es, i, canonical, done + SetOf(members[..k]), after);
      SetOfOneMore(members, k);
      assert done + SetOf(members[..k + 1]) == done + SetOf(members[..k]) + {members[k]};
    }
    assert members[..|members|] == members;
  }

  /** The pages of the lineage groups up to the `g`-th. */
  method WriteGroups(es: seq<Entry>, groups: Groups) returns (e: Effective)
    requires LineageSplits.DistinctKeys(Nodes(es)) && groups == Grouping(Nodes(es))
    ensures Written(es, LineageSplits.Members(groups), e)
  {
    e := map[];
    for g := 0 to |groups|
      invariant Written(es, LineageSplits.Members(groups[..g]), e)
    {
      GroupCanonical(Nodes(es), g);
      MembersOneMore(groups, g);
      var canonical := Least(GroupIds(Nodes(es), SetOf(groups[g].1)));
      e := WriteGroup(es, groups[g].1, canonical, LineageSplits.Members(groups[..g]), e);
    }
    assert groups[..|groups|] == groups;
  }

  /** `corpus_groups`, for a manifest whose keys are distinct, as its validator requires. */
  method CorpusGroupsOf(es: seq<Entry>) returns (e: Effective)
    requires LineageSplits.DistinctKeys(Nodes(es))
    ensures Mapped(es, e)
  {
    var groups := SiblingGroups.Compute(Nodes(es));
    e := WriteGroups(es, groups);
    AllMembers(Nodes(es));
    WrittenIsMapped(es, e);
  }

  lemma MembersOneMore(groups: Groups, g: nat)
    requires g < |groups|
    ensures LineageSplits.Members(groups[..g + 1]) == LineageSplits.Members(groups[..g]) + SetOf(groups[g].1)
  {
    var before, after := groups[..g], groups[..g + 1];
    assert forall i :: 0 <= i < g ==> after[i] == before[i];
    assert after[g] == groups[g];
  }

  lemma MemberOfSome(nodes: seq<Node>, x: string)
    requires x in LineageSplits.Members(Grouping(nodes))
    ensures x in Keys(nodes)
  {
    var i :| 0 <= i < |Grouping(nodes)| && x in Grouping(nodes)[i].1;
    GroupMember(nodes, i, x);
  }

  lemma SomeMemberOf(nodes: seq<Node>, x: string)
    requires x in Keys(nodes)
    ensures x in LineageSplits.Members(Grouping(nodes))
  {
    GroupingPartitions(nodes, x);
    var i :| InGroup(Grouping(nodes), i, x);
  }

  lemma AllMembers(nodes: seq<Node>)
    ensures LineageSplits.Members(Grouping(nodes)) == Keys(nodes)
  {
    forall x | x in LineageSplits.Members(Grouping(nodes))
      ensures x in Keys(nodes)
    {
      MemberOfSome(nodes, x);
    }
    forall x | x in Keys(nodes)
      ensures x in LineageSplits.Members(Grouping(nodes))
    {
      SomeMemberOf(nodes, x);
    }
  }

  lemma GroupIsClass(nodes: seq<Node>, g: nat)
    requires g < |Grouping(nodes)|
    ensures var (leader, members) := Grouping(nodes)[g];
      && leader in Keys(nodes) && SetOf(members) == ClassOf(nodes, leader)
      && GroupIds(nodes, ClassOf(nodes, leader)) != {}
  {
    var leader := Grouping(nodes)[g].0;
    assert leader in Sorted(Leaders(nodes));
    ClassGroupIds(nodes, leader);
  }

  lemma MemberCanonical(nodes: seq<Node>, g: nat, m: string, canonical: string)
    requires g < |Grouping(nodes)| && m in Grouping(nodes)[g].1
    requires IsLeast(canonical, GroupIds(nodes, ClassOf(nodes, Grouping(nodes)[g].0)))
    ensures m in Keys(nodes) && canonical == Canonical(nodes, m)
  {
    GroupIsClass(nodes, g);
    var leader := Grouping(nodes)[g].0;
    ClassesEqual(nodes, leader, m);
    LeastUnique(GroupIds(nodes, ClassOf(nodes, m)), canonical, Canonical(nodes, m));
  }

  lemma GroupCanonical(nodes: seq<Node>, g: nat)
    requires g < |Grouping(nodes)|
    ensures var ids := GroupIds(nodes, SetOf(Grouping(nodes)[g].1));
      ids != {} && forall m :: m in Grouping(nodes)[g].1 ==> m in Keys(nodes) && Canonical(nodes, m) == Least(ids)
  {
    GroupIsClass(nodes, g);
    var canonical := Least(GroupIds(nodes, SetOf(Grouping(nodes)[g].1)));
    forall m | m in Grouping(nodes)[g].1
      ensures m in Keys(nodes) && Canonical(nodes, m) == canonical
    {
      MemberCanonical(nodes, g, m, canonical);
    }
  }
}
