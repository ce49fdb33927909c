/** The leak audit, grouped assignment, and the two together. */
module LineageSplits {
  import opened Outcome
  import opened KeyOrder
  import opened Lineage
  import SiblingGroups

  const SPLITS: set<string> := {"development", "public_demo", "evaluation", "permissioned"}

  datatype LeakageError = UnknownSplit(name: string) | DuplicateKey

  datatype Tagged = Tagged(node: Node, split: string)

  /** One lineage group in several splits; `preview` holds its first four members. */
  datatype Violation = Straddles(splits: seq<string>, preview: seq<string>, more: bool)

  type Manifests = map<string, seq<Node>>

  function Tag(split: string, nodes: seq<Node>): seq<Tagged> {
    seq(|nodes|, i requires 0 <= i < |nodes| => Tagged(nodes[i], split))
  }

  /** The entries of the named splits, in order, each tagged with its split. */
  function Flatten(m: Manifests, names: seq<string>): seq<Tagged> {
    if names == [] then []
    else Flatten(m, names[..|names| - 1])
         + (var s := names[|names| - 1]; if s in m then Tag(s, m[s]) else [])
  }

  function Nodes(ts: seq<Tagged>): (nodes: seq<Node>)
    ensures |nodes| == |ts| && forall i :: 0 <= i < |ts| ==> nodes[i] == ts[i].node
  {
    seq(|ts|, i requires 0 <= i < |ts| => ts[i].node)
  }

  predicate DistinctKeys(nodes: seq<Node>) {
    forall i, j {:trigger nodes[i].key, nodes[j].key} :: 0 <= i < j < |nodes| ==> nodes[i].key != nodes[j].key
  }

  /** No lineage edge joins entries of different splits. */
  predicate NoEdgeCrosses(ts: seq<Tagged>) {
    forall i, j {:trigger Edge(ts[i].node, ts[j].node)} ::
      0 <= i < |ts| && 0 <= j < |ts| && Edge(ts[i].node, ts[j].node) ==> ts[i].split == ts[j].split
  }

  type SplitOf = map<string, string>

  /** `{n["key"]: n}`, of which only the split is read. */
  predicate KeyTable(ts: seq<Tagged>, table: SplitOf) {
    && (forall i :: 0 <= i < |ts| ==> ts[i].node.key in table)
    && (forall k :: k in table ==> exists i :: 0 <= i < |ts| && ts[i].node.key == k && ts[i].split == table[k])
  }

  function SplitsIn(table: SplitOf, members: seq<string>): set<string> {
    set m | m in members && m in table :: table[m]
  }

  /** The violation a group contributes, if any. */
  function Judged(table: SplitOf, members: seq<string>): seq<Violation> {
    var splits := Sorted(SplitsIn(table, members));
    if |splits| > 1 then [Straddles(splits, if |members| > 4 then members[..4] else members, |members| > 4)] else []
  }

  function Joined<T>(parts: seq<seq<T>>): seq<T> {
    if parts == [] then [] else Joined(parts[..|parts| - 1]) + parts[|parts| - 1]
  }

  predicate AllEmpty<T>(parts: seq<seq<T>>) {
    forall i :: 0 <= i < |parts| ==> |parts[i]| == 0
  }

  lemma AllEmptySplits<T>(parts: seq<seq<T>>)
    requires parts != []
    ensures AllEmpty(parts) <==> AllEmpty(parts[..|parts| - 1]) && |parts[|parts| - 1]| == 0
  {
  }

  lemma {:induction false} JoinedEmpty<T>(parts: seq<seq<T>>)
    ensures |Joined(parts)| == 0 <==> AllEmpty(parts)
  {
    if parts != [] {
      JoinedEmpty(parts[..|parts| - 1]);
      AllEmptySplits(parts);
    }
  }

  function Judgements(table: SplitOf, groups: Groups): (r: seq<seq<Violation>>)
    ensures |r| == |groups| && forall i :: 0 <= i < |groups| ==> r[i] == Judged(table, groups[i].1)
  {
    seq(|groups|, i requires 0 <= i < |groups| => Judged(table, groups[i].1))
  }

  /** One violation per straddling group, in group order. */
  function JudgedAll(table: SplitOf, groups: Groups): seq<Violation> {
    Joined(Judgements(table, groups))
  }

  predicate SingleSplit(table: SplitOf, members: seq<string>) {
    |SplitsIn(table, members)| <= 1
  }

  predicate AllSingle(table: SplitOf, groups: Groups) {
    forall i :: 0 <= i < |groups| ==> SingleSplit(table, groups[i].1)
  }

  lemma JudgedEmpty(table: SplitOf, members: seq<string>)
    ensures Judged(table, members) == [] <==> SingleSplit(table, members)
  {
  }

  lemma JudgedAllEmpty(table: SplitOf, groups: Groups)
    ensures JudgedAll(table, groups) == [] <==> AllSingle(table, groups)
  {
    JoinedEmpty(Judgements(table, groups));
    forall i | 0 <= i < |groups|
      ensures Judgements(table, groups)[i] == [] <==> SingleSplit(table, groups[i].1)
    {
      JudgedEmpty(table, groups[i].1);
    }
  }

  lemma AtMostOne(s: set<string>, x: string, y: string)
    requires |s| <= 1 && x in s && y in s
    ensures x == y
  {
    assert |s - {x}| == |s| - 1;
    assert y != x ==> y in s - {x};
  }

  lemma OnlyOne(s: set<string>, x: string)
    requires forall y :: y in s ==> y == x
    ensures |s| <= 1
  {
    assert s <= {x};
    assert s == {} || s == {x};
  }

  /** Keys joined by a walk share their split when no edge crosses. */
  lemma {:induction false} WalkKeepsSplit(ts: seq<Tagged>, table: SplitOf, w: seq<string>)
    requires DistinctKeys(Nodes(ts)) && KeyTable(ts, table) && NoEdgeCrosses(ts) && Walk(Nodes(ts), w)
    ensures w[0] in table && w[|w| - 1] in table && table[w[0]] == table[w[|w| - 1]]
  {
    KeyInTable(ts, table, w[0]);
    if |w| > 1 {
      var v := w[..|w| - 1];
      assert Walk(Nodes(ts), v) by {
        forall i | 1 <= i < |v|
          ensures Touch(Nodes(ts), v[i - 1], v[i])
        {
          assert Touch(Nodes(ts), w[i - 1], w[i]);
        }
      }
      WalkKeepsSplit(ts, table, v);
      assert Touch(Nodes(ts), w[|w| - 2], w[|w| - 1]);
      if KeyEdge(Nodes(ts), w[|w| - 2], w[|w| - 1]) {
        EdgeKeepsSplit(ts, table, w[|w| - 2], w[|w| - 1]);
      } else {
        EdgeKeepsSplit(ts, table, w[|w| - 1], w[|w| - 2]);
      }
    }
  }

  lemma KeyInTable(ts: seq<Tagged>, table: SplitOf, k: string)
    requires KeyTable(ts, table) && k in Keys(Nodes(ts))
    ensures k in table
  {
    var i :| 0 <= i < |Nodes(ts)| && Nodes(ts)[i].key == k;
    assert ts[i].node.key in table;
  }

  lemma SameKeySamePlace(nodes: seq<Node>, i: nat, j: nat)
    requires DistinctKeys(nodes) && i < |nodes| && j < |nodes| && nodes[i].key == nodes[j].key
    ensures i == j
  {
  }

  lemma SplitAt(ts: seq<Tagged>, table: SplitOf, i: nat)
    requires DistinctKeys(Nodes(ts)) && KeyTable(ts, table) && i < |ts|
    ensures ts[i].node.key in table && table[ts[i].node.key] == ts[i].split
  {
    var k := ts[i].node.key;
    var j :| 0 <= j < |ts| && ts[j].node.key == k && ts[j].split == table[k];
    SameKeySamePlace(Nodes(ts), i, j);
  }

  lemma EdgeKeepsSplit(ts: seq<Tagged>, table: SplitOf, x: string, y: string)
    requires DistinctKeys(Nodes(ts)) && KeyTable(ts, table) && NoEdgeCrosses(ts) && KeyEdge(Nodes(ts), x, y)
    ensures x in table && y in table && table[x] == table[y]
  {
    var i, j :| 0 <= i < |ts| && 0 <= j < |ts| && Nodes(ts)[i].key == x && Nodes(ts)[j].key == y
      && Edge(Nodes(ts)[i], Nodes(ts)[j]);
    assert Edge(ts[i].node, ts[j].node);
    SplitAt(ts, table, i);
    SplitAt(ts, table, j);
  }

  lemma GroupsKeepSplit(ts: seq<Tagged>, table: SplitOf)
    requires DistinctKeys(Nodes(ts)) && KeyTable(ts, table) && NoEdgeCrosses(ts)
    ensures AllSingle(table, Grouping(Nodes(ts)))
  {
    forall i | 0 <= i < |Grouping(Nodes(ts))|
      ensures SingleSplit(table, Grouping(Nodes(ts))[i].1)
    {
      GroupKeepsSplit(ts, table, i);
    }
  }

  lemma SingleGroupsUncrossed(ts: seq<Tagged>, table: SplitOf)
    requires DistinctKeys(Nodes(ts)) && KeyTable(ts, table) && AllSingle(table, Grouping(Nodes(ts)))
    ensures NoEdgeCrosses(ts)
  {
    forall i, j | 0 <= i < |ts| && 0 <= j < |ts| && Edge(ts[i].node, ts[j].node)
      ensures ts[i].split == ts[j].split
    {
      OneGroupOneSplit(ts, table, i, j);
    }
  }

  /** The audit is silent exactly when no single edge crosses. */
  lemma SilentExactly(ts: seq<Tagged>, table: SplitOf)
    requires DistinctKeys(Nodes(ts)) && KeyTable(ts, table)
    ensures JudgedAll(table, Grouping(Nodes(ts))) == [] <==> NoEdgeCrosses(ts)
  {
    JudgedAllEmpty(table, Grouping(Nodes(ts)));
    if NoEdgeCrosses(ts) {
      GroupsKeepSplit(ts, table);
    }
    if AllSingle(table, Grouping(Nodes(ts))) {
      SingleGroupsUncrossed(ts, table);
    }
  }

  lemma GroupKeepsSplit(ts: seq<Tagged>, table: SplitOf, i: nat)
    requires DistinctKeys(Nodes(ts)) && KeyTable(ts, table) && NoEdgeCrosses(ts) && i < |Grouping(Nodes(ts))|
    ensures SingleSplit(table, Grouping(Nodes(ts))[i].1)
  {
    var (leader, members) := Grouping(Nodes(ts))[i];
    assert leader in Sorted(Leaders(Nodes(ts)));
    LinkedReflexive(Nodes(ts), leader);
    KeyInTable(ts, table, leader);
    forall s | s in SplitsIn(table, members)
      ensures s == table[leader]
    {
      var m :| m in members && m in table && table[m] == s;
      var w := WalkOf(Nodes(ts), leader, m);
      WalkKeepsSplit(ts, table, w);
    }
    OnlyOne(SplitsIn(table, members), table[leader]);
  }

  lemma OneGroupOneSplit(ts: seq<Tagged>, table: SplitOf, i: nat, j: nat)
    requires DistinctKeys(Nodes(ts)) && KeyTable(ts, table)
    requires i < |ts| && j < |ts| && Edge(ts[i].node, ts[j].node)
    requires AllSingle(table, Grouping(Nodes(ts)))
    ensures ts[i].split == ts[j].split
  {
    var nodes, x, y := Nodes(ts), ts[i].node.key, ts[j].node.key;
    assert Edge(nodes[i], nodes[j]) && KeyEdge(nodes, x, y);
    LinkedEdge(nodes, x, y);
    GroupingPartitions(nodes, x);
    var k :| InGroup(Grouping(nodes), k, x);
    assert y in Grouping(nodes)[k].1;
    SplitAt(ts, table, i);
    SplitAt(ts, table, j);
    AtMostOne(SplitsIn(table, Grouping(nodes)[k].1), table[x], table[y]);
  }

  // ----- `split_violations` -----

  lemma DistinctOneMore(front: seq<Node>, last: Node)
    ensures DistinctKeys(front + [last]) <==> DistinctKeys(front) && last.key !in Keys(front)
  {
    var nodes := front + [last];
    if DistinctKeys(nodes) {
      assert forall i :: 0 <= i < |front| ==> nodes[i] == front[i] && nodes[i].key != nodes[|front|].key;
    }
    if DistinctKeys(front) && last.key !in Keys(front) {
      assert forall i :: 0 <= i < |front| ==> front[i].key in Keys(front);
    }
  }

  lemma {:induction false} KeyCount(nodes: seq<Node>)
    ensures |Keys(nodes)| <= |nodes| && (|Keys(nodes)| == |nodes| <==> DistinctKeys(nodes))
  {
    if nodes == [] {
      assert Keys(nodes) == {};
    } else {
      var front, last := nodes[..|nodes| - 1], nodes[|nodes| - 1];
      KeyCount(front);
      SiblingGroups.KeysOneMore(nodes, |front|);
      assert nodes[..|front| + 1] == nodes == front + [last];
      DistinctOneMore(front, last);
    }
  }

  method TableOf(ts: seq<Tagged>) returns (table: SplitOf)
    ensures KeyTable(ts, table) && table.Keys == Keys(Nodes(ts))
  {
    table := map[];
    for i := 0 to |ts|
      invariant forall j :: 0 <= j < i ==> ts[j].node.key in table
      invariant forall k :: k in table ==> exists j :: 0 <= j < i && ts[j].node.key == k && ts[j].split == table[k]
    {
      table := table[ts[i].node.key := ts[i].split];
    }
    TableKeys(ts, table);
  }

  lemma TableKeys(ts: seq<Tagged>, table: SplitOf)
    requires KeyTable(ts, table)
    ensures table.Keys == Keys(Nodes(ts))
  {
    forall k | k in table
      ensures k in Keys(Nodes(ts))
    {
      var i :| 0 <= i < |ts| && ts[i].node.key == k;
      assert Nodes(ts)[i].key == k;
    }
    forall k | k in Keys(Nodes(ts))
      ensures k in table
    {
      KeyInTable(ts, table, k);
    }
  }

  /** All entries, split after split in name order. */
  function Everything(m: Manifests): seq<Tagged> {
    Flatten(m, Sorted(m.Keys))
  }

  predicate AllAllowed(names: seq<string>) {
    forall j :: 0 <= j < |names| ==> names[j] in SPLITS
  }

  lemma NamesAllowed(m: Manifests)
    ensures AllAllowed(Sorted(m.Keys)) <==> m.Keys <= SPLITS
  {
    var names := Sorted(m.Keys);
    if AllAllowed(names) {
      forall k | k in m
        ensures k in SPLITS
      {
        assert k in names;
      }
    }
    if m.Keys <= SPLITS {
      forall j | 0 <= j < |names|
        ensures names[j] in SPLITS
      {
        assert names[j] in names;
      }
    }
  }

  method TagNames(m: Manifests, names: seq<string>) returns (r: Result<seq<Tagged>, LeakageError>)
    requires forall j :: 0 <= j < |names| ==> names[j] in m
    ensures r.Success? <==> AllAllowed(names)
    ensures r.Success? ==> r.value == Flatten(m, names)
    ensures r.Failure? ==> r.error.UnknownSplit?
  {
    var tagged := [];
    for i := 0 to |names|
      invariant tagged == Flatten(m, names[..i])
      invariant AllAllowed(names[..i])
    {
      var split := names[i];
      if split !in SPLITS {
        return Failure(UnknownSplit(split));
      }
      assert names[..i + 1] == names[..i] + [split];
      assert names[..i + 1][..i] == names[..i];
      tagged := tagged + Tag(split, m[split]);
    }
    assert names[..|names|] == names;
    r := Success(tagged);
  }

  method TagAll(m: Manifests) returns (r: Result<seq<Tagged>, LeakageError>)
    ensures r.Success? <==> m.Keys <= SPLITS
    ensures r.Success? ==> r.value == Everything(m)
    ensures r.Failure? ==> r.error.UnknownSplit?
  {
    NamesAllowed(m);
    var names := Sorted(m.Keys);
    assert forall j :: 0 <= j < |names| ==> names[j] in names;
    r := TagNames(m, names);
  }

  method JudgeAll(table: SplitOf, groups: Groups) returns (violations: seq<Violation>)
    ensures violations == JudgedAll(table, groups)
  {
    violations := [];
    for i := 0 to |groups|
      invariant violations == JudgedAll(table, groups[..i])
    {
      JudgedOneMore(table, groups, i);
      violations := violations + Judged(table, groups[i].1);
    }
    assert groups[..|groups|] == groups;
  }

  /** Silent exactly when no single lineage edge crosses splits; otherwise one violation for each
      group that straddles, in group order. */
  method SplitViolations(m: Manifests) returns (r: Result<seq<Violation>, LeakageError>)
    ensures r.Success? <==> m.Keys <= SPLITS && DistinctKeys(Nodes(Everything(m)))
    ensures r.Success? ==> (r.value == [] <==> NoEdgeCrosses(Everything(m)))
    ensures r.Success? ==> exists table ::
      KeyTable(Everything(m), table) && r.value == JudgedAll(table, Grouping(Nodes(Everything(m))))
  {
    var tagged := TagAll(m);
    if tagged.Failure? {
      return Failure(tagged.error);
    }
    var ts := tagged.value;
    var table := TableOf(ts);
    KeyCount(Nodes(ts));
    assert |table| == |table.Keys|;
    if |table| != |ts| {
      return Failure(DuplicateKey);
    }
    var groups := SiblingGroups.Compute(Nodes(ts));
    var violations := JudgeAll(table, groups);
    SilentExactly(ts, table);
    r := Success(violations);
  }

  lemma JudgedOneMore(table: SplitOf, groups: Groups, i: nat)
    requires i < |groups|
    ensures JudgedAll(table, groups[..i + 1]) == JudgedAll(table, groups[..i]) + Judged(table, groups[i].1)
  {
    var parts := Judgements(table, groups[..i + 1]);
    assert parts[..i] == Judgements(table, groups[..i]);
  }

  // ----- `assign_grouped` -----

  datatype ChoiceError = EmptyChoice

  function Members(groups: Groups): set<string> {
    set i, m | 0 <= i < |groups| && m in groups[i].1 :: m
  }

  /** Later groups overwrite earlier ones, should they share a member. */
  predicate LastGroup(groups: Groups, i: int, m: string) {
    InGroup(groups, i, m) && forall j :: i < j < |groups| ==> m !in groups[j].1
  }

  /** Every member gets the draw made for its group, whatever the draws are. */
  ghost predicate DrawnByGroup(groups: Groups, splits: seq<string>, draws: nat -> nat, a: SplitOf) {
    && splits != []
    && a.Keys == Members(groups)
    && forall i, m {:trigger LastGroup(groups, i, m)} :: LastGroup(groups, i, m) ==> a[m] == splits[draws(i) % |splits|]
  }

  method AssignMembers(before: SplitOf, members: seq<string>, chosen: string) returns (after: SplitOf)
    ensures after.Keys == before.Keys + (set k | 0 <= k < |members| :: members[k])
    ensures forall m :: m in after ==> after[m] == if m in members then chosen else before[m]
  {
    after := before;
    for j := 0 to |members|
      invariant after.Keys == before.Keys + (set k | 0 <= k < j :: members[k])
      invariant forall m :: m in after ==> after[m] == if m in members[..j] then chosen else before[m]
    {
      after := after[members[j] := chosen];
    }
    assert members[..|members|] == members;
  }

  /** One draw per group, in group order; `draws` stands for the random generator. */
  method AssignGrouped(groups: Groups, splits: seq<string>, draws: nat -> nat) returns (r: Result<SplitOf, ChoiceError>)
    ensures r.Failure? <==> splits == [] && groups != []
    ensures r.Success? && splits != [] ==> DrawnByGroup(groups, splits, draws, r.value)
  {
    var assignment: SplitOf := map[];
    for i := 0 to |groups|
      invariant i > 0 ==> splits != []
      invariant splits != [] ==> DrawnByGroup(groups[..i], splits, draws, assignment)
    {
      if splits == [] {
        return Failure(EmptyChoice);
      }
      ghost var before := assignment;
      assignment := AssignMembers(assignment, groups[i].1, splits[draws(i) % |splits|]);
      DrawnOneMore(groups, splits, draws, i, before, assignment);
    }
    assert groups[..|groups|] == groups;
    r := Success(assignment);
  }

  lemma DrawnOneMore(groups: Groups, splits: seq<string>, draws: nat -> nat, i: nat, a: SplitOf, b: SplitOf)
    requires i < |groups| && DrawnByGroup(groups[..i], splits, draws, a)
    requires b.Keys == a.Keys + (set k | 0 <= k < |groups[i].1| :: groups[i].1[k])
    requires forall m :: m in b ==> b[m] == if m in groups[i].1 then splits[draws(i) % |splits|] else a[m]
    ensures DrawnByGroup(groups[..i + 1], splits, draws, b)
  {
    var before, after := groups[..i], groups[..i + 1];
    assert forall j :: 0 <= j < i ==> after[j] == before[j];
    assert Members(after) == Members(before) + (set k | 0 <= k < |groups[i].1| :: groups[i].1[k]);
    forall j, m | LastGroup(after, j, m)
      ensures b[m] == splits[draws(j) % |splits|]
    {
      if j < i {
        assert m !in after[i].1;
        assert LastGroup(before, j, m) && m in Members(before);
      }
    }
  }

  lemma GroupedLast(nodes: seq<Node>, i: nat, x: string)
    requires InGroup(Grouping(nodes), i, x)
    ensures LastGroup(Grouping(nodes), i, x) && x in Members(Grouping(nodes))
  {
    GroupingPartitions(nodes, x);
    assert forall j :: i < j < |Grouping(nodes)| && x in Grouping(nodes)[j].1 ==> InGroup(Grouping(nodes), j, x);
  }

  lemma DrawOf(nodes: seq<Node>, splits: seq<string>, draws: nat -> nat, a: SplitOf, i: nat, x: string)
    requires DrawnByGroup(Grouping(nodes), splits, draws, a) && InGroup(Grouping(nodes), i, x)
    ensures x in a && a[x] == splits[draws(i) % |splits|]
  {
    GroupedLast(nodes, i, x);
  }

  lemma DrawnTogether(nodes: seq<Node>, splits: seq<string>, draws: nat -> nat, a: SplitOf, x: string, y: string)
    requires DrawnByGroup(Grouping(nodes), splits, draws, a) && Linked(nodes, x, y)
    ensures x in a && y in a && a[x] == a[y] && a[x] in splits
  {
    LinkedInKeys(nodes, x, y);
    GroupingPartitions(nodes, x);
    var i :| InGroup(Grouping(nodes), i, x);
    assert InGroup(Grouping(nodes), i, y);
    DrawOf(nodes, splits, draws, a, i, x);
    DrawOf(nodes, splits, draws, a, i, y);
  }

  // ----- End to end -----

  lemma StillDistinct(front: seq<Node>, last: Node, some: seq<Node>)
    requires forall n :: n in some ==> n in front
    ensures DistinctKeys(front + [last]) ==> DistinctKeys(front)
    ensures DistinctKeys(front + [last]) && DistinctKeys(some) ==> DistinctKeys(some + [last])
  {
    DistinctOneMore(front, last);
    DistinctOneMore(some, last);
    if last.key in Keys(some) {
      var i :| 0 <= i < |some| && some[i].key == last.key;
      assert some[i] in some && some[i] in front;
      var j :| 0 <= j < |front| && front[j] == some[i];
    }
  }

  /** `[e for e in entries if assigned[e["key"]] == split]`. */
  function Chosen(nodes: seq<Node>, a: SplitOf, split: string): (r: seq<Node>)
    ensures forall n :: n in r <==> n in nodes && n.key in a && a[n.key] == split
    ensures DistinctKeys(nodes) ==> DistinctKeys(r)
  {
    if nodes == [] then []
    else
      var front, last := nodes[..|nodes| - 1], nodes[|nodes| - 1];
      var r := Chosen(front, a, split);
      assert nodes == front + [last];
      StillDistinct(front, last, r);
      if last.key in a && a[last.key] == split then r + [last] else r
  }

  lemma {:induction false} FlattenMember(m: Manifests, names: seq<string>, i: nat)
    requires i < |Flatten(m, names)|
    ensures var t := Flatten(m, names)[i]; t.split in names && t.split in m && t.node in m[t.split]
  {
    var front := names[..|names| - 1];
    if i < |Flatten(m, front)| {
      FlattenMember(m, front, i);
    }
  }

  predicate SortedInto(m: Manifests, a: SplitOf) {
    forall s :: s in m ==> DistinctKeys(m[s]) && forall n :: n in m[s] ==> n.key in a && a[n.key] == s
  }

  lemma {:induction false} FlattenDistinct(m: Manifests, names: seq<string>, a: SplitOf)
    requires SortedInto(m, a) && forall i, j :: 0 <= i < j < |names| ==> names[i] != names[j]
    ensures DistinctKeys(Nodes(Flatten(m, names)))
  {
    if names != [] {
      var front, last := names[..|names| - 1], names[|names| - 1];
      FlattenDistinct(m, front, a);
      var ts, f := Nodes(Flatten(m, names)), Flatten(m, front);
      forall i, j | 0 <= i < j < |ts|
        ensures ts[i].key != ts[j].key
      {
        FlattenMember(m, names, i);
        FlattenMember(m, names, j);
        if j < |f| {
          assert ts[i] == Nodes(f)[i] && ts[j] == Nodes(f)[j];
        } else if i < |f| {
          FlattenMember(m, front, i);
        }
      }
    }
  }

  /** Group, draw once per group, split accordingly, audit: whatever is drawn, every entry lands in
      exactly one split and the audit finds nothing. */
  method SplitAndAudit(nodes: seq<Node>, splits: seq<string>, draws: nat -> nat)
    returns (bySplit: Manifests, violations: Result<seq<Violation>, LeakageError>)
    requires DistinctKeys(nodes)
    requires splits != [] && forall i :: 0 <= i < |splits| ==> splits[i] in SPLITS
    ensures violations == Success([])
    ensures forall n :: n in nodes ==> exists s :: s in bySplit && n in bySplit[s]
    ensures forall n, s, t :: s in bySplit && t in bySplit && n in bySplit[s] && n in bySplit[t] ==> s == t
    ensures forall n, s :: s in bySplit && n in bySplit[s] ==> n in nodes && s in splits
  {
    var groups := SiblingGroups.Compute(nodes);
    var drawn := AssignGrouped(groups, splits, draws);
    var a := drawn.value;
    bySplit := map s | s in splits :: Chosen(nodes, a, s);
    EveryEntryDrawn(nodes, splits, draws, a);
    FlattenDistinct(bySplit, Sorted(bySplit.Keys), a);
    FlattenAsDrawn(nodes, a, bySplit);
    NothingCrosses(nodes, splits, draws, a, Everything(bySplit));
    assert bySplit.Keys <= SPLITS;
    violations := SplitViolations(bySplit);
    forall n | n in nodes
      ensures exists s :: s in bySplit && n in bySplit[s]
    {
      assert a[n.key] in bySplit && n in bySplit[a[n.key]];
    }
  }

  lemma EveryEntryDrawn(nodes: seq<Node>, splits: seq<string>, draws: nat -> nat, a: SplitOf)
    requires DrawnByGroup(Grouping(nodes), splits, draws, a)
    ensures forall n :: n in nodes ==> n.key in a && a[n.key] in splits
  {
    forall n | n in nodes
      ensures n.key in a && a[n.key] in splits
    {
      LinkedReflexive(nodes, n.key);
      DrawnTogether(nodes, splits, draws, a, n.key, n.key);
    }
  }

  lemma EntryEdge(nodes: seq<Node>, m: Node, n: Node)
    requires m in nodes && n in nodes && Edge(m, n)
    ensures Linked(nodes, m.key, n.key)
  {
    var i :| 0 <= i < |nodes| && nodes[i] == m;
    var j :| 0 <= j < |nodes| && nodes[j] == n;
    assert KeyEdge(nodes, m.key, n.key);
    LinkedEdge(nodes, m.key, n.key);
  }

  predicate TaggedAsDrawn(nodes: seq<Node>, a: SplitOf, t: Tagged) {
    t.node in nodes && t.node.key in a && a[t.node.key] == t.split
  }

  lemma EdgeDrawnTogether(nodes: seq<Node>, splits: seq<string>, draws: nat -> nat, a: SplitOf, t: Tagged, u: Tagged)
    requires DrawnByGroup(Grouping(nodes), splits, draws, a) && Edge(t.node, u.node)
    requires TaggedAsDrawn(nodes, a, t) && TaggedAsDrawn(nodes, a, u)
    ensures t.split == u.split
  {
    EntryEdge(nodes, t.node, u.node);
    DrawnTogether(nodes, splits, draws, a, t.node.key, u.node.key);
  }

  lemma NothingCrosses(nodes: seq<Node>, splits: seq<string>, draws: nat -> nat, a: SplitOf, ts: seq<Tagged>)
    requires DrawnByGroup(Grouping(nodes), splits, draws, a)
    requires forall i :: 0 <= i < |ts| ==> TaggedAsDrawn(nodes, a, ts[i])
    ensures NoEdgeCrosses(ts)
  {
    forall i, j | 0 <= i < |ts| && 0 <= j < |ts| && Edge(ts[i].node, ts[j].node)
      ensures ts[i].split == ts[j].split
    {
      EdgeDrawnTogether(nodes, splits, draws, a, ts[i], ts[j]);
    }
  }

  lemma FlattenAsDrawn(nodes: seq<Node>, a: SplitOf, m: Manifests)
    requires forall s, n {:trigger Tagged(n, s)} :: s in m && n in m[s] ==> TaggedAsDrawn(nodes, a, Tagged(n, s))
    ensures forall i :: 0 <= i < |Everything(m)| ==> TaggedAsDrawn(nodes, a, Everything(m)[i])
  {
    forall i | 0 <= i < |Everything(m)|
      ensures TaggedAsDrawn(nodes, a, Everything(m)[i])
    {
      FlattenMember(m, Sorted(m.Keys), i);
      var t := Everything(m)[i];
      assert t == Tagged(t.node, t.split);
    }
  }
}
