/** Sorting, order statistics and the nearest-rank percentile. */
module OrderStatistics {
  import opened Outcome

  predicate IsSorted(s: seq<real>) {
    forall i, j :: 0 <= i < j < |s| ==> s[i] <= s[j]
  }

  function Insert(x: real, s: seq<real>): seq<real> {
    if s == [] || x <= s[0] then [x] + s else [s[0]] + Insert(x, s[1..])
  }

  /** `sorted`. */
  function Sorted(v: seq<real>): seq<real> {
    if v == [] then [] else Insert(v[0], Sorted(v[1..]))
  }

  /** How many values are at most `t`. */
  function AtMost(v: seq<real>, t: real): nat {
    if v == [] then 0 else (if v[0] <= t then 1 else 0) + AtMost(v[1..], t)
  }

  lemma PrependSorted(x: real, s: seq<real>)
    requires IsSorted(s) && (s == [] || x <= s[0])
    ensures IsSorted([x] + s)
  {
    forall i, j | 0 <= i < j < |[x] + s|
      ensures ([x] + s)[i] <= ([x] + s)[j]
    {
      if i == 0 {
        assert x <= s[0] <= s[j - 1];
      } else {
        assert s[i - 1] <= s[j - 1];
      }
    }
  }

  lemma {:induction false} InsertSorted(x: real, s: seq<real>)
    requires IsSorted(s)
    ensures IsSorted(Insert(x, s)) && Insert(x, s) != [] && Insert(x, s)[0] == if s == [] || x <= s[0] then x else s[0]
  {
    if s == [] || x <= s[0] {
      PrependSorted(x, s);
    } else {
      InsertSorted(x, s[1..]);
      PrependSorted(s[0], Insert(x, s[1..]));
    }
  }

  lemma {:induction false} InsertKeeps(x: real, s: seq<real>)
    ensures multiset(Insert(x, s)) == multiset(s) + multiset{x} && |Insert(x, s)| == |s| + 1
  {
    if s != [] && x > s[0] {
      InsertKeeps(x, s[1..]);
      assert s == [s[0]] + s[1..];
    }
  }

  /** The sorted copy is sorted and a permutation. */
  lemma {:induction false} SortedIsSorted(v: seq<real>)
    ensures IsSorted(Sorted(v)) && multiset(Sorted(v)) == multiset(v) && |Sorted(v)| == |v|
  {
    if v != [] {
      SortedIsSorted(v[1..]);
      InsertSorted(v[0], Sorted(v[1..]));
      InsertKeeps(v[0], Sorted(v[1..]));
      assert v == [v[0]] + v[1..];
    }
  }

  lemma {:induction false} AtMostInsert(x: real, s: seq<real>, t: real)
    ensures AtMost(Insert(x, s), t) == AtMost([x] + s, t)
  {
    assert ([x] + s)[1..] == s;
    if s != [] && x > s[0] {
      AtMostInsert(x, s[1..], t);
      assert Insert(x, s)[1..] == Insert(x, s[1..]);
      assert ([x] + s[1..])[1..] == s[1..];
    }
  }

  lemma {:induction false} AtMostSorted(v: seq<real>, t: real)
    ensures AtMost(Sorted(v), t) == AtMost(v, t)
  {
    if v != [] {
      AtMostSorted(v[1..], t);
      AtMostInsert(v[0], Sorted(v[1..]), t);
      assert ([v[0]] + Sorted(v[1..]))[1..] == Sorted(v[1..]);
    }
  }

  /** In a sorted sequence the element at `k` is at most `t` exactly when more than `k` are. */
  lemma {:induction false} RankCounts(s: seq<real>, k: nat, t: real)
    requires IsSorted(s) && k < |s|
    ensures s[k] <= t <==> AtMost(s, t) > k
  {
    if s[0] > t {
      NoneAtMost(s, t);
    } else if k > 0 {
      RankCounts(s[1..], k - 1, t);
    }
  }

  lemma {:induction false} NoneAtMost(s: seq<real>, t: real)
    requires forall i :: 0 <= i < |s| ==> s[i] > t
    ensures AtMost(s, t) == 0
  {
    if s != [] {
      NoneAtMost(s[1..], t);
    }
  }

  /** The order statistic of rank `k` is at most `t` exactly when more than `k` values are. */
  lemma OrderStatistic(v: seq<real>, k: nat, t: real)
    requires k < |v|
    ensures |Sorted(v)| == |v|
    ensures Sorted(v)[k] <= t <==> AtMost(v, t) > k
  {
    SortedIsSorted(v);
    AtMostSorted(v, t);
    RankCounts(Sorted(v), k, t);
  }

  lemma {:induction false} AtMostShrinks(v: seq<real>, w: seq<real>, t: real)
    requires |v| == |w| && forall i :: 0 <= i < |v| ==> v[i] <= w[i]
    ensures AtMost(w, t) <= AtMost(v, t)
  {
    if v != [] {
      AtMostShrinks(v[1..], w[1..], t);
    }
  }

  /** Raising values raises every order statistic. */
  lemma OrderStatisticGrows(v: seq<real>, w: seq<real>, k: nat)
    requires |v| == |w| && (forall i :: 0 <= i < |v| ==> v[i] <= w[i]) && k < |v|
    ensures |Sorted(v)| == |v| && |Sorted(w)| == |w| && Sorted(v)[k] <= Sorted(w)[k]
  {
    SortedIsSorted(w);
    var t := Sorted(w)[k];
    OrderStatistic(w, k, t);
    OrderStatistic(v, k, t);
    AtMostShrinks(v, w, t);
  }

  function Ceil(x: real): int {
    -((-x).Floor)
  }

  /** `max(0, min(n - 1, ceil(share) - 1))`. */
  function Rank(share: real, n: nat): (k: nat)
    requires n > 0
    ensures k < n
  {
    var r := Ceil(share) - 1;
    var m := if r < n - 1 then r else n - 1;
    if m > 0 then m else 0
  }

  /** The value at the rank of a share. */
  function AtShare(values: seq<real>, share: real): (x: real)
    requires values != []
  {
    SortedIsSorted(values);
    Sorted(values)[Rank(share, |values|)]
  }

  /** `q * n`, by addition. */
  function Share(q: real, n: nat): real {
    if n == 0 then 0.0 else q + Share(q, n - 1)
  }

  lemma {:induction false} ShareIsProduct(q: real, n: nat)
    ensures Share(q, n) == q * n as real
  {
    if n > 0 {
      ShareIsProduct(q, n - 1);
      assert q * n as real == q * (n - 1) as real + q;
    }
  }

  lemma {:induction false} ShareBounds(q: real, n: nat)
    requires 0.0 < q <= 1.0
    ensures Share(q, n) <= n as real && (n > 0 ==> Share(q, n) > 0.0)
  {
    if n > 0 {
      ShareBounds(q, n - 1);
    }
  }

  /** `percentile`. */
  function Percentile(values: seq<real>, q: real): Option<real> {
    if values == [] then None else Some(AtShare(values, Share(q, |values|)))
  }

  lemma CeilMeaning(c: int, x: real)
    ensures c >= Ceil(x) <==> c as real >= x
  {
    assert (-x).Floor as real <= -x < (-x).Floor as real + 1.0;
  }

  lemma RankThreshold(share: real, n: nat, count: nat)
    requires 0.0 < share <= n as real && n > 0
    ensures count > Rank(share, n) <==> count as real >= share
  {
    CeilMeaning(n, share);
    CeilMeaning(0, share);
    CeilMeaning(count, share);
  }

  lemma AtShareMeaning(values: seq<real>, share: real, t: real)
    requires values != [] && 0.0 < share <= |values| as real
    ensures AtShare(values, share) <= t <==> AtMost(values, t) as real >= share
  {
    RankThreshold(share, |values|, AtMost(values, t));
    OrderStatistic(values, Rank(share, |values|), t);
  }

  lemma AtShareGrows(v: seq<real>, w: seq<real>, share: real)
    requires |v| == |w| > 0 && forall i :: 0 <= i < |v| ==> v[i] <= w[i]
    ensures AtShare(v, share) <= AtShare(w, share)
  {
    OrderStatisticGrows(v, w, Rank(share, |v|));
  }

  /** The nearest-rank definition: the smallest value that at least the share q of the values do not exceed. */
  lemma PercentileMeaning(values: seq<real>, q: real, t: real)
    requires values != [] && 0.0 < q <= 1.0
    ensures Percentile(values, q).value <= t <==> AtMost(values, t) as real >= Share(q, |values|)
  {
    ShareBounds(q, |values|);
    AtShareMeaning(values, Share(q, |values|), t);
  }

  lemma PercentileGrows(v: seq<real>, w: seq<real>, q: real)
    requires |v| == |w| > 0 && forall i :: 0 <= i < |v| ==> v[i] <= w[i]
    ensures Percentile(v, q).value <= Percentile(w, q).value
  {
    AtShareGrows(v, w, Share(q, |v|));
  }

  /** `max` of a nonempty list. */
  function MaxOf(v: seq<real>): (m: real)
    requires v != []
    ensures m in v && forall x :: x in v ==> x <= m
  {
    if |v| == 1 then v[0]
    else
      var m := MaxOf(v[1..]);
      assert v == [v[0]] + v[1..];
      if v[0] >= m then v[0] else m
  }

  lemma MaxGrows(v: seq<real>, w: seq<real>)
    requires |v| == |w| > 0 && forall i :: 0 <= i < |v| ==> v[i] <= w[i]
    ensures MaxOf(v) <= MaxOf(w)
  {
    var i :| 0 <= i < |v| && v[i] == MaxOf(v);
    assert w[i] in w;
  }
}
