/** The order Python gives strings, by code point, and what `sorted` makes of a set of them. */
module KeyOrder {
  import opened Sequences

  predicate Leq(a: string, b: string) {
    a == "" || (b != "" && (a[0] < b[0] || (a[0] == b[0] && Leq(a[1..], b[1..]))))
  }

  lemma {:induction false} LeqReflexive(a: string)
    ensures Leq(a, a)
  {
    if a != "" {
      LeqReflexive(a[1..]);
    }
  }

  lemma {:induction false} LeqTotal(a: string, b: string)
    ensures Leq(a, b) || Leq(b, a)
  {
    if a != "" && b != "" && a[0] == b[0] {
      LeqTotal(a[1..], b[1..]);
    }
  }

  lemma {:induction false} LeqAntisymmetric(a: string, b: string)
    requires Leq(a, b) && Leq(b, a)
    ensures a == b
  {
    if a != "" && b != "" {
      LeqAntisymmetric(a[1..], b[1..]);
      assert a == [a[0]] + a[1..] && b == [b[0]] + b[1..];
    }
  }

  lemma {:induction false} LeqTransitive(a: string, b: string, c: string)
    requires Leq(a, b) && Leq(b, c)
    ensures Leq(a, c)
  {
    if a != "" && a[0] == b[0] && b[0] == c[0] {
      LeqTransitive(a[1..], b[1..], c[1..]);
    }
  }

  function Min(a: string, b: string): string {
    if Leq(a, b) then a else b
  }

  function Max(a: string, b: string): string {
    if Leq(a, b) then b else a
  }

  predicate IsLeast(m: string, s: set<string>) {
    m in s && forall x :: x in s ==> Leq(m, x)
  }

  lemma {:induction false} LeastExists(s: set<string>)
    requires s != {}
    ensures exists m :: IsLeast(m, s)
  {
    var x :| x in s;
    if s == {x} {
      LeqReflexive(x);
      assert IsLeast(x, s);
    } else {
      LeastExists(s - {x});
      var m :| IsLeast(m, s - {x});
      LeqReflexive(x);
      LeqTotal(x, m);
      if Leq(x, m) {
        forall y | y in s
          ensures Leq(x, y)
        {
          if y != x {
            LeqTransitive(x, m, y);
          }
        }
        assert IsLeast(x, s);
      } else {
        assert IsLeast(m, s);
      }
    }
  }

  lemma LeastUnique(s: set<string>, a: string, b: string)
    requires IsLeast(a, s) && IsLeast(b, s)
    ensures a == b
  {
    LeqAntisymmetric(a, b);
  }

  function Least(s: set<string>): (m: string)
    requires s != {}
    ensures IsLeast(m, s)
  {
    LeastExists(s);
    assert forall a, b :: IsLeast(a, s) && IsLeast(b, s) ==> a == b by {
      forall a, b | IsLeast(a, s) && IsLeast(b, s)
        ensures a == b
      {
        LeastUnique(s, a, b);
      }
    }
    var m :| m in s && IsLeast(m, s);
    m
  }

  predicate Ascending(q: seq<string>) {
    forall i, j :: 0 <= i < j < |q| ==> Leq(q[i], q[j]) && q[i] != q[j]
  }

  /** `sorted(s)`. */
  function Sorted(s: set<string>): (q: seq<string>)
    ensures Ascending(q) && |q| == |s|
    ensures forall x :: x in q <==> x in s
  {
    if s == {} then []
    else
      var m := Least(s);
      var rest := Sorted(s - {m});
      assert forall i :: 0 <= i < |rest| ==> rest[i] in rest;
      [m] + rest
  }

  lemma HeadLeast(q: seq<string>)
    requires Ascending(q) && q != []
    ensures IsLeast(q[0], Elements(q))
  {
    LeqReflexive(q[0]);
  }

  lemma TailAscending(q: seq<string>)
    requires Ascending(q) && q != []
    ensures Ascending(q[1..]) && Elements(q[1..]) == Elements(q) - {q[0]}
  {
    assert q == [q[0]] + q[1..];
  }

  lemma NoElements(q: seq<string>)
    ensures Elements(q) == {} <==> q == []
  {
    if q != [] {
      assert q[0] in Elements(q);
    }
  }

  lemma {:induction false} AscendingUnique(p: seq<string>, q: seq<string>)
    requires Ascending(p) && Ascending(q) && Elements(p) == Elements(q)
    ensures p == q
  {
    NoElements(p);
    NoElements(q);
    if p != [] {
      HeadLeast(p);
      HeadLeast(q);
      LeastUnique(Elements(p), p[0], q[0]);
      TailAscending(p);
      TailAscending(q);
      AscendingUnique(p[1..], q[1..]);
      assert p == [p[0]] + p[1..] && q == [q[0]] + q[1..];
    }
  }

  /** Any strictly ascending listing of the set is that one. */
  lemma SortedUnique(q: seq<string>, s: set<string>)
    requires Ascending(q) && Elements(q) == s
    ensures q == Sorted(s)
  {
    assert Elements(Sorted(s)) == s;
    AscendingUnique(q, Sorted(s));
  }
}
