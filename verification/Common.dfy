/** Result types shared by the models. */
module Outcome {

  datatype Option<+T> = None | Some(value: T)

  /** `Failure` stands for a raised exception, `error` for what it says. */
  datatype Result<+T, +E> = Success(value: T) | Failure(error: E)
}

/**
 * Folded definitions. A predicate written `forall k :: Unfolded(k) ==> body` says the same as
 * its body, but the solver looks inside only where a proof mentions `Unfolded`.
 */
module Folding {

  predicate Unfolded(k: int) {
    true
  }
}

/** Facts about sequences. */
module Sequences {

  lemma Assoc<T>(a: seq<T>, b: seq<T>, c: seq<T>)
    ensures a + (b + c) == (a + b) + c
  {
  }

  predicate EndsWith<T(==)>(s: seq<T>, tail: seq<T>) {
    |tail| <= |s| && s[|s| - |tail|..] == tail
  }

  function Elements<T>(s: seq<T>): set<T> {
    set x | x in s
  }
}

/** Cardinality of finite sets. */
module Sets {

  lemma SubsetCard<T>(a: set<T>, b: set<T>)
    requires a <= b
    ensures |a| <= |b|
  {
    assert b == a + (b - a);
  }
}

module Powers {

  function Pow2(k: nat): (p: nat)
    ensures p > 0
  {
    if k == 0 then 1 else 2 * Pow2(k - 1)
  }
}

module Bytes {

  type Byte = b: int | 0 <= b < 256
}

/** Paths cut at their slashes. */
module Paths {

  function Parts(s: string): (parts: seq<string>)
    ensures parts != []
  {
    if '/' !in s then [s]
    else
      var rest := Parts(s[1..]);
      if s[0] == '/' then [""] + rest else [[s[0]] + rest[0]] + rest[1..]
  }

  lemma {:induction false} PartsJoined(first: string, rest: string)
    requires '/' !in first
    ensures Parts(first + "/" + rest) == [first] + Parts(rest)
  {
    var s := first + "/" + rest;
    assert s[|first|] == '/';
    if first == "" {
      assert s[1..] == rest;
    } else {
      assert s[1..] == first[1..] + "/" + rest;
      PartsJoined(first[1..], rest);
      assert [first[0]] + first[1..] == first;
    }
  }
}

/** Decimal rendering of counters and offsets, as Python's `str(int)` prints them. */
module Decimals {

  predicate IsDigit(c: char) {
    '0' <= c <= '9'
  }

  function Digit(d: nat): (c: char)
    requires d < 10
    ensures IsDigit(c) && DigitValue(c) == d
  {
    ('0' as int + d) as char
  }

  function DigitValue(c: char): nat
    requires IsDigit(c)
  {
    c as int - '0' as int
  }

  predicate AllDigits(s: string) {
    forall i :: 0 <= i < |s| ==> IsDigit(s[i])
  }

  function Decimal(n: nat): (s: string)
    ensures |s| > 0 && AllDigits(s)
  {
    if n < 10 then [Digit(n)] else Decimal(n / 10) + [Digit(n % 10)]
  }

  /** The number a digit string denotes, leading zeros allowed. */
  function Parse(s: string): nat
    requires AllDigits(s)
  {
    if s == [] then 0 else 10 * Parse(s[..|s| - 1]) + DigitValue(s[|s| - 1])
  }

  lemma {:induction false} ParseDecimal(n: nat)
    ensures Parse(Decimal(n)) == n
  {
    if n >= 10 {
      ParseDecimal(n / 10);
      assert Decimal(n)[..|Decimal(n)| - 1] == Decimal(n / 10);
    } else {
      assert Decimal(n)[..0] == [];
    }
  }

  lemma DecimalInjective(m: nat, n: nat)
    ensures Decimal(m) == Decimal(n) ==> m == n
  {
    ParseDecimal(m);
    ParseDecimal(n);
  }
}
