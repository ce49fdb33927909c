/** Latency receipts: the summary a producer writes, and what the validator accepts of one. */
module PerformanceReceipt {
  import opened Outcome
  import opened OrderStatistics

  const MIN_DISTRIBUTION_N := 30
  const MAX_ACCEPT_FAILURES := 0

  // ----- The interpolated percentile -----

  /** Between the two values around position `x` of a sorted sequence. */
  function Interpolate(s: seq<real>, x: real): real
    requires s != [] && 0.0 <= x <= (|s| - 1) as real
  {
    var lo := x.Floor;
    var hi := if lo + 1 < |s| then lo + 1 else |s| - 1;
    Mix(s[lo], s[hi], x - lo as real)
  }

  function Mix(a: real, b: real, frac: real): real {
    a * (1.0 - frac) + b * frac
  }

  lemma {:induction false} ShareRange(q: real, n: nat)
    requires 0.0 <= q <= 1.0
    ensures 0.0 <= Share(q, n) <= n as real
  {
    if n > 0 {
      ShareRange(q, n - 1);
    }
  }

  lemma {:induction false} ShareGrows(q: real, r: real, n: nat)
    requires q <= r
    ensures Share(q, n) <= Share(r, n)
  {
    if n > 0 {
      ShareGrows(q, r, n - 1);
    }
  }

  /** `percentile`, at the position (p / 100) * (n - 1); an empty list has none. */
  function PercentileOf(values: seq<real>, p: real): Option<real>
    requires 0.0 <= p <= 100.0
  {
    if values == [] then None
    else
      SortedIsSorted(values);
      var ordered := Sorted(values);
      if |ordered| == 1 then Some(ordered[0])
      else
        ShareRange(p / 100.0, |ordered| - 1);
        Some(Interpolate(ordered, Share(p / 100.0, |ordered| - 1)))
  }

  lemma Nonnegative(a: real, b: real)
    requires a >= 0.0 && b >= 0.0
    ensures a * b >= 0.0
  {
  }

  lemma MixBetween(a: real, b: real, f: real)
    requires a <= b && 0.0 <= f <= 1.0
    ensures a <= Mix(a, b, f) <= b
  {
    assert Mix(a, b, f) - a == (b - a) * f;
    assert b - Mix(a, b, f) == (b - a) * (1.0 - f);
    Nonnegative(b - a, f);
    Nonnegative(b - a, 1.0 - f);
  }

  lemma MixGrows(a: real, b: real, f: real, g: real)
    requires a <= b && f <= g
    ensures Mix(a, b, f) <= Mix(a, b, g)
  {
    assert Mix(a, b, g) - Mix(a, b, f) == (b - a) * (g - f);
    Nonnegative(b - a, g - f);
  }

  lemma MixEnds(a: real, b: real)
    ensures Mix(a, b, 0.0) == a && Mix(a, b, 1.0) == b
  {
  }

  lemma InterpolateBetween(s: seq<real>, x: real)
    requires s != [] && IsSorted(s) && 0.0 <= x <= (|s| - 1) as real
    ensures var lo := x.Floor;
      s[lo] <= Interpolate(s, x) <= s[if lo + 1 < |s| then lo + 1 else |s| - 1]
  {
    var lo := x.Floor;
    var hi := if lo + 1 < |s| then lo + 1 else |s| - 1;
    MixBetween(s[lo], s[hi], x - lo as real);
  }

  lemma InterpolateGrows(s: seq<real>, x: real, y: real)
    requires s != [] && IsSorted(s) && 0.0 <= x <= y <= (|s| - 1) as real
    ensures Interpolate(s, x) <= Interpolate(s, y)
  {
    InterpolateBetween(s, x);
    InterpolateBetween(s, y);
    var lo := x.Floor;
    if lo == y.Floor {
      var hi := if lo + 1 < |s| then lo + 1 else |s| - 1;
      MixGrows(s[lo], s[hi], x - lo as real, y - lo as real);
    } else {
      assert lo + 1 <= y.Floor < |s|;
    }
  }

  /** A greater percentage never gives a lower value. */
  lemma PercentileOrdered(values: seq<real>, p: real, q: real)
    requires values != [] && 0.0 <= p <= q <= 100.0
    ensures PercentileOf(values, p).value <= PercentileOf(values, q).value
  {
    SortedIsSorted(values);
    var n := |Sorted(values)|;
    if n > 1 {
      ShareRange(p / 100.0, n - 1);
      ShareRange(q / 100.0, n - 1);
      ShareGrows(p / 100.0, q / 100.0, n - 1);
      InterpolateGrows(Sorted(values), Share(p / 100.0, n - 1), Share(q / 100.0, n - 1));
    }
  }

  lemma EndOfSorted(values: seq<real>)
    requires values != []
    ensures |Sorted(values)| == |values| && Sorted(values)[|values| - 1] == MaxOf(values)
    ensures forall x :: x in values ==> Sorted(values)[0] <= x
    ensures Sorted(values)[0] in values
  {
    SortedIsSorted(values);
    SameElements(values, Sorted(values));
    var s := Sorted(values);
    assert s[|s| - 1] in s && s[0] in s;
    assert s[|s| - 1] in values && MaxOf(values) in s;
  }

  lemma SameElements(a: seq<real>, b: seq<real>)
    requires multiset(a) == multiset(b)
    ensures forall x :: x in a <==> x in b
  {
    assert forall x :: x in a <==> x in multiset(a);
    assert forall x :: x in b <==> x in multiset(b);
  }

  lemma {:induction false} ShareEnds(n: nat)
    ensures Share(0.0, n) == 0.0 && Share(1.0, n) == n as real
  {
    if n > 0 {
      ShareEnds(n - 1);
    }
  }

  lemma InterpolateEnds(s: seq<real>)
    requires s != []
    ensures Interpolate(s, 0.0) == s[0] && Interpolate(s, (|s| - 1) as real) == s[|s| - 1]
  {
    MixEnds(s[0], s[if 1 < |s| then 1 else 0]);
    MixEnds(s[|s| - 1], s[|s| - 1]);
  }

  lemma PercentileAtEnds(values: seq<real>)
    requires values != []
    ensures |Sorted(values)| == |values|
    ensures PercentileOf(values, 0.0).value == Sorted(values)[0]
    ensures PercentileOf(values, 100.0).value == Sorted(values)[|values| - 1]
  {
    SortedIsSorted(values);
    ShareEnds(|values| - 1);
    InterpolateEnds(Sorted(values));
  }

  /** The percentage 0 gives the least value and 100 the greatest. */
  lemma PercentileEnds(values: seq<real>)
    requires values != []
    ensures PercentileOf(values, 0.0).value in values
    ensures forall x :: x in values ==> PercentileOf(values, 0.0).value <= x
    ensures PercentileOf(values, 100.0).value == MaxOf(values)
  {
    PercentileAtEnds(values);
    EndOfSorted(values);
  }

  /** Every percentile lies between the least and the greatest value, and p50, p95 and the maximum in their order. */
  lemma PercentileBetween(values: seq<real>, p: real)
    requires values != [] && 0.0 <= p <= 100.0
    ensures PercentileOf(values, 0.0).value <= PercentileOf(values, p).value <= MaxOf(values)
    ensures PercentileOf(values, 50.0).value <= PercentileOf(values, 95.0).value <= MaxOf(values)
  {
    PercentileOrdered(values, 0.0, p);
    PercentileOrdered(values, p, 100.0);
    PercentileOrdered(values, 50.0, 95.0);
    PercentileOrdered(values, 95.0, 100.0);
    PercentileEnds(values);
  }

  // ----- Receipts -----

  /** A value in a JSON object, as far as the validator looks at it. */
  datatype Field = Absent | Null | Bool(b: bool) | Int(i: int) | Num(x: real) | NonFinite | Text(s: string) | Other

  datatype List = NotAList | List(items: seq<Field>)

  datatype Stage = Stage(
    measured: Field, n: Field, failures: Field, requested: Field, claim: Field, samples: List,
    p50: Field, p95: Field, max: Field)

  /** `finite_number`. */
  predicate Finite(f: Field) {
    f.Int? || f.Num?
  }

  function Number(f: Field): real
    requires Finite(f)
  {
    if f.Int? then f.i as real else f.x
  }

  /** The finite numbers of a list. */
  function Clean(items: seq<Field>): seq<real> {
    if items == [] then []
    else
      var last := items[|items| - 1];
      Clean(items[..|items| - 1]) + if Finite(last) then [Number(last)] else []
  }

  /** `derive_distribution_claim`. */
  function Claim(n: int, measured: bool, failures: int): string {
    if !measured then "missing"
    else if n <= 0 then if failures != 0 then "failed" else "missing"
    else if n < MIN_DISTRIBUTION_N then "insufficient_samples"
    else "n>=30"
  }

  /** `summarize`. */
  function Summarize(items: seq<Field>, failures: int, measured: bool): Stage {
    var clean := Clean(items);
    var listed := List(seq(|clean|, k requires 0 <= k < |clean| => Num(clean[k])));
    var claim := Text(Claim(|clean|, measured, failures));
    if !measured || clean == [] then
      Stage(Bool(measured), Int(|clean|), Int(failures), Absent, claim, listed, Absent, Absent, Absent)
    else
      Stage(Bool(measured), Int(|clean|), Int(failures), Absent, claim, listed,
            Num(PercentileOf(clean, 50.0).value), Num(PercentileOf(clean, 95.0).value), Num(MaxOf(clean)))
  }

  datatype Problem =
    | MeasuredNotBoolean | BadCount | BadFailures | BadRequested | RequestedDisagrees | SelfDeclaredClaim | NotExecuted
    | NoSamples | Unhealthy | MissingSamples | InvalidSample | CountDisagrees | NotFinite | Inconsistent
    | ClaimDisagrees | TooFew

  predicate Natural(f: Field) {
    f.Int? && f.i >= 0
  }

  function NaturalOr(f: Field): int {
    if Natural(f) then f.i else -1
  }

  /** Python's truth value. */
  predicate Truthy(f: Field) {
    match f
    case Absent => false
    case Null => false
    case Bool(b) => b
    case Int(i) => i != 0
    case Num(x) => x != 0.0
    case Text(s) => s != ""
    case NonFinite => true
    case Other => true
  }

  function Abs(x: real): real {
    if x >= 0.0 then x else -x
  }

  predicate Near(got: real, expected: real) {
    Abs(got - expected) <= 0.000001 * (if Abs(expected) > 1.0 then Abs(expected) else 1.0)
  }

  predicate Matches(f: Field, expected: real) {
    Finite(f) && Near(Number(f), expected)
  }

  /** The statistics of a stage agree with its samples. */
  predicate Recomputed(s: Stage, finite: seq<real>)
    requires finite != []
  {
    && Matches(s.p50, PercentileOf(finite, 50.0).value)
    && Matches(s.p95, PercentileOf(finite, 95.0).value)
    && Matches(s.max, MaxOf(finite))
  }

  predicate AllFinite(items: seq<Field>) {
    forall k :: 0 <= k < |items| ==> Finite(items[k])
  }

  predicate IsMeasured(s: Stage) {
    s.measured == Absent || s.measured == Bool(true)
  }

  /** What a stage without problems is. */
  predicate Acceptable(s: Stage, requireDistribution: bool) {
    && (s.measured == Absent || s.measured.Bool?)
    && Natural(s.n) && Natural(s.failures)
    && (s.requested != Absent && s.requested != Null ==> Natural(s.requested) && s.n.i + s.failures.i == s.requested.i)
    && (s.claim == Text("n>=30") ==> s.n.i >= MIN_DISTRIBUTION_N && IsMeasured(s))
    && (if !IsMeasured(s) then !requireDistribution
        else
          && s.n.i > 0
          && s.samples.List? && AllFinite(s.samples.items) && |s.samples.items| == s.n.i
          && Clean(s.samples.items) != [] && Recomputed(s, Clean(s.samples.items))
          && (s.claim.Text? ==> s.claim.s == Claim(s.n.i, true, s.failures.i))
          && (requireDistribution ==> s.n.i >= MIN_DISTRIBUTION_N && s.failures.i <= MAX_ACCEPT_FAILURES))
  }

  lemma {:induction false} CleanCounts(items: seq<Field>)
    ensures |Clean(items)| <= |items|
    ensures |Clean(items)| == |items| <==> AllFinite(items)
  {
    if items != [] {
      CleanCounts(items[..|items| - 1]);
      assert items == items[..|items| - 1] + [items[|items| - 1]];
    }
  }

  method FiniteSamples(items: seq<Field>) returns (finite: seq<real>)
    ensures finite == Clean(items)
  {
    finite := [];
    for k := 0 to |items|
      invariant finite == Clean(items[..k])
    {
      assert items[..k + 1][..k] == items[..k];
      if Finite(items[k]) {
        finite := finite + [Number(items[k])];
      }
    }
    assert items[..|items|] == items;
  }

  /** The comparison of p50, p95 and the maximum with the samples. */
  method StatisticProblems(s: Stage, finite: seq<real>) returns (problems: seq<Problem>)
    requires finite != []
    ensures problems == [] <==> Recomputed(s, finite)
  {
    problems := [];
    var pairs := [(s.p50, PercentileOf(finite, 50.0).value), (s.p95, PercentileOf(finite, 95.0).value),
      (s.max, MaxOf(finite))];
    for k := 0 to 3
      invariant problems == [] <==> forall j :: 0 <= j < k ==> Matches(pairs[j].0, pairs[j].1)
    {
      var (got, expected) := pairs[k];
      if !Finite(got) {
        problems := problems + [NotFinite];
      } else if !Near(Number(got), expected) {
        problems := problems + [Inconsistent];
      }
    }
    assert pairs[0] == (s.p50, PercentileOf(finite, 50.0).value);
    assert pairs[1] == (s.p95, PercentileOf(finite, 95.0).value);
    assert pairs[2] == (s.max, MaxOf(finite));
  }

  /** The checks on the raw samples. */
  method SampleProblems(s: Stage, n: int) returns (problems: seq<Problem>)
    ensures problems == [] <==>
      && s.samples.List? && s.samples.items != [] && AllFinite(s.samples.items) && |s.samples.items| == n
      && Clean(s.samples.items) != [] && Recomputed(s, Clean(s.samples.items))
  {
    problems := [];
    if s.samples.NotAList? || s.samples.items == [] {
      return [MissingSamples];
    }
    var items := s.samples.items;
    if exists k :: 0 <= k < |items| && !Finite(items[k]) {
      problems := problems + [InvalidSample];
    }
    var finite := FiniteSamples(items);
    CleanCounts(items);
    if |finite| != n {
      problems := problems + [CountDisagrees];
    }
    if finite != [] {
      var more := StatisticProblems(s, finite);
      problems := problems + more;
    }
  }

  /** The checks on the counts, before it matters whether the stage was measured. */
  method CountProblems(s: Stage, measured: bool) returns (problems: seq<Problem>)
    requires measured == (s.measured == Absent || Truthy(s.measured))
    ensures problems == [] <==>
      && Natural(s.n) && Natural(s.failures)
      && (s.requested != Absent && s.requested != Null ==>
            Natural(s.requested) && s.n.i + s.failures.i == s.requested.i)
      && (s.claim == Text("n>=30") ==> s.n.i >= MIN_DISTRIBUTION_N && measured)
  {
    problems := [];
    var n, failures := NaturalOr(s.n), NaturalOr(s.failures);
    if n < 0 {
      problems := problems + [BadCount];
    }
    if failures < 0 {
      problems := problems + [BadFailures];
    }
    if s.requested != Absent && s.requested != Null {
      if !Natural(s.requested) {
        problems := problems + [BadRequested];
      } else if n >= 0 && failures >= 0 && n + failures != s.requested.i {
        problems := problems + [RequestedDisagrees];
      }
    }
    if s.claim == Text("n>=30") && (n < MIN_DISTRIBUTION_N || !measured) {
      problems := problems + [SelfDeclaredClaim];
    }
  }

  /** `_stage_problems`: none exactly for an acceptable stage. */
  method StageProblems(s: Stage, requireDistribution: bool) returns (problems: seq<Problem>)
    ensures problems == [] <==> Acceptable(s, requireDistribution)
  {
    problems := [];
    var measured := s.measured == Absent || Truthy(s.measured);
    if s.measured != Absent && !s.measured.Bool? {
      problems := problems + [MeasuredNotBoolean];
    }
    var counts := CountProblems(s, measured);
    problems := problems + counts;
    var n, failures := NaturalOr(s.n), NaturalOr(s.failures);
    if !measured {
      if requireDistribution {
        problems := problems + [NotExecuted];
      }
      return;
    }
    if n == 0 {
      return problems + [NoSamples];
    }
    if requireDistribution && failures > MAX_ACCEPT_FAILURES {
      problems := problems + [Unhealthy];
    }
    var more := SampleProblems(s, n);
    problems := problems + more;
    var derived := Claim(if n > 0 then n else 0, true, if failures > 0 then failures else 0);
    if s.claim.Text? && s.claim.s != derived {
      problems := problems + [ClaimDisagrees];
    }
    if requireDistribution && n < MIN_DISTRIBUTION_N {
      problems := problems + [TooFew];
    }
  }

  lemma {:induction false} CleanOfNumbers(v: seq<real>, items: seq<Field>)
    requires |items| == |v| && forall k :: 0 <= k < |v| ==> items[k] == Num(v[k])
    ensures Clean(items) == v && AllFinite(items)
  {
    if v != [] {
      CleanOfNumbers(v[..|v| - 1], items[..|v| - 1]);
      assert v == v[..|v| - 1] + [v[|v| - 1]];
    }
  }

  lemma MatchesItself(x: real)
    ensures Matches(Num(x), x)
  {
  }

  lemma SummaryRecomputes(items: seq<Field>, failures: int)
    requires Clean(items) != []
    ensures Recomputed(Summarize(items, failures, true), Clean(items))
  {
    MatchesItself(PercentileOf(Clean(items), 50.0).value);
    MatchesItself(PercentileOf(Clean(items), 95.0).value);
    MatchesItself(MaxOf(Clean(items)));
  }

  /** Everything but the statistics. */
  lemma SummaryShape(items: seq<Field>, failures: int, measured: bool)
    ensures var s := Summarize(items, failures, measured);
      && s.measured == Bool(measured) && s.n == Int(|Clean(items)|)
      && s.failures == Int(failures) && s.requested == Absent
      && s.claim == Text(Claim(|Clean(items)|, measured, failures))
      && s.samples.List? && |s.samples.items| == |Clean(items)|
      && Clean(s.samples.items) == Clean(items) && AllFinite(s.samples.items)
  {
    CleanOfNumbers(Clean(items), Summarize(items, failures, measured).samples.items);
  }

  lemma ShapeDecides(s: Stage, clean: seq<real>, failures: int, measured: bool, requireDistribution: bool)
    requires s.measured == Bool(measured) && s.n == Int(|clean|) && s.failures == Int(failures) && s.requested == Absent
    requires s.claim == Text(Claim(|clean|, measured, failures))
    requires s.samples.List? && |s.samples.items| == |clean| && Clean(s.samples.items) == clean
    requires AllFinite(s.samples.items)
    requires measured && clean != [] ==> Recomputed(s, clean)
    ensures Acceptable(s, requireDistribution) <==>
      && failures >= 0
      && (if !measured then !requireDistribution
          else |clean| > 0 && (requireDistribution ==> |clean| >= MIN_DISTRIBUTION_N && failures == 0))
  {
  }

  /** What the producer writes, the validator accepts exactly when there are samples enough and no failures: thirty and
      none where a distribution is required, one and any number elsewhere. */
  lemma ProducerAgrees(items: seq<Field>, failures: int, measured: bool, requireDistribution: bool)
    ensures Acceptable(Summarize(items, failures, measured), requireDistribution) <==>
      && failures >= 0
      && (if !measured then !requireDistribution
          else |Clean(items)| > 0 && (requireDistribution ==> |Clean(items)| >= MIN_DISTRIBUTION_N && failures == 0))
  {
    SummaryShape(items, failures, measured);
    if measured && Clean(items) != [] {
      SummaryRecomputes(items, failures);
    }
    ShapeDecides(Summarize(items, failures, measured), Clean(items), failures, measured, requireDistribution);
  }
}
