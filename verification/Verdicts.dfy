/** From page samples to verdicts: alignment, accounting, the label cover, and targets that silence cannot meet. */
module Verdicts {
  import opened Outcome
  import opened CorpusGroups
  import opened OrderStatistics
  import opened Sets
  import opened Metrics
  import Wilson

  // ----- Alignment -----

  /** The worst error of each page that has any, in the order of the pages. */
  function Worst(rs: seq<Reading>, order: seq<PageKey>): seq<real> {
    if order == [] then []
    else
      var k := order[|order| - 1];
      Worst(rs, order[..|order| - 1]) + (if PageOf(rs, k).errors == [] then [] else [MaxOf(PageOf(rs, k).errors)])
  }

  /** The pooled errors of `compute_metrics`. */
  method AlignErrors(rs: seq<Reading>, order: seq<PageKey>, pages: map<PageKey, Page>) returns (errors: seq<real>)
    requires Collapsed(rs, order, pages)
    ensures errors == Worst(rs, FirstSeen(rs))
  {
    errors := [];
    for n := 0 to |order|
      invariant errors == Worst(rs, order[..n])
    {
      assert order[..n + 1][..n] == order[..n];
      assert order[n] in pages;
      var found := pages[order[n]].errors;
      if found != [] {
        errors := errors + [MaxOf(found)];
      }
    }
    assert order[..|order|] == order;
  }

  datatype Alignment = Alignment(n: nat, p95: real, max: real)

  function AlignmentOf(errors: seq<real>): Option<Alignment> {
    if errors == [] then None else Some(Alignment(|errors|, Percentile(errors, 0.95).value, MaxOf(errors)))
  }

  /** As many values, none lower. */
  predicate Raised(v: seq<real>, w: seq<real>) {
    |v| == |w| && forall i :: 0 <= i < |v| ==> v[i] <= w[i]
  }

  /** The reading brings errors, if any, only to a page that has some. */
  predicate Known(rs: seq<Reading>, r: Reading) {
    r.errors != [] ==> PageOf(rs, r.key).errors != []
  }

  lemma MaxExtended(a: seq<real>, b: seq<real>)
    requires a != []
    ensures MaxOf(a) <= MaxOf(a + b)
  {
    assert MaxOf(a) in a + b;
  }

  lemma PageMore(rs: seq<Reading>, r: Reading, k: PageKey)
    ensures PageOf(rs + [r], k).errors == PageOf(rs, k).errors + if r.key == k then r.errors else []
  {
    assert (rs + [r])[..|rs|] == rs;
  }

  lemma {:induction false} WorstRaised(rs: seq<Reading>, r: Reading, order: seq<PageKey>)
    requires Known(rs, r)
    ensures Raised(Worst(rs, order), Worst(rs + [r], order))
  {
    if order != [] {
      var k := order[|order| - 1];
      WorstRaised(rs, r, order[..|order| - 1]);
      PageMore(rs, r, k);
      if PageOf(rs, k).errors != [] {
        MaxExtended(PageOf(rs, k).errors, if r.key == k then r.errors else []);
      }
    }
  }

  lemma OneMoreReading(rs: seq<Reading>, r: Reading)
    requires Known(rs, r)
    ensures Raised(Worst(rs, FirstSeen(rs)), Worst(rs + [r], FirstSeen(rs + [r])))
  {
    WorstRaised(rs, r, FirstSeen(rs));
    assert (rs + [r])[..|rs|] == rs;
    if r.key !in FirstSeen(rs) {
      UnseenFresh(rs, r.key);
      PageMore(rs, r, r.key);
      assert (FirstSeen(rs) + [r.key])[..|FirstSeen(rs)|] == FirstSeen(rs);
    }
  }

  lemma {:induction false} MoreReadings(rs: seq<Reading>, more: seq<Reading>)
    requires forall i :: 0 <= i < |more| ==> Known(rs, more[i])
    ensures Raised(Worst(rs, FirstSeen(rs)), Worst(rs + more, FirstSeen(rs + more)))
  {
    if more == [] {
      assert rs + more == rs;
    } else {
      var n := |more| - 1;
      MoreReadings(rs, more[..n]);
      ErrorsStay(rs, more[..n], more[n].key);
      OneMoreReading(rs + more[..n], more[n]);
      assert rs + more == rs + more[..n] + [more[n]];
    }
  }

  lemma {:induction false} ErrorsStay(rs: seq<Reading>, more: seq<Reading>, k: PageKey)
    ensures PageOf(rs, k).errors != [] ==> PageOf(rs + more, k).errors != []
  {
    if more == [] {
      assert rs + more == rs;
    } else {
      var n := |more| - 1;
      ErrorsStay(rs, more[..n], k);
      PageMore(rs + more[..n], more[n], k);
      assert rs + more == rs + more[..n] + [more[n]];
    }
  }

  /** Reading well-aligned pages again and again dilutes nothing: whatever is added for pages that carry errors
      already, and for pages without errors, leaves n as it was and lowers neither p95 nor the maximum. */
  lemma NotDiluted(rs: seq<Reading>, more: seq<Reading>)
    requires forall i :: 0 <= i < |more| ==> Known(rs, more[i])
    ensures var a, b := AlignmentOf(Worst(rs, FirstSeen(rs))), AlignmentOf(Worst(rs + more, FirstSeen(rs + more)));
      && (a.None? <==> b.None?)
      && (a.Some? ==> b.value.n == a.value.n && b.value.p95 >= a.value.p95 && b.value.max >= a.value.max)
  {
    MoreReadings(rs, more);
    var v, w := Worst(rs, FirstSeen(rs)), Worst(rs + more, FirstSeen(rs + more));
    if v != [] {
      PercentileGrows(v, w, 0.95);
      MaxGrows(v, w);
    }
  }

  // ----- Accounting -----

  datatype Accounting = Accounting(
    planned: nat, terminal: nat, fraction: Option<real>, missing: seq<string>, nonterminal: seq<string>, attempts: nat)

  predicate Attempted(rs: seq<Reading>, check: string) {
    exists i :: 0 <= i < |rs| && rs[i].check == check
  }

  predicate Terminated(rs: seq<Reading>, check: string) {
    exists i :: 0 <= i < |rs| && rs[i].check == check && rs[i].status in TERMINAL
  }

  /** `dict.fromkeys`: each once, in the order of the first. */
  function Unique(s: seq<string>): (u: seq<string>)
    ensures forall x :: x in u <==> x in s
    ensures NoRepeats(u)
  {
    if s == [] then []
    else
      var before := Unique(s[..|s| - 1]);
      var x := s[|s| - 1];
      assert s == s[..|s| - 1] + [x];
      assert (before + [x])[..|before|] == before;
      if x in before then before else before + [x]
  }

  function SumLengths(attempts: map<string, seq<string>>, keys: seq<string>): nat {
    if keys == [] then 0
    else
      var k := keys[|keys| - 1];
      SumLengths(attempts, keys[..|keys| - 1]) + if k in attempts then |attempts[k]| else 0
  }

  predicate NoRepeats(keys: seq<string>) {
    keys == [] || (keys[|keys| - 1] !in keys[..|keys| - 1] && NoRepeats(keys[..|keys| - 1]))
  }

  lemma {:induction false} SumLengthsStep(a: map<string, seq<string>>, keys: seq<string>, k: string, list: seq<string>)
    requires NoRepeats(keys)
    ensures SumLengths(a[k := list], keys) ==
      if k in keys then SumLengths(a, keys) + |list| - (if k in a then |a[k]| else 0) else SumLengths(a, keys)
  {
    if keys != [] {
      var init := keys[..|keys| - 1];
      SumLengthsStep(a, init, k, list);
      assert keys == init + [keys[|keys| - 1]];
    }
  }

  predicate SomeTerminal(statuses: seq<string>) {
    exists s :: s in statuses && s in TERMINAL
  }

  /** The attempts of one check: the statuses of its readings, and no others. */
  predicate GatheredAt(rs: seq<Reading>, attempts: map<string, seq<string>>, c: string) {
    && (c in attempts <==> Attempted(rs, c))
    && (c in attempts ==> (SomeTerminal(attempts[c]) <==> Terminated(rs, c)))
  }

  ghost predicate Gathered(rs: seq<Reading>, attempts: map<string, seq<string>>, keys: seq<string>) {
    && (forall c {:trigger GatheredAt(rs, attempts, c)} :: GatheredAt(rs, attempts, c))
    && Listed(attempts, keys)
    && SumLengths(attempts, keys) == |rs|
  }

  ghost predicate Listed(attempts: map<string, seq<string>>, keys: seq<string>) {
    (forall c :: c in attempts <==> c in keys) && NoRepeats(keys)
  }

  lemma GatherTerminated(rs: seq<Reading>, n: nat, c: string, list: seq<string>)
    requires n < |rs| && (SomeTerminal(list) <==> Terminated(rs[..n], c))
    ensures SomeTerminal(if rs[n].check == c then list + [rs[n].status] else list) <==> Terminated(rs[..n + 1], c)
  {
    var more := if rs[n].check == c then list + [rs[n].status] else list;
    var now := rs[..n + 1];
    assert now == rs[..n] + [rs[n]];
    if s :| s in more && s in TERMINAL {
      if s in list {
        var i :| 0 <= i < n && rs[..n][i].check == c && rs[..n][i].status in TERMINAL;
        assert now[i] == rs[..n][i];
      } else {
        assert now[n] == rs[n];
      }
    }
    if i :| 0 <= i < |now| && now[i].check == c && now[i].status in TERMINAL {
      if i < n {
        assert rs[..n][i] == now[i];
      } else {
        assert rs[n].status in more;
      }
    }
  }

  lemma AttemptedMore(rs: seq<Reading>, n: nat, c: string)
    requires n < |rs|
    ensures Attempted(rs[..n + 1], c) <==> Attempted(rs[..n], c) || rs[n].check == c
  {
    assert rs[..n + 1] == rs[..n] + [rs[n]];
    if i :| 0 <= i < n && rs[..n][i].check == c {
      assert rs[..n + 1][i] == rs[..n][i];
    }
    if rs[n].check == c {
      assert rs[..n + 1][n] == rs[n];
    }
  }

  lemma NotTerminatedUnattempted(rs: seq<Reading>, c: string)
    requires !Attempted(rs, c)
    ensures !Terminated(rs, c)
  {
  }

  lemma ListedOld(a: map<string, seq<string>>, keys: seq<string>, k: string, list: seq<string>)
    requires Listed(a, keys) && k in a
    ensures Listed(a[k := list], keys)
    ensures SumLengths(a[k := list], keys) == SumLengths(a, keys) + |list| - |a[k]|
  {
    SumLengthsStep(a, keys, k, list);
  }

  lemma ListedNew(a: map<string, seq<string>>, keys: seq<string>, k: string, list: seq<string>)
    requires Listed(a, keys) && k !in a
    ensures Listed(a[k := list], keys + [k])
    ensures SumLengths(a[k := list], keys + [k]) == SumLengths(a, keys) + |list|
  {
    SumLengthsStep(a, keys, k, list);
    assert (keys + [k])[..|keys|] == keys;
  }

  lemma StatusesStep(rs: seq<Reading>, n: nat, a: map<string, seq<string>>, c: string)
    requires n < |rs| && GatheredAt(rs[..n], a, c)
    ensures var k := rs[n].check;
      GatheredAt(rs[..n + 1], a[k := (if k in a then a[k] else []) + [rs[n].status]], c)
  {
    AttemptedMore(rs, n, c);
    if c !in a {
      NotTerminatedUnattempted(rs[..n], c);
    }
    GatherTerminated(rs, n, c, if c in a then a[c] else []);
  }

  lemma GatherStep(rs: seq<Reading>, n: nat, a: map<string, seq<string>>, keys: seq<string>)
    requires n < |rs| && Gathered(rs[..n], a, keys)
    ensures var k := rs[n].check; var list := if k in a then a[k] else [];
      Gathered(rs[..n + 1], a[k := list + [rs[n].status]], if k in a then keys else keys + [k])
  {
    var k := rs[n].check;
    var list := (if k in a then a[k] else []) + [rs[n].status];
    var b, next := a[k := list], rs[..n + 1];
    forall c {:trigger GatheredAt(next, b, c)}
      ensures GatheredAt(next, b, c)
    {
      assert GatheredAt(rs[..n], a, c);
      StatusesStep(rs, n, a, c);
    }
    if k in a {
      ListedOld(a, keys, k, list);
    } else {
      ListedNew(a, keys, k, list);
    }
  }

  /** `attempts.setdefault(check, []).append(status)`, and the order of the keys. */
  method Gather(rs: seq<Reading>) returns (attempts: map<string, seq<string>>, keys: seq<string>)
    ensures Gathered(rs, attempts, keys)
  {
    attempts, keys := map[], [];
    for n := 0 to |rs|
      invariant Gathered(rs[..n], attempts, keys)
    {
      GatherStep(rs, n, attempts, keys);
      var k := rs[n].check;
      var list := if k in attempts then attempts[k] else [];
      keys := if k in attempts then keys else keys + [k];
      attempts := attempts[k := list + [rs[n].status]];
    }
    assert rs[..|rs|] == rs;
  }

  /** The checks of a list that reached a terminal result. */
  ghost function Done(rs: seq<Reading>, checks: seq<string>): set<string> {
    set c | c in checks && Terminated(rs, c)
  }

  /** How the loops have divided the planned checks seen so far. */
  ghost predicate Divided(rs: seq<Reading>, seen: seq<string>, terminal: nat,
                          missing: seq<string>, nonterminal: seq<string>) {
    && |seen| == terminal + |missing| + |nonterminal|
    && terminal == |Done(rs, seen)|
    && NoRepeats(missing) && NoRepeats(nonterminal)
    && (forall c :: c in missing <==> c in seen && !Attempted(rs, c))
    && (forall c :: c in nonterminal <==> c in seen && Attempted(rs, c) && !Terminated(rs, c))
  }

  lemma NoRepeatsAdd(s: seq<string>, x: string)
    requires NoRepeats(s) && x !in s
    ensures NoRepeats(s + [x])
  {
    assert (s + [x])[..|s|] == s;
  }

  lemma DivideStep(rs: seq<Reading>, seen: seq<string>, t: nat, m: seq<string>, n: seq<string>, c: string)
    requires Divided(rs, seen, t, m, n) && c !in seen
    ensures Terminated(rs, c) ==> Divided(rs, seen + [c], t + 1, m, n)
    ensures !Attempted(rs, c) ==> Divided(rs, seen + [c], t, m + [c], n)
    ensures Attempted(rs, c) && !Terminated(rs, c) ==> Divided(rs, seen + [c], t, m, n + [c])
  {
    var before, after := Done(rs, seen), Done(rs, seen + [c]);
    assert c !in before;
    if Terminated(rs, c) {
      assert after == before + {c};
    } else {
      assert after == before;
    }
    NoRepeatsAdd(m, c);
    NoRepeatsAdd(n, c);
  }

  lemma {:induction false} NoRepeatsPrefix(s: seq<string>, n: nat)
    requires NoRepeats(s) && n < |s|
    ensures s[n] !in s[..n]
  {
    if n < |s| - 1 {
      NoRepeatsPrefix(s[..|s| - 1], n);
      assert s[..|s| - 1][..n] == s[..n];
    }
  }

  method Classify(rs: seq<Reading>, planned: seq<string>, attempts: map<string, seq<string>>, ghost keys: seq<string>)
    returns (terminal: nat, missing: seq<string>, nonterminal: seq<string>)
    requires Gathered(rs, attempts, keys) && NoRepeats(planned)
    ensures Divided(rs, planned, terminal, missing, nonterminal)
  {
    terminal, missing, nonterminal := 0, [], [];
    assert Done(rs, planned[..0]) == {};
    for n := 0 to |planned|
      invariant Divided(rs, planned[..n], terminal, missing, nonterminal)
    {
      var c := planned[n];
      NoRepeatsPrefix(planned, n);
      DivideStep(rs, planned[..n], terminal, missing, nonterminal, c);
      assert planned[..n + 1] == planned[..n] + [c];
      assert GatheredAt(rs, attempts, c);
      if c !in attempts {
        missing := missing + [c];
      } else if SomeTerminal(attempts[c]) {
        terminal := terminal + 1;
      } else {
        nonterminal := nonterminal + [c];
      }
    }
    assert planned[..|planned|] == planned;
  }

  /** `check_accounting`. */
  method CheckAccounting(rs: seq<Reading>, plannedIds: seq<string>) returns (a: Accounting)
    ensures a.planned == |Unique(plannedIds)| == a.terminal + |a.missing| + |a.nonterminal|
    ensures a.fraction == Rate(a.terminal, a.planned)
    ensures a.terminal == |set c | c in plannedIds && Terminated(rs, c)|
    ensures forall c :: c in a.missing <==> c in plannedIds && !Attempted(rs, c)
    ensures forall c :: c in a.nonterminal <==> c in plannedIds && Attempted(rs, c) && !Terminated(rs, c)
    ensures NoRepeats(a.missing) && NoRepeats(a.nonterminal)
    ensures a.attempts == |rs|
  {
    var planned := Unique(plannedIds);
    var attempts, keys := Gather(rs);
    var terminal, missing, nonterminal := Classify(rs, planned, attempts, keys);
    assert Done(rs, planned) == (set c | c in plannedIds && Terminated(rs, c));
    var total := 0;
    for n := 0 to |keys|
      invariant total == SumLengths(attempts, keys[..n])
    {
      assert keys[..n + 1][..n] == keys[..n];
      total := total + |attempts[keys[n]]|;
    }
    assert keys[..|keys|] == keys;
    a := Accounting(|planned|, terminal, Rate(terminal, |planned|), missing, nonterminal, total);
  }

  // ----- Labels -----

  /** `check_labels_cover_corpus`: the pages without a label, and the labels without a page. */
  method CheckLabelsCover(labels: Labels, corpus: set<PageKey>) returns (covered: bool)
    ensures covered <==> labels.Keys == corpus
  {
    var unlabeled := corpus - labels.Keys;
    var stray := labels.Keys - corpus;
    covered := unlabeled == {} && stray == {};
  }

  /** Every page has one truth. */
  lemma TruthsPartition(labels: Labels)
    ensures |TruthPages(labels, Clean)| + |TruthPages(labels, SupportedFailure)| + |TruthPages(labels, Unsupported)|
      == |labels.Keys|
  {
    var a, b, c := TruthPages(labels, Clean), TruthPages(labels, SupportedFailure), TruthPages(labels, Unsupported);
    assert labels.Keys == a + b + c;
    assert a !! b && (a + b) !! c;
  }

  /** After the cover check the denominators add up to the corpus, and every page of the groups has a label to look
      up. */
  lemma DenominatorsAddUp(es: seq<Entry>, groups: Effective, labels: Labels)
    requires Mapped(es, groups) && labels.Keys == PageKeys(es)
    ensures |TruthPages(labels, Clean)| + |TruthPages(labels, SupportedFailure)| + |TruthPages(labels, Unsupported)|
      == |PageKeys(es)|
    ensures forall k :: k in groups ==> k in labels
  {
    TruthsPartition(labels);
    assert groups.Keys == labels.Keys;
  }

  // ----- Targets -----

  datatype Comparator = AtLeast | AtMostBy | Equals | Below

  datatype Target = Target(metric: string, comparator: Comparator, threshold: real, minSamples: Option<nat>)

  datatype Verdict = Verdict(met: bool, observed: Option<real>, reason: Reason)

  datatype Reason =
    | NoRun
    | UnknownMetric
    | NotMeasured
    | InsufficientEvidence(have: nat, needed: nat)
    | BelowTarget
    | AsMeasured

  /** `_compare`. */
  predicate Compare(observed: real, c: Comparator, threshold: real) {
    match c
    case AtLeast => observed >= threshold
    case AtMostBy => observed <= threshold
    case Equals => observed == threshold
    case Below => observed < threshold
  }

  /** What a run observed for each metric the report knows; `None` where nothing was bound. */
  type Run = Option<map<string, Option<real>>>

  predicate Measured(t: Target, run: Run) {
    run.Some? && t.metric in run.value && run.value[t.metric].Some?
  }

  predicate Enough(t: Target, samples: map<string, nat>) {
    t.minSamples.Some? ==> t.metric in samples && samples[t.metric] >= t.minSamples.value
  }

  /** A run measured the metric, over as many samples as the target demands, and the comparison holds. */
  predicate Passes(t: Target, run: Run, samples: map<string, nat>) {
    Measured(t, run) && Enough(t, samples) && Compare(run.value[t.metric].value, t.comparator, t.threshold)
  }

  /** The reason a verdict gives is the case, and so is all that would have been asked before it. */
  predicate Explained(reason: Reason, t: Target, run: Run, samples: map<string, nat>) {
    match reason
    case NoRun => run.None?
    case UnknownMetric => run.Some? && t.metric !in run.value
    case NotMeasured => run.Some? && t.metric in run.value && !Measured(t, run)
    case InsufficientEvidence(have, needed) =>
      && Measured(t, run) && !Enough(t, samples) && t.minSamples == Some(needed)
      && have == (if t.metric in samples then samples[t.metric] else 0)
    case BelowTarget => Measured(t, run) && Enough(t, samples) && !Passes(t, run, samples)
    case AsMeasured => Passes(t, run, samples)
  }

  /** `target_verdicts`: met are exactly the targets that pass, and every verdict carries its true reason and the value
      observed, if there is one. */
  method TargetVerdicts(targets: seq<Target>, run: Run, samples: map<string, nat>) returns (verdicts: seq<Verdict>)
    ensures |verdicts| == |targets|
    ensures forall i :: 0 <= i < |targets| ==> (verdicts[i].met <==> Passes(targets[i], run, samples))
    ensures forall i :: 0 <= i < |targets| ==> Explained(verdicts[i].reason, targets[i], run, samples)
    ensures forall i :: 0 <= i < |targets| ==>
      verdicts[i].observed == if Measured(targets[i], run) then run.value[targets[i].metric] else None
  {
    verdicts := [];
    for n := 0 to |targets|
      invariant |verdicts| == n
      invariant forall i :: 0 <= i < n ==> (verdicts[i].met <==> Passes(targets[i], run, samples))
      invariant forall i :: 0 <= i < n ==> Explained(verdicts[i].reason, targets[i], run, samples)
      invariant forall i :: 0 <= i < n ==>
        verdicts[i].observed == if Measured(targets[i], run) then run.value[targets[i].metric] else None
    {
      var t := targets[n];
      var met, observed, reason := false, None, NoRun;
      if run.Some? {
        if t.metric !in run.value {
          reason := UnknownMetric;
        } else {
          observed := run.value[t.metric];
          if observed.None? {
            reason := NotMeasured;
          } else if t.minSamples.Some? && (t.metric !in samples || samples[t.metric] < t.minSamples.value) {
            reason := InsufficientEvidence(if t.metric in samples then samples[t.metric] else 0, t.minSamples.value);
          } else if Compare(observed.value, t.comparator, t.threshold) {
            met, reason := true, AsMeasured;
          } else {
            reason := BelowTarget;
          }
        }
      }
      verdicts := verdicts + [Verdict(met, observed, reason)];
    }
  }

  const SUPPORTED := "supported_coverage"
  const FULL := "full_coverage"

  /** What the two coverage metrics report of a run. */
  function Observed(pages: map<PageKey, Page>, labels: Labels): map<string, Option<real>> {
    map[SUPPORTED := SupportedCoverage(pages, labels), FULL := FullCoverage(pages, labels)]
  }

  /** Their samples are counted in the labels alone. */
  function Samples(labels: Labels): map<string, nat> {
    map[SUPPORTED := |TruthPages(labels, SupportedFailure)|, FULL := |labels.Keys|]
  }

  lemma RateGrows(a: int, b: int, n: nat)
    requires a <= b && n > 0
    ensures Rate(a, n).value <= Rate(b, n).value
  {
    if a < b {
      Wilson.Ratios(a, b, n);
    }
  }

  /** Dropping readings meets no coverage target that all of them leave unmet. */
  lemma SilenceMeetsNothing(few: seq<Reading>, many: seq<Reading>, o: seq<PageKey>, p: map<PageKey, Page>,
                            q: seq<PageKey>, r: map<PageKey, Page>, labels: Labels, t: Target)
    requires Within(few, many) && Collapsed(few, o, p) && Collapsed(many, q, r)
    requires t.comparator == AtLeast && Passes(t, Some(Observed(p, labels)), Samples(labels))
    ensures Passes(t, Some(Observed(r, labels)), Samples(labels))
  {
    var of := if t.metric == SUPPORTED then TruthPages(labels, SupportedFailure) else labels.Keys;
    CoverageShrinks(few, many, o, p, q, r, of);
    RateGrows(Covered(p, of), Covered(r, of), |of|);
  }

  const OCCURRENCE := "occurrence_preservation_fraction"

  /** What `occurrence_preservation` reports of a run, over the pages declared. */
  ghost function Occurrences(rs: seq<Reading>, expected: map<PageKey, nat>): Run {
    Some(map[OCCURRENCE := Rate(|PreservedIn(rs, expected)|, |expected|)])
  }

  ghost function PreservedIn(rs: seq<Reading>, expected: map<PageKey, nat>): set<PageKey> {
    set k | k in expected && Preserved(rs, k, expected[k])
  }

  /** No reading dropped reports fewer occurrences of a declared page than every reading kept does. */
  ghost predicate NoneFewer(few: seq<Reading>, many: seq<Reading>, expected: map<PageKey, nat>)
    requires Within(few, many)
  {
    forall k :: k in expected ==> NoneFewerOn(few, many, k)
  }

  ghost predicate NoneFewerOn(few: seq<Reading>, many: seq<Reading>, k: PageKey)
    requires Within(few, many)
  {
    SilenceExactly(few, many, k);
    PageOf(few, k).occurrences == [] || Least(PageOf(few, k).occurrences) == Least(PageOf(many, k).occurrences)
  }

  /** If none does, silence meets no target for the share of preserved pages either. */
  lemma SilencePreservesNothing(few: seq<Reading>, many: seq<Reading>, expected: map<PageKey, nat>, t: Target,
                                samples: map<string, nat>)
    requires Within(few, many) && NoneFewer(few, many, expected)
    requires t.comparator == AtLeast && Passes(t, Occurrences(few, expected), samples)
    ensures Passes(t, Occurrences(many, expected), samples)
  {
    var p, q := PreservedIn(few, expected), PreservedIn(many, expected);
    forall k | k in p
      ensures k in q
    {
      assert NoneFewerOn(few, many, k);
      SilenceExactly(few, many, k);
    }
    SubsetCard(p, q);
    RateGrows(|p|, |q|, |expected|);
  }

  lemma OneExpected(rs: seq<Reading>, k: PageKey, e: nat)
    ensures |PreservedIn(rs, map[k := e])| == if Preserved(rs, k, e) then 1 else 0
  {
    var p := PreservedIn(rs, map[k := e]);
    if Preserved(rs, k, e) {
      assert p == {k};
    } else {
      assert p == {};
    }
  }

  const ALL_PRESERVED := Target(OCCURRENCE, AtLeast, 1.0, None)

  /** With one page declared the target is met exactly when that page is preserved. */
  lemma OnePageMet(rs: seq<Reading>, k: PageKey, e: nat)
    ensures Passes(ALL_PRESERVED, Occurrences(rs, map[k := e]), map[]) <==> Preserved(rs, k, e)
  {
    OneExpected(rs, k, e);
    assert |map[k := e]| == 1;
  }

  /** And only then, for some counts to expect: where a reading dropped reports fewer, a target that all readings leave
      unmet is met without it. */
  lemma SilencePreserves(few: seq<Reading>, many: seq<Reading>, k: PageKey)
    requires Within(few, many) && !NoneFewerOn(few, many, k) && Least(PageOf(few, k).occurrences) >= 0
    ensures var expected := map[k := Least(PageOf(few, k).occurrences) as nat];
      && Passes(ALL_PRESERVED, Occurrences(few, expected), map[])
      && !Passes(ALL_PRESERVED, Occurrences(many, expected), map[])
  {
    var e: nat := Least(PageOf(few, k).occurrences);
    SilenceExactly(few, many, k);
    LeastPreserved(few, k, e);
    LeastPreserved(many, k, e);
    OnePageMet(few, k, e);
    OnePageMet(many, k, e);
  }

  function Shows(k: PageKey, count: int): Reading {
    Reading(k, "c", "completed", None, [], [], Some(count))
  }

  /** A run: of two readings of a page that should show two occurrences, one reports one. */
  lemma SilenceRun(k: PageKey)
    ensures var two, one := Shows(k, 2), Shows(k, 1);
      && Within([two], [two, one])
      && Passes(ALL_PRESERVED, Occurrences([two], map[k := 2]), map[])
      && !Passes(ALL_PRESERVED, Occurrences([two, one], map[k := 2]), map[])
  {
    var two, one := Shows(k, 2), Shows(k, 1);
    assert Reports([two][0], k) && Reports([two, one][1], k);
    OnePageMet([two], k, 2);
    OnePageMet([two, one], k, 2);
  }
}
