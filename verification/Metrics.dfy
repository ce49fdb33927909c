/** Page samples: readings collapsed to pages, denominators from the labels, counts that re-reading cannot move. */
module Metrics {
  import opened Outcome
  import opened Sequences
  import opened Sets
  import opened CorpusGroups

  const TERMINAL := {"completed", "unsupported", "timeout", "cancelled", "failed", "skipped"}
  const RESOLUTIONS := {"useful_finding", "actionable_comparison"}

  datatype Reading = Reading(
    key: PageKey, check: string, status: string, resolution: Option<string>, findings: seq<string>, errors: seq<real>,
    occurrence: Option<int>)

  datatype Page = Page(
    readings: nat, statuses: map<string, nat>, resolved: bool, findings: set<string>, errors: seq<real>,
                       occurrences: seq<int>)

  const FRESH := Page(0, map[], false, {}, [], [])

  predicate Resolves(r: Reading) {
    r.status == "completed" && r.resolution.Some? && r.resolution.value in RESOLUTIONS
  }

  /** A reading whose count of occurrences is taken into account. */
  predicate Reports(r: Reading, k: PageKey) {
    r.key == k && r.status == "completed" && r.occurrence.Some?
  }

  /** One more attempt on a page. */
  function Add(p: Page, r: Reading): Page {
    Page(p.readings + 1,
         p.statuses[r.status := (if r.status in p.statuses then p.statuses[r.status] else 0) + 1],
         p.resolved || Resolves(r),
         p.findings + Elements(r.findings),
         p.errors + r.errors,
         p.occurrences + if Reports(r, r.key) then [r.occurrence.value] else [])
  }

  /** All attempts on one page. */
  function PageOf(rs: seq<Reading>, k: PageKey): Page {
    if rs == [] then FRESH
    else
      var last := rs[|rs| - 1];
      var before := PageOf(rs[..|rs| - 1], k);
      if last.key == k then Add(before, last) else before
  }

  /** The pages in the order of their first attempt. */
  function FirstSeen(rs: seq<Reading>): (order: seq<PageKey>) {
    if rs == [] then []
    else
      var before := FirstSeen(rs[..|rs| - 1]);
      var k := rs[|rs| - 1].key;
      if k in before then before else before + [k]
  }

  ghost predicate Collapsed(rs: seq<Reading>, order: seq<PageKey>, pages: map<PageKey, Page>) {
    && order == FirstSeen(rs)
    && (forall k :: k in pages <==> k in order)
    && (forall k :: k in pages ==> pages[k] == PageOf(rs, k))
  }

  lemma {:induction false} UnseenFresh(rs: seq<Reading>, k: PageKey)
    ensures k in FirstSeen(rs) <==> exists i :: 0 <= i < |rs| && rs[i].key == k
    ensures k !in FirstSeen(rs) ==> PageOf(rs, k) == FRESH
  {
    if rs != [] {
      var before := rs[..|rs| - 1];
      UnseenFresh(before, k);
      if rs[|rs| - 1].key != k {
        if i :| 0 <= i < |rs| && rs[i].key == k {
          assert before[i].key == k;
        }
        if i :| 0 <= i < |before| && before[i].key == k {
          assert rs[i].key == k;
        }
      }
    }
  }

  lemma CollapseStep(rs: seq<Reading>, n: nat, order: seq<PageKey>, pages: map<PageKey, Page>)
    requires n < |rs| && Collapsed(rs[..n], order, pages)
    ensures var k := rs[n].key; var page := if k in pages then pages[k] else FRESH;
      Collapsed(rs[..n + 1], if k in pages then order else order + [k], pages[k := Add(page, rs[n])])
  {
    assert rs[..n + 1][..n] == rs[..n];
    UnseenFresh(rs[..n], rs[n].key);
  }

  /** `collapse_readings`: the dictionary, and the order in which it was filled. */
  method CollapseReadings(rs: seq<Reading>) returns (order: seq<PageKey>, pages: map<PageKey, Page>)
    ensures Collapsed(rs, order, pages)
  {
    order, pages := [], map[];
    for n := 0 to |rs|
      invariant Collapsed(rs[..n], order, pages)
    {
      var k := rs[n].key;
      CollapseStep(rs, n, order, pages);
      if k !in pages {
        order := order + [k];
        pages := pages[k := FRESH];
      }
      pages := pages[k := Add(pages[k], rs[n])];
    }
    assert rs[..|rs|] == rs;
  }

  // ----- What a page says -----

  /** A page resolves when one of its attempts does. */
  lemma {:induction false} ResolvedMeans(rs: seq<Reading>, k: PageKey)
    ensures PageOf(rs, k).resolved <==> exists i :: 0 <= i < |rs| && rs[i].key == k && Resolves(rs[i])
  {
    if rs != [] {
      var n := |rs| - 1;
      ResolvedMeans(rs[..n], k);
      if i :| 0 <= i < |rs| && rs[i].key == k && Resolves(rs[i]) {
        assert i < n ==> rs[..n][i] == rs[i];
      }
      if i :| 0 <= i < n && rs[..n][i].key == k && Resolves(rs[..n][i]) {
        assert rs[i] == rs[..n][i];
      }
    }
  }

  /** Its findings are those of its attempts, each once. */
  lemma {:induction false} FindingsMean(rs: seq<Reading>, k: PageKey, f: string)
    ensures f in PageOf(rs, k).findings <==> exists i :: 0 <= i < |rs| && rs[i].key == k && f in rs[i].findings
  {
    if rs != [] {
      var n := |rs| - 1;
      FindingsMean(rs[..n], k, f);
      if i :| 0 <= i < |rs| && rs[i].key == k && f in rs[i].findings {
        assert i < n ==> rs[..n][i] == rs[i];
      }
      if i :| 0 <= i < n && rs[..n][i].key == k && f in rs[..n][i].findings {
        assert rs[i] == rs[..n][i];
      }
    }
  }

  // ----- Conservation -----

  function SumReadings(rs: seq<Reading>, order: seq<PageKey>): nat {
    if order == [] then 0 else SumReadings(rs, order[..|order| - 1]) + PageOf(rs, order[|order| - 1]).readings
  }

  /** A reading more adds one to its own page and none to others. */
  lemma {:induction false} SumStep(rs: seq<Reading>, order: seq<PageKey>)
    requires rs != [] && forall i, j :: 0 <= i < j < |order| ==> order[i] != order[j]
    ensures var before := rs[..|rs| - 1];
      SumReadings(rs, order) == SumReadings(before, order) + if rs[|rs| - 1].key in order then 1 else 0
  {
    if order != [] {
      var init := order[..|order| - 1];
      SumStep(rs, init);
      assert order == init + [order[|order| - 1]];
    }
  }

  lemma {:induction false} FirstSeenDistinct(rs: seq<Reading>)
    ensures forall i, j :: 0 <= i < j < |FirstSeen(rs)| ==> FirstSeen(rs)[i] != FirstSeen(rs)[j]
  {
    if rs != [] {
      FirstSeenDistinct(rs[..|rs| - 1]);
    }
  }

  /** Readings are neither lost nor counted twice. */
  lemma {:induction false} ReadingsConserved(rs: seq<Reading>)
    ensures SumReadings(rs, FirstSeen(rs)) == |rs|
  {
    if rs != [] {
      var before := rs[..|rs| - 1];
      var k := rs[|rs| - 1].key;
      ReadingsConserved(before);
      FirstSeenDistinct(before);
      SumStep(rs, FirstSeen(before));
      if k !in FirstSeen(before) {
        UnseenFresh(before, k);
        assert FirstSeen(rs)[..|FirstSeen(rs)| - 1] == FirstSeen(before);
      }
    }
  }

  /** How many attempts on a page ended in a status. */
  function Ended(rs: seq<Reading>, k: PageKey, status: string): nat {
    if rs == [] then 0
    else
      var last := rs[|rs| - 1];
      Ended(rs[..|rs| - 1], k, status) + if last.key == k && last.status == status then 1 else 0
  }

  lemma {:induction false} StatusesMean(rs: seq<Reading>, k: PageKey, status: string)
    ensures status in PageOf(rs, k).statuses <==> Ended(rs, k, status) > 0
    ensures status in PageOf(rs, k).statuses ==> PageOf(rs, k).statuses[status] == Ended(rs, k, status)
  {
    if rs != [] {
      StatusesMean(rs[..|rs| - 1], k, status);
    }
  }

  function SumEnded(rs: seq<Reading>, k: PageKey, statuses: seq<string>): nat {
    if statuses == [] then 0
    else SumEnded(rs, k, statuses[..|statuses| - 1]) + Ended(rs, k, statuses[|statuses| - 1])
  }

  lemma {:induction false} SumEndedStep(rs: seq<Reading>, k: PageKey, statuses: seq<string>)
    requires rs != [] && forall i, j :: 0 <= i < j < |statuses| ==> statuses[i] != statuses[j]
    ensures var before, last := rs[..|rs| - 1], rs[|rs| - 1];
      SumEnded(rs, k, statuses) ==
      SumEnded(before, k, statuses) + if last.key == k && last.status in statuses then 1 else 0
  {
    if statuses != [] {
      var init := statuses[..|statuses| - 1];
      SumEndedStep(rs, k, init);
      assert statuses == init + [statuses[|statuses| - 1]];
    }
  }

  lemma {:induction false} NoneEnded(k: PageKey, statuses: seq<string>)
    ensures SumEnded([], k, statuses) == 0
  {
    if statuses != [] {
      NoneEnded(k, statuses[..|statuses| - 1]);
    }
  }

  /** The sum of a page's own tallies over a listing of statuses. */
  function SumStatuses(p: Page, statuses: seq<string>): nat {
    if statuses == [] then 0
    else
      var s := statuses[|statuses| - 1];
      SumStatuses(p, statuses[..|statuses| - 1]) + if s in p.statuses then p.statuses[s] else 0
  }

  lemma {:induction false} TalliesAreEnded(rs: seq<Reading>, k: PageKey, statuses: seq<string>)
    ensures SumStatuses(PageOf(rs, k), statuses) == SumEnded(rs, k, statuses)
  {
    if statuses != [] {
      TalliesAreEnded(rs, k, statuses[..|statuses| - 1]);
      StatusesMean(rs, k, statuses[|statuses| - 1]);
    }
  }

  lemma {:induction false} EndedConserved(rs: seq<Reading>, k: PageKey, statuses: seq<string>)
    requires forall i, j :: 0 <= i < j < |statuses| ==> statuses[i] != statuses[j]
    requires forall s :: s in PageOf(rs, k).statuses ==> s in statuses
    ensures SumEnded(rs, k, statuses) == PageOf(rs, k).readings
  {
    if rs == [] {
      NoneEnded(k, statuses);
    } else {
      EndedConserved(rs[..|rs| - 1], k, statuses);
      SumEndedStep(rs, k, statuses);
    }
  }

  /** The tallies of a page, over any listing of its statuses, add up to its readings. */
  lemma StatusesConserved(rs: seq<Reading>, k: PageKey, statuses: seq<string>)
    requires forall i, j :: 0 <= i < j < |statuses| ==> statuses[i] != statuses[j]
    requires forall s :: s in PageOf(rs, k).statuses ==> s in statuses
    ensures SumStatuses(PageOf(rs, k), statuses) == PageOf(rs, k).readings
  {
    TalliesAreEnded(rs, k, statuses);
    EndedConserved(rs, k, statuses);
  }

  // ----- Occurrences -----

  /** The counts of a page are those its completed readings report. */
  lemma {:induction false} OccurrencesMean(rs: seq<Reading>, k: PageKey, count: int)
    ensures count in PageOf(rs, k).occurrences <==>
      exists i :: 0 <= i < |rs| && Reports(rs[i], k) && rs[i].occurrence.value == count
  {
    if rs != [] {
      var n := |rs| - 1;
      OccurrencesMean(rs[..n], k, count);
      if i :| 0 <= i < |rs| && Reports(rs[i], k) && rs[i].occurrence.value == count {
        assert i < n ==> rs[..n][i] == rs[i];
      }
      if i :| 0 <= i < n && Reports(rs[..n][i], k) && rs[..n][i].occurrence.value == count {
        assert rs[i] == rs[..n][i];
      }
    }
  }

  /** Some completed reading of the page reports the expected count, and none reports fewer. */
  predicate Preserved(rs: seq<Reading>, k: PageKey, expected: int) {
    && (exists i :: 0 <= i < |rs| && Reports(rs[i], k) && rs[i].occurrence.value == expected)
    && (forall i :: 0 <= i < |rs| && Reports(rs[i], k) ==> rs[i].occurrence.value >= expected)
  }

  function Least(counts: seq<int>): (m: int)
    requires counts != []
    ensures m in counts && forall c :: c in counts ==> m <= c
  {
    var c := counts[|counts| - 1];
    if |counts| == 1 then c
    else
      assert counts == counts[..|counts| - 1] + [c];
      var m := Least(counts[..|counts| - 1]);
      if m <= c then m else c
  }

  lemma LeastPreserved(rs: seq<Reading>, k: PageKey, expected: int)
    ensures var counts := PageOf(rs, k).occurrences;
      (counts != [] && Least(counts) == expected) <==> Preserved(rs, k, expected)
  {
    var counts := PageOf(rs, k).occurrences;
    OccurrencesMean(rs, k, expected);
    forall i | 0 <= i < |rs| && Reports(rs[i], k)
      ensures rs[i].occurrence.value in counts
    {
      OccurrencesMean(rs, k, rs[i].occurrence.value);
    }
    if counts != [] {
      OccurrencesMean(rs, k, Least(counts));
    }
  }

  datatype Preservation = Preservation(pages: nat, preserved: nat, fraction: Option<real>, lost: seq<PageKey>)

  /** The declared pages, as far as the listing goes, whose occurrences were preserved. */
  ghost function PreservedPages(rs: seq<Reading>, declared: seq<PageKey>, expected: map<PageKey, nat>): set<PageKey> {
    set k | k in declared && k in expected && Preserved(rs, k, expected[k])
  }

  /** The pages not preserved, in order. */
  ghost function Lost(rs: seq<Reading>, seen: seq<PageKey>, expected: map<PageKey, nat>): seq<PageKey> {
    if seen == [] then []
    else
      var k := seen[|seen| - 1];
      var before := Lost(rs, seen[..|seen| - 1], expected);
      if k in expected && !Preserved(rs, k, expected[k]) then before + [k] else before
  }

  ghost predicate Sifted(rs: seq<Reading>, seen: seq<PageKey>, expected: map<PageKey, nat>, lost: seq<PageKey>) {
    && |seen| == |PreservedPages(rs, seen, expected)| + |lost|
    && Distinct(lost)
    && forall k :: k in lost <==> k in seen && k in expected && !Preserved(rs, k, expected[k])
  }

  lemma PreservedMore(rs: seq<Reading>, seen: seq<PageKey>, expected: map<PageKey, nat>, k: PageKey)
    requires k !in seen && k in expected
    ensures |PreservedPages(rs, seen + [k], expected)| ==
      |PreservedPages(rs, seen, expected)| + if Preserved(rs, k, expected[k]) then 1 else 0
  {
    var before, after := PreservedPages(rs, seen, expected), PreservedPages(rs, seen + [k], expected);
    assert k !in before;
    assert after == before + if Preserved(rs, k, expected[k]) then {k} else {};
  }

  lemma SiftStep(rs: seq<Reading>, seen: seq<PageKey>, expected: map<PageKey, nat>, lost: seq<PageKey>, k: PageKey)
    requires Sifted(rs, seen, expected, lost) && k !in seen && k in expected
    ensures Sifted(rs, seen + [k], expected, if Preserved(rs, k, expected[k]) then lost else lost + [k])
  {
    PreservedMore(rs, seen, expected, k);
  }

  lemma {:induction false} LostSifts(rs: seq<Reading>, seen: seq<PageKey>, expected: map<PageKey, nat>)
    requires Distinct(seen) && forall k :: k in seen ==> k in expected
    ensures Sifted(rs, seen, expected, Lost(rs, seen, expected))
  {
    if seen == [] {
      assert PreservedPages(rs, seen, expected) == {};
    } else {
      var init, k := seen[..|seen| - 1], seen[|seen| - 1];
      LostSifts(rs, init, expected);
      assert seen == init + [k];
      SiftStep(rs, init, expected, Lost(rs, init, expected), k);
    }
  }

  function CountsOn(pages: map<PageKey, Page>, k: PageKey): seq<int> {
    if k in pages then pages[k].occurrences else []
  }

  lemma CountsPreserved(rs: seq<Reading>, order: seq<PageKey>, pages: map<PageKey, Page>, k: PageKey, expected: int)
    requires Collapsed(rs, order, pages)
    ensures var counts := CountsOn(pages, k);
      (counts == [] || Least(counts) != expected) <==> !Preserved(rs, k, expected)
  {
    UnseenFresh(rs, k);
    LeastPreserved(rs, k, expected);
  }

  method LostPages(ghost rs: seq<Reading>, ghost order: seq<PageKey>, pages: map<PageKey, Page>, declared: seq<PageKey>,
                   expected: map<PageKey, nat>) returns (lost: seq<PageKey>)
    requires Collapsed(rs, order, pages) && forall k :: k in declared ==> k in expected
    ensures lost == Lost(rs, declared, expected)
  {
    lost := [];
    for n := 0 to |declared|
      invariant lost == Lost(rs, declared[..n], expected)
    {
      var k := declared[n];
      CountsPreserved(rs, order, pages, k, expected[k]);
      assert declared[..n + 1][..n] == declared[..n];
      var counts := CountsOn(pages, k);
      if counts == [] || Least(counts) != expected[k] {
        lost := lost + [k];
      }
    }
    assert declared[..|declared|] == declared;
  }

  /** `occurrence_preservation` over the sorted listing of the pages that declare a count: a page is preserved exactly
      when a reading reports its count and none reports fewer; the others are lost, each once. */
  method OccurrencePreservation(ghost rs: seq<Reading>, ghost order: seq<PageKey>, pages: map<PageKey, Page>,
                                declared: seq<PageKey>, expected: map<PageKey, nat>) returns (p: Preservation)
    requires Collapsed(rs, order, pages)
    requires Distinct(declared) && forall k :: k in declared <==> k in expected
    ensures p.pages == |expected| && p.pages == p.preserved + |p.lost|
    ensures p.preserved == |PreservedPages(rs, declared, expected)|
    ensures p.fraction == Rate(p.preserved, |expected|)
    ensures Distinct(p.lost)
    ensures forall k :: k in p.lost <==> k in expected && !Preserved(rs, k, expected[k])
  {
    var lost := LostPages(rs, order, pages, declared, expected);
    LostSifts(rs, declared, expected);
    DistinctCard(declared);
    assert Elements(declared) == expected.Keys;
    p := Preservation(|declared|, |declared| - |lost|, Rate(|declared| - |lost|, |declared|), lost);
  }

  lemma LastElement(order: seq<PageKey>)
    requires Distinct(order) && order != []
    ensures var init, k := order[..|order| - 1], order[|order| - 1];
      Distinct(init) && k !in Elements(init) && Elements(order) == Elements(init) + {k}
  {
    assert order == order[..|order| - 1] + [order[|order| - 1]];
  }

  lemma {:induction false} DistinctCard(order: seq<PageKey>)
    requires Distinct(order)
    ensures |Elements(order)| == |order|
  {
    if order != [] {
      LastElement(order);
      DistinctCard(order[..|order| - 1]);
    }
  }

  // ----- Coverage and alerts -----

  datatype Truth = Clean | SupportedFailure | Unsupported

  type Labels = map<PageKey, Truth>

  function TruthPages(labels: Labels, t: Truth): set<PageKey> {
    set k | k in labels && labels[k] == t
  }

  predicate IsResolved(pages: map<PageKey, Page>, k: PageKey) {
    k in pages && pages[k].resolved
  }

  function Uncovered(pages: map<PageKey, Page>, of: set<PageKey>): set<PageKey> {
    set k | k in of && !IsResolved(pages, k)
  }

  /** The count of `supported_coverage` and `full_coverage`. */
  function Covered(pages: map<PageKey, Page>, of: set<PageKey>): int {
    |of| - |Uncovered(pages, of)|
  }

  function Rate(count: int, total: nat): Option<real> {
    if total == 0 then None else Some(count as real / total as real)
  }

  function SupportedCoverage(pages: map<PageKey, Page>, labels: Labels): Option<real> {
    var supported := TruthPages(labels, SupportedFailure);
    Rate(Covered(pages, supported), |supported|)
  }

  function FullCoverage(pages: map<PageKey, Page>, labels: Labels): Option<real> {
    Rate(Covered(pages, labels.Keys), |labels.Keys|)
  }

  function FindingsOn(pages: map<PageKey, Page>, k: PageKey): set<string> {
    if k in pages then pages[k].findings else {}
  }

  /** Each alert on each page, once. */
  function Alerts(pages: map<PageKey, Page>, of: set<PageKey>): set<(PageKey, string)> {
    set k, f | k in of && f in FindingsOn(pages, k) :: (k, f)
  }

  predicate Distinct(order: seq<PageKey>) {
    forall i, j :: 0 <= i < j < |order| ==> order[i] != order[j]
  }

  lemma AlertsOf(pages: map<PageKey, Page>, k: PageKey)
    ensures |Alerts(pages, {k})| == |FindingsOn(pages, k)|
  {
    PairsCount(k, FindingsOn(pages, k));
    assert Alerts(pages, {k}) == Pairs(k, FindingsOn(pages, k));
  }

  function Pairs(k: PageKey, fs: set<string>): set<(PageKey, string)> {
    set f | f in fs :: (k, f)
  }

  lemma {:induction false} PairsCount(k: PageKey, fs: set<string>)
    ensures |Pairs(k, fs)| == |fs|
  {
    if fs == {} {
      assert Pairs(k, fs) == {};
    } else {
      var f :| f in fs;
      PairsCount(k, fs - {f});
      assert Pairs(k, fs) == Pairs(k, fs - {f}) + {(k, f)};
      assert (k, f) !in Pairs(k, fs - {f});
    }
  }

  /** The total of `clean_false_alerts`: summing the pages counts each alert on each page once. */
  method CountAlerts(pages: map<PageKey, Page>, clean: seq<PageKey>) returns (total: nat)
    requires Distinct(clean)
    ensures total == |Alerts(pages, Elements(clean))|
  {
    total := 0;
    for n := 0 to |clean|
      invariant total == |Alerts(pages, Elements(clean[..n]))|
    {
      var k := clean[n];
      AlertsOf(pages, k);
      assert Elements(clean[..n + 1]) == Elements(clean[..n]) + {k};
      assert k !in Elements(clean[..n]);
      AlertsSplit(pages, Elements(clean[..n]), k);
      total := total + |FindingsOn(pages, k)|;
    }
    assert clean[..|clean|] == clean;
  }

  lemma AlertsSplit(pages: map<PageKey, Page>, of: set<PageKey>, k: PageKey)
    requires k !in of
    ensures |Alerts(pages, of + {k})| == |Alerts(pages, of)| + |Alerts(pages, {k})|
  {
    assert Alerts(pages, of + {k}) == Alerts(pages, of) + Alerts(pages, {k});
    assert Alerts(pages, of) !! Alerts(pages, {k});
  }

  // ----- What more readings can do -----

  /** Every reading of `few` is one of `many`. */
  predicate Within(few: seq<Reading>, many: seq<Reading>) {
    forall i :: 0 <= i < |few| ==> few[i] in many
  }

  lemma ResolvedWithin(few: seq<Reading>, many: seq<Reading>, k: PageKey)
    requires Within(few, many) && PageOf(few, k).resolved
    ensures PageOf(many, k).resolved
  {
    ResolvedMeans(few, k);
    ResolvedMeans(many, k);
    var i :| 0 <= i < |few| && few[i].key == k && Resolves(few[i]);
    var j :| 0 <= j < |many| && many[j] == few[i];
  }

  lemma FindingsWithin(few: seq<Reading>, many: seq<Reading>, k: PageKey)
    requires Within(few, many)
    ensures PageOf(few, k).findings <= PageOf(many, k).findings
  {
    forall f | f in PageOf(few, k).findings
      ensures f in PageOf(many, k).findings
    {
      FindingsMean(few, k, f);
      FindingsMean(many, k, f);
      var i :| 0 <= i < |few| && few[i].key == k && f in few[i].findings;
      var j :| 0 <= j < |many| && many[j] == few[i];
    }
  }

  lemma CollapsedPage(rs: seq<Reading>, order: seq<PageKey>, pages: map<PageKey, Page>, k: PageKey)
    requires Collapsed(rs, order, pages)
    ensures IsResolved(pages, k) <==> PageOf(rs, k).resolved
    ensures FindingsOn(pages, k) == PageOf(rs, k).findings
  {
    UnseenFresh(rs, k);
  }

  /** Dropping readings covers no page more. */
  lemma CoverageShrinks(few: seq<Reading>, many: seq<Reading>, o: seq<PageKey>, p: map<PageKey, Page>,
                        q: seq<PageKey>, r: map<PageKey, Page>, of: set<PageKey>)
    requires Within(few, many) && Collapsed(few, o, p) && Collapsed(many, q, r)
    ensures 0 <= Covered(p, of) <= Covered(r, of) <= |of|
  {
    forall k | k in Uncovered(r, of)
      ensures k in Uncovered(p, of)
    {
      CollapsedPage(few, o, p, k);
      CollapsedPage(many, q, r, k);
      if IsResolved(p, k) {
        ResolvedWithin(few, many, k);
      }
    }
    SubsetCard(Uncovered(r, of), Uncovered(p, of));
    SubsetCard(Uncovered(p, of), of);
  }

  /** Nor does it raise an alert. */
  lemma AlertsShrink(few: seq<Reading>, many: seq<Reading>, o: seq<PageKey>, p: map<PageKey, Page>,
                     q: seq<PageKey>, r: map<PageKey, Page>, of: set<PageKey>)
    requires Within(few, many) && Collapsed(few, o, p) && Collapsed(many, q, r)
    ensures |Alerts(p, of)| <= |Alerts(r, of)|
  {
    forall k, f | k in of && f in FindingsOn(p, k)
      ensures f in FindingsOn(r, k)
    {
      CollapsedPage(few, o, p, k);
      CollapsedPage(many, q, r, k);
      FindingsWithin(few, many, k);
    }
    SubsetCard(Alerts(p, of), Alerts(r, of));
  }

  /** A page that the readings kept preserve stays preserved under all of them, whatever is expected of it, exactly when
      none was kept or those dropped report no fewer than the least kept. */
  lemma SilenceExactly(few: seq<Reading>, many: seq<Reading>, k: PageKey)
    requires Within(few, many)
    ensures PageOf(few, k).occurrences != [] ==> PageOf(many, k).occurrences != []
    ensures (forall e :: Preserved(few, k, e) ==> Preserved(many, k, e)) <==>
      (PageOf(few, k).occurrences == [] || Least(PageOf(few, k).occurrences) == Least(PageOf(many, k).occurrences))
  {
    var kept, all := PageOf(few, k).occurrences, PageOf(many, k).occurrences;
    if kept != [] {
      OccurrencesMean(few, k, kept[0]);
      OccurrencesMean(many, k, kept[0]);
      var i :| 0 <= i < |few| && Reports(few[i], k) && few[i].occurrence.value == kept[0];
      var j :| 0 <= j < |many| && many[j] == few[i];
      LeastPreserved(few, k, Least(kept));
      LeastPreserved(many, k, Least(kept));
    }
    forall e | Preserved(few, k, e)
      ensures kept != [] && Least(kept) == e && (Preserved(many, k, e) <==> all != [] && Least(all) == e)
    {
      LeastPreserved(few, k, e);
      LeastPreserved(many, k, e);
    }
  }

  lemma PreservedWithin(a: seq<Reading>, b: seq<Reading>, k: PageKey, expected: int)
    requires Within(a, b) && Within(b, a) && Preserved(a, k, expected)
    ensures Preserved(b, k, expected)
  {
    var i :| 0 <= i < |a| && Reports(a[i], k) && a[i].occurrence.value == expected;
    var j :| 0 <= j < |b| && b[j] == a[i];
    forall j | 0 <= j < |b| && Reports(b[j], k)
      ensures b[j].occurrence.value >= expected
    {
      var i :| 0 <= i < |a| && a[i] == b[j];
    }
  }

  /** Repeating and reordering readings changes none of this. */
  lemma RepeatingChangesNothing(a: seq<Reading>, b: seq<Reading>, o: seq<PageKey>, p: map<PageKey, Page>,
                                q: seq<PageKey>, r: map<PageKey, Page>, of: set<PageKey>)
    requires Within(a, b) && Within(b, a) && Collapsed(a, o, p) && Collapsed(b, q, r)
    ensures Covered(p, of) == Covered(r, of) && |Alerts(p, of)| == |Alerts(r, of)|
    ensures forall k, e :: Preserved(a, k, e) <==> Preserved(b, k, e)
  {
    forall k, e
      ensures Preserved(a, k, e) <==> Preserved(b, k, e)
    {
      if Preserved(a, k, e) {
        PreservedWithin(a, b, k, e);
      }
      if Preserved(b, k, e) {
        PreservedWithin(b, a, k, e);
      }
    }
    CoverageShrinks(a, b, o, p, q, r, of);
    CoverageShrinks(b, a, q, r, o, p, of);
    AlertsShrink(a, b, o, p, q, r, of);
    AlertsShrink(b, a, q, r, o, p, of);
  }
}
