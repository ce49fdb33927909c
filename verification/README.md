# Inkflip: verified models

Dafny models of the parts of Inkflip that decide something: what a generated check accepts, which documents count as
one, who may write where, what a bounded exchange returns, what a target verdict rests on. Each model follows one
source file; the main results are statements over every document, every value, every run or every input.

| part of the system | files |
|---|---|
| the compiler from contract schemas to validators, its helpers and its meaning | `Json`, `JsonSchema`, `ContractIr`, `ContractRuns`, `ContractScheme`, `ContractParts`, `ContractCorrectness`, `ContractEmitter`, `ContractMeaning` |
| document lineage: union-find, sibling groups, leak audit, grouped splits, corpus pages | `KeyOrder`, `UnionFind`, `Lineage`, `SiblingGroups`, `LineageSplits`, `CorpusGroups` |
| evaluation: page samples, order statistics, intervals, verdicts | `Metrics`, `OrderStatistics`, `Wilson`, `Verdicts` |
| the bounded exchange with the comparison child | `ComparePump` |
| admission of writers under a lock | `Globs`, `Scopes`, `Dispatch`, `DispatchRuns` |
| fixture writing: RunLength, cross-reference table, cipher | `RunLength`, `PdfXref`, `Rc4` |
| the wire-format scanner for model files | `WireScanner`, `WireFormat` |
| the run coordinator | `Coordinator` |
| comment strippers for style sheets, pages and scripts | `StripComments`, `StripScript` |
| latency receipts, their producer and validator | `PerformanceReceipt` |
| shared: results, sequences, bytes, decimals, paths | `Common` |

The meaning of a schema is that of sections 8.2.3, 10.2 and 10.3 of JSON Schema Core 2020-12 and section 6 of JSON
Schema Validation 2020-12, for the keywords the generator knows; references are JSON Pointers (RFC 6901) into the
document.

Code that changes state is modelled by classes and loops (`Emitter`, `UnionFind`, `Pump`, `Beads`, `Coordinator`, the
cipher's array, the scanners), each tied by its `ensures` to a specification about which the lemmas speak. Everything
the code leaves to others enters as an argument or as an arbitrary choice: the pattern matcher, the child process and
the clock, random draws, SHA-256 values, Beads readiness, the square root.

`Folding.Unfolded` in `Common` is always true. A predicate of the form `forall k :: Unfolded(k) ==> body` says what
its body says; the form only keeps the solver from looking inside where it need not.

## Where code and description part

The models keep what the code does, and say exactly when that is what its comments, documentation or standard promise.

- The schema compiler ignores `$ref` in a definition body or a root, drops `items` beside `prefixItems` and a schema
  under `additionalProperties`, and cuts a reference to its last path segment. `ContractMeaning.ReadSchema` is the
  document as the compiler reads it. `ReadingDecided` proves that the program decides this reading, `CompiledMeaning`
  that it is right exactly where reading and document agree, and `NodeMeaning` and `CallRead` say of one dictionary
  which values tell the two apart. Four lemmas give a document each, and values wrongly accepted: `RootRefIgnored`,
  `PrefixHidesItems`, `ShapedExtrasIgnored`, `NestedPathMisread`.
- `scopes_overlap` claims to reserve the directory before a wildcard. Whatever wildcards stand for, it misses no
  shared path if they begin path components (`Scopes.UnnoticedContinues`, `DispatchRuns.OneWriterPerPath`). Otherwise,
  with scopes matched as git pathspecs (scripts/acceptance_receipts.py:69), a path is shared unnoticed exactly when
  the two patterns meet token by token (`Scopes.SharedExactly`, `OverlapMisses`); for scopes with at most one star,
  when one continues the text before a star in mid-component of the other and their tails agree
  (`Scopes.PlainMisses`). `DispatchRuns.MidComponentShared` has two writers that come to own one file.
- A target that silence cannot meet: so it is for coverage (`Verdicts.SilenceMeetsNothing`), and for the share of
  pages with preserved occurrences exactly as long as no dropped reading reports fewer occurrences than every reading
  kept (`Metrics.SilenceExactly`, `Verdicts.SilencePreservesNothing`, `SilencePreserves`, `SilenceRun`).
- `_pump` treats a read that raises as the end of the stream, so a normal return may carry a truncated output: it is
  the whole output if and only if no read raises before the end (`ComparePump.Pump.Run`, `TruncatedResponse`). Its
  comment allows the retained output one chunk over the cap; the code never keeps more than the cap.
- The wire scanner accepts data whose last field breaks off (`WireScanner.CutAccepted`, `WholeExactly`). It takes
  every tag for one byte, which it is in wire format exactly up to field 15: such messages are judged as they should
  be (`WireFormat.LowFieldsExactly`), and every greater field number can make it refuse a message in order
  (`WireFormat.FieldNumberExactly`, `RefusedModel`).
- `strip_comments` for scripts passes over the character after `*/`. If that is a line end, line numbers shift:
  `StripScript.LinesKeptExactly`, `LineLost`; a text in which `*/` never ends a line keeps its lines. Its output also
  differs in length, by the characters passed over and the class brackets written twice: `StripScript.LengthExactly`.

## Model

| member | source | states |
|---|---|---|
| Json.Eq | scripts/generate_contracts.py:477-504 | the emitted `eq` decides equality of JSON values as values: objects as maps, whatever the order of their keys |
| Json.AllUnique | scripts/generate_contracts.py:506-513 | the emitted `allUnique` finds two equal items exactly when there are any |
| Json.DenoteFieldsMeaning | scripts/generate_contracts.py:490-503 | with distinct keys, the field list and the map it denotes have the same keys, size and values |
| ContractScheme.LastSegmentOfLocalRef | scripts/generate_contracts.py:203-206 | for a well-formed local reference, cutting at the last slash gives the name the reference spells |
| ContractRuns.RunAll | scripts/generate_contracts.py:241-313 | a body made of ready statements always finishes, only appends issues below its path, appends none exactly when every statement passes, and returns early only after appending |
| ContractRuns.RunMatched | scripts/generate_contracts.py:437-444 | the counter of a combinator counts exactly the alternatives whose check reports nothing |
| ContractRuns.CountSingle | scripts/generate_contracts.py:451-456 | the counter is one exactly when one alternative and no other is valid |
| ContractRuns.ExtrasMeaning | scripts/generate_contracts.py:425-433 | the closed-object loop reports nothing exactly when every key is listed |
| ContractParts.LiteralMeaning | scripts/generate_contracts.py:261-274 | the emitted `const` and `enum` tests pass exactly on values equal to the literal, or to one of them |
| ContractParts.NumericMeaning | scripts/generate_contracts.py:316-329 | the emitted bounds pass exactly on numbers within all declared bounds, inclusive and exclusive |
| ContractParts.PatternNameDeclared | scripts/generate_contracts.py:344-350 | the constant a pattern test uses is declared and holds that node's pattern |
| ContractParts.StringMeaning | scripts/generate_contracts.py:331-370 | the emitted length, pattern and format tests pass exactly on strings that meet them; formats other than uuid always hold |
| ContractParts.ArrayMeaning | scripts/generate_contracts.py:372-403 | the emitted array section passes exactly when counts and uniqueness hold and every item passes the check compiled for its position |
| ContractParts.ClosedMeaning | scripts/generate_contracts.py:425-433 | with `additionalProperties` false the section passes exactly on objects without an unlisted key |
| ContractParts.ObjectMeaning | scripts/generate_contracts.py:406-433 | the emitted object section passes exactly when required keys are present, listed properties pass their checks, and a closed object has no other key |
| ContractParts.ChooseMeaning | scripts/generate_contracts.py:435-457 | the emitted combinator passes exactly when any, or exactly one, of its alternatives does |
| ContractCorrectness.BareRefHolds | scripts/generate_contracts.py:194-206 | a dictionary that is only a reference means what the definition it names means |
| ContractCorrectness.BodyMeaning | scripts/generate_contracts.py:233-314 | given correct callees, the whole body of a function passes exactly on the values valid under its dictionary, type guard with early return included |
| ContractCorrectness.FunctionsCorrect | scripts/generate_contracts.py:233-314 | at every call depth, every call of every emitted function finishes, only appends, and appends nothing exactly on valid values, recursion through references included |
| ContractCorrectness.CompilerCorrect | scripts/generate_contracts.py:193-457 | for every clean schema, linked program, matcher and value: from some call depth on `checkSchema` answers, with an empty list exactly on valid values |
| ContractEmitter.Emitter.constructor | scripts/generate_contracts.py:181-187 | all tables start empty |
| ContractEmitter.Emitter.FnFor | scripts/generate_contracts.py:193-212 | succeeds exactly on children a call can be compiled to, names each child once, queues it the first time, and keeps the invariant of the tables |
| ContractEmitter.Emitter.EmitString | scripts/generate_contracts.py:331-370 | appends the string section with its pattern constant, reusing the constant of an equal pattern |
| ContractEmitter.Emitter.EmitArray | scripts/generate_contracts.py:372-403 | emits the array section, naming item children, and fails exactly if one of them cannot be called |
| ContractEmitter.Emitter.EmitObject | scripts/generate_contracts.py:406-433 | emits the object section, naming property children, and fails exactly if one of them cannot be called |
| ContractEmitter.Emitter.EmitCombinator | scripts/generate_contracts.py:435-457 | emits the counting block over the named alternatives |
| ContractEmitter.Emitter.EmitFunction | scripts/generate_contracts.py:233-314 | succeeds exactly on accepted dictionaries and then adds the one function that translates the dictionary under the tables as they are |
| ContractEmitter.Emitter.SeedQueue | scripts/generate_contracts.py:214-223 | queues every definition under its own name and the root last |
| ContractEmitter.Emitter.Drain | scripts/generate_contracts.py:224-226 | the work queue runs dry on every finite document, recursive references included, and each job has then become one function |
| ContractEmitter.Emitter.EmitAll | scripts/generate_contracts.py:214-231 | succeeds exactly when every reachable dictionary is accepted |
| ContractEmitter.ReachableEmitted | scripts/generate_contracts.py:214-231 | exactly the dictionaries reachable from definitions and root are emitted, each exactly once |
| ContractEmitter.NamesDistinct | scripts/generate_contracts.py:215-223 | function names are distinct if and only if no definition is called `root` |
| ContractEmitter.FinishedLinked | scripts/generate_contracts.py:214-231 | the finished program is closed: names, functions and pattern constants resolve as the correctness theorem demands |
| ContractEmitter.CalleeDeclared | scripts/generate_contracts.py:200-212 | a compiled call has a declared callee, unless the reference names neither a definition nor the root |
| ContractEmitter.GenerateValidator | scripts/generate_contracts.py:534-537 | succeeds exactly when every reachable dictionary is accepted; the result holds one function for each of them and, without a definition called `root`, is the program the correctness theorem is about |
| ContractMeaning.ReadingDecided | scripts/generate_contracts.py:193-457 | for any compiled document whose calls name definitions or `root`, whatever path leads there, the program decides the document as the code reads it: root and definition references ignored, calls by last segment, hidden keywords dropped |
| ContractMeaning.CompiledMeaning | scripts/generate_contracts.py:193-457 | such a program is right about a value if and only if the document and that reading agree on it |
| ContractMeaning.NodeMeaning | scripts/generate_contracts.py:391-433 | where all a dictionary applies is read right, a value is valid if and only if its reading accepts it, items after the prefix meet `items`, unlisted keys meet the schema under `additionalProperties`, and an ignored reference holds |
| ContractMeaning.CallRead | scripts/generate_contracts.py:200-206 | a compiled reference means what the definition named by its last segment is read as, or the root where that is `root` |
| ContractMeaning.GenerateCorrect | scripts/generate_contracts.py:534-537 | end to end, for any document without a definition called `root`: success exactly when every reachable dictionary is accepted; the result decides every value as the document is read if reachable calls name definitions or `root`, and as it is meant when the document is clean |
| ContractMeaning.BareRefRootAcceptsAll | scripts/generate_contracts.py:218-226 | a root that is itself a reference compiles to a check that accepts everything |
| ContractMeaning.RootRefIgnored | scripts/generate_contracts.py:218-226 | a concrete document with such a root, every value but null invalid and accepted |
| ContractMeaning.PrefixHidesItems | scripts/generate_contracts.py:391-403 | a concrete schema with both `prefixItems` and `items`, and a family of invalid arrays the program accepts |
| ContractMeaning.ShapedExtrasIgnored | scripts/generate_contracts.py:425-433 | a concrete schema under `additionalProperties`, and a family of invalid objects the program accepts |
| ContractMeaning.NestedPathMisread | scripts/generate_contracts.py:201-206 | a concrete document with a reference to `#/$defs/A/properties/B`: the program asks the definition `B` instead, and accepts invalid objects |
| KeyOrder.SortedUnique | evaluation/protocol/lineage.py:105 | a set of keys has one ascending listing |
| UnionFind.UnionFind.Find | evaluation/protocol/lineage.py:62-69 | climbing and path compression end, return the representative, add the key if it was missing, and change the representative of no key |
| UnionFind.UnionFind.Union | evaluation/protocol/lineage.py:71-75 | afterwards exactly the classes of the two keys are one, under the smaller of their representatives; links still lead to keys no greater |
| UnionFind.Compress | evaluation/protocol/lineage.py:67-68 | pointing a key at its representative keeps every representative |
| Lineage.LinkedTransitive | evaluation/protocol/lineage.py:93-100 | being linked by a walk of lineage edges is transitive |
| Lineage.LinkedSymmetric | evaluation/protocol/lineage.py:93-100 | and symmetric, though control edges are declared on one side |
| Lineage.GroupingPartitions | evaluation/protocol/lineage.py:78-105 | every key is in one group and no other, its group is its whole lineage class, and the group's key is the least of it |
| Lineage.GroupingOrderFree | evaluation/protocol/lineage.py:78-105 | the groups do not depend on the order of the entries |
| SiblingGroups.Compute | evaluation/protocol/lineage.py:78-105 | `sibling_groups` returns exactly the classes of the closure of group, byte and control edges, keyed by least member and sorted |
| SiblingGroups.WalkSameClass | evaluation/protocol/lineage.py:93-100 | once every edge is merged, a walk of any length stays in one class |
| LineageSplits.SplitViolations | evaluation/protocol/lineage.py:108-136 | fails exactly on unknown splits or repeated keys, and otherwise is empty if and only if no single edge crosses splits |
| LineageSplits.SilentExactly | evaluation/protocol/lineage.py:127-136 | judging whole groups finds nothing exactly when no edge crosses |
| LineageSplits.AssignGrouped | evaluation/protocol/lineage.py:157-169 | fails exactly without splits to choose from; otherwise every member of a group gets the one draw of its group |
| LineageSplits.SplitAndAudit | tests/evaluation/test_splits.py:66-73 | whatever is drawn, grouping, assigning and auditing puts every entry in exactly one split and finds no violation |
| CorpusGroups.CorpusGroupsOf | evaluation/protocol/manifest.py:132-150 | the mapping has exactly the declared pages, each under the smallest group id of its lineage class, whatever is written twice |
| CorpusGroups.PagesGroupedByLineage | evaluation/protocol/manifest.py:132-150 | two pages share a group exactly when their entries are in one lineage class |
| CorpusGroups.CanonicalSeparates | evaluation/protocol/manifest.py:145 | classes and canonical ids correspond one to one |
| CorpusGroups.SameBytesSameId | evaluation/protocol/manifest.py:146-149 | entries with the same bytes write the same id to a page |
| Metrics.CollapseReadings | evaluation/protocol/metrics.py:56-85 | the dictionary has exactly the pages read, in the order of their first reading, each with all its attempts, findings, errors and occurrence counts |
| Metrics.ResolvedMeans | evaluation/protocol/metrics.py:83-84 | a page is resolved exactly when one of its readings completed with a recognised resolution |
| Metrics.FindingsMean | evaluation/protocol/metrics.py:79 | the findings of a page are exactly those of its readings |
| Metrics.ReadingsConserved | evaluation/protocol/metrics.py:76 | the readings of all pages add up to the input |
| Metrics.StatusesMean | evaluation/protocol/metrics.py:77-78 | the count of a status on a page is the number of its readings that ended so |
| Metrics.StatusesConserved | evaluation/protocol/metrics.py:76-78 | the status counts a page carries add up to its readings |
| Metrics.OccurrencesMean | evaluation/protocol/metrics.py:81-82 | the occurrence counts of a page are those its completed readings report |
| Metrics.OccurrencePreservation | evaluation/protocol/metrics.py:88-114 | a declared page is preserved exactly when a completed reading reports its expected count and none reports fewer; the others are lost, each once, and the two add up to the pages declared |
| Metrics.CountAlerts | evaluation/protocol/metrics.py:172-174 | the sum over clean pages counts each finding on each page once |
| Metrics.CoverageShrinks | evaluation/protocol/metrics.py:121-161 | dropping readings never covers a page more; the count lies between zero and the labelled pages |
| Metrics.AlertsShrink | evaluation/protocol/metrics.py:164-182 | dropping readings never adds an alert |
| Metrics.RepeatingChangesNothing | evaluation/protocol/metrics.py:56-63 | repeating or reordering readings changes no coverage, no alert count and no preserved page |
| Metrics.SilenceExactly | evaluation/protocol/metrics.py:88-108 | under the readings kept a page is preserved only if it is under all, whatever is expected of it, exactly when none was kept or those dropped report no fewer occurrences than the least kept |
| OrderStatistics.SortedIsSorted | evaluation/protocol/metrics.py:247 | the sorted copy is ordered and a permutation |
| OrderStatistics.OrderStatistic | evaluation/protocol/metrics.py:247-249 | the value at rank k is at most t exactly when more than k values are |
| OrderStatistics.OrderStatisticGrows | evaluation/protocol/metrics.py:247-249 | raising values lowers no order statistic |
| OrderStatistics.ShareIsProduct | evaluation/protocol/metrics.py:248 | the repeated addition used for the rank is the product q times n |
| OrderStatistics.PercentileMeaning | evaluation/protocol/metrics.py:243-249 | the percentile is at most t exactly when at least the share q of the values are: the nearest-rank definition |
| OrderStatistics.PercentileGrows | evaluation/protocol/metrics.py:243-249 | raising values does not lower the percentile |
| Wilson.BetweenBounds | evaluation/protocol/metrics.py:48-53 | the interval is exactly the set of true proportions within z of their own standard errors of the observed one |
| Wilson.IntervalSpans | evaluation/protocol/metrics.py:39-53 | the bounds satisfy 0 <= low <= successes/n <= high <= 1 and both clamps are idle |
| Wilson.IntervalGrows | evaluation/protocol/metrics.py:39-53 | more successes of as many lower neither bound |
| Verdicts.AlignErrors | evaluation/protocol/report.py:184-188 | the pooled errors are the worst of each page that has any |
| Verdicts.NotDiluted | evaluation/protocol/report.py:179-211 | readings added for pages that carry errors already leave n unchanged and lower neither p95 nor the maximum |
| Verdicts.CheckAccounting | evaluation/protocol/metrics.py:185-212 | planned checks, each once, are those with a terminal result, the missing and the non-terminal ones; the first are counted, the others listed once each, and attempts add up to the readings |
| Verdicts.CheckLabelsCover | evaluation/protocol/custody.py:175-194 | passes exactly when labelled pages and corpus pages are the same |
| Verdicts.DenominatorsAddUp | evaluation/protocol/report.py:171-175 | after the cover check clean, supported and unsupported pages add up to the corpus, and every page of the groups has a label |
| Verdicts.TargetVerdicts | evaluation/protocol/report.py:249-292 | one verdict for each target, in order: MET if and only if a run measured the metric, with the samples declared, and the comparison holds; otherwise UNMET with the true reason; the value observed is reported if there is one |
| Verdicts.SilenceMeetsNothing | evaluation/protocol/report.py:249-292 | dropping readings flips no `>=` coverage target from UNMET to MET |
| Verdicts.SilencePreservesNothing | evaluation/protocol/report.py:227-292 | nor a `>=` target for preserved occurrences, as long as no dropped reading of a declared page reports fewer than every reading kept |
| Verdicts.SilencePreserves | evaluation/protocol/report.py:227-292 | and only then: otherwise there are counts to expect under which such a target is met by what is kept and not by all |
| Verdicts.SilenceRun | evaluation/protocol/report.py:227-292 | a run of two readings in which dropping one turns UNMET into MET |
| ComparePump.Pump.OnStdin | native/inkflip/compare_bridge.py:398-412 | the child has received a prefix of the request; the pipe is closed exactly when all is sent or the write raised, and otherwise something more was sent |
| ComparePump.Pump.OnStdout | native/inkflip/compare_bridge.py:413-432 | everything read is kept, or the cap is passed, the group killed and no more than the cap kept |
| ComparePump.Pump.OnStderr | native/inkflip/compare_bridge.py:413-443 | the sample is the first 8192 bytes read; past the cap the group is killed |
| ComparePump.Pump.Run | native/inkflip/compare_bridge.py:357-456 | every exchange ends, by pipes, budget and clock; retained bytes are bounded prefixes on every way out; an error is raised only for its cause and with the child killed, and an exchange in time and within the caps returns; what it returns, and what the child received, is the whole if and only if no read, or write, raised before the end |
| ComparePump.Exchange | native/inkflip/compare_bridge.py:302-353 | a request over its cap reaches no child; a response comes from a child that exited with 0 and is its whole output if and only if no read raised before the end; no more than the caps is sent or kept; a child that exits with 0 in time and within the caps is answered by a response |
| ComparePump.TruncatedResponse | native/inkflip/compare_bridge.py:419-424 | a run in which the second read raises and half of what the child wrote is its response |
| Scopes.UnnoticedContinues | scripts/coordination.py:148-151 | whatever scopes stand for, within the texts that start as they do: a shared path the comparison does not notice lies behind a wildcard in mid-component |
| Scopes.PathspecContained | scripts/acceptance_receipts.py:69 | matching as git pathspecs, whatever brackets stand for, is one such meaning |
| Globs.MeetsExactly | scripts/acceptance_receipts.py:69 | two patterns of stars, question marks, brackets and text match a common text exactly when they meet token by token |
| Scopes.StarMatches | scripts/acceptance_receipts.py:69 | a scope with one star matches exactly the paths that start and end as it does, long enough for both |
| Scopes.SharedExactly | scripts/coordination.py:148-151 | any two scopes share a path exactly when their patterns meet token by token |
| Scopes.PlainShared | scripts/coordination.py:148-151 | scopes that are literal or have one star share a path exactly when the texts before the star allow it and their tails agree |
| Scopes.OverlapMisses | scripts/coordination.py:148-151 | the comparison misses a shared path exactly when it is false and the patterns meet; then one scope continues the text before a wildcard in mid-component of the other |
| Scopes.PlainMisses | scripts/coordination.py:148-151 | for scopes that are literal or have one star, exactly when it does and their tails agree |
| Scopes.OverlapExact | scripts/coordination.py:148-151 | with wildcards at component boundaries a path is shared exactly when the comparison is true and the patterns meet; for scopes with at most one star, when the tails agree |
| Scopes.MidComponentMissed | scripts/coordination.py:149-151 | the family of a star in mid-component against a file it matches: not noticed, and the file is of both |
| Scopes.DocsExampleMissed | scripts/coordination.py:149-151 | `docs/T01*.md` against `docs/T01-x.md` is one of them |
| Scopes.QuestionApart | scripts/coordination.py:149-151 | a question mark against a longer literal scope shares nothing |
| Dispatch.BeadIdInjective | scripts/coordination.py:33-34 | two product tasks never share an issue id |
| Dispatch.FollowupIsNotProduct | scripts/native_followups.py:24-27 | a valid follow-up id is the id of no product task |
| Dispatch.SafeScopeAtBoundary | scripts/native_followups.py:36-42 | a follow-up scope that passes validation has no wildcard and reserves something |
| Dispatch.CheckScopeOwnership | scripts/coordination.py:154-171 | for any list of tasks, passes exactly when every writer's scope is known and overlaps none of the new scopes |
| Dispatch.KnownTask | scripts/coordination.py:155 | among task ids proper, the issue id of a task leads to the scope of that task |
| DispatchRuns.AdmittedFacts | scripts/native_pass.py:85-138 | what every admission, product or follow-up, establishes: room below both capacities, and scopes clear of every writer seen |
| DispatchRuns.CapacityKept | scripts/native_pass.py:96-97 | a claim on what was seen under the lock exceeds neither capacity of the issues as they are now |
| DispatchRuns.ScopesKept | scripts/coordination.py:154-171 | nor does it bring two writers' scopes to overlap |
| DispatchRuns.RunsSafe | scripts/native_pass.py:115-138 | in every state of every interleaving of dispatchers, refusals, failed publications, crashes and closings: capacities hold, writers' scopes are known and pairwise apart, one dispatcher at a time decides, and it has seen every worker |
| DispatchRuns.SharedPathExactly | scripts/coordination.py:148-171 | in every such state two writers' scopes share a path exactly when their patterns meet, and then one continues the text before a wildcard in mid-component of the other; for scopes with at most one star, exactly when it does and their tails agree |
| DispatchRuns.OneWriterPerPath | scripts/coordination.py:154-171 | whatever scopes stand for, with product wildcards at component boundaries no path is ever owned by two writers |
| DispatchRuns.Beads.Dispatch | scripts/native_pass.py:102-138 | claims exactly when every check passes, otherwise leaves the issues as they were, and keeps them safe |
| DispatchRuns.Beads.DispatchFollowup | scripts/native_pass.py:174-215 | likewise for follow-ups, with the grant validated first |
| DispatchRuns.BothAdmitted | scripts/native_pass.py:102-138 | a plan with the documentation scopes above, both of whose tasks are admitted |
| DispatchRuns.MidComponentShared | scripts/coordination.py:149-151 | after which two writers own `docs/T01-x.md` |
| RunLength.Flush | scripts/make_fixtures.py:279-284 | literals go out in whole blocks of at most 128, and decode to themselves |
| RunLength.Encode | scripts/make_fixtures.py:273-300 | decoding by section 7.4.5 of ISO 32000-1 gives the data back; length bytes are 0 to 127 or 130 to 254 and 128 only at the end; at most one byte in 128 and two more are added |
| RunLength.DecodeBlocks | scripts/make_fixtures.py:298-300 | the end mark after whole blocks is where decoding ends |
| PdfXref.WritePdf | scripts/make_fixtures.py:71-84 | the loops write header, objects, table and trailer as specified |
| PdfXref.TableWidth | scripts/make_fixtures.py:79-80 | table entries take twenty bytes each exactly when every offset has at most ten digits |
| PdfXref.StartXrefFound | scripts/make_fixtures.py:77-83 | the number after `startxref` is the offset of the table |
| PdfXref.OffsetFound | scripts/make_fixtures.py:74-80 | entry i holds the offset where object i stands, and there is none past the last |
| PdfXref.ObjectFound | scripts/make_fixtures.py:71-84 | reading object i through the table gives the object written, for every object list |
| PdfXref.SmallFits | scripts/make_fixtures.py:71-84 | a file below 10^10 bytes meets the condition |
| Rc4.Encipher | scripts/make_fixtures.py:495-512 | the in-place loops give the data combined with a key stream that does not depend on it; an empty key is an error |
| Rc4.StatePermutes | scripts/make_fixtures.py:497-509 | the state is a permutation of the byte values after every step |
| Rc4.CipherUndone | scripts/make_fixtures.py:495-512 | enciphering twice gives the data back |
| WireScanner.Scan | experiments/P13/run.py:268-327 | the scan stays inside the data, ends, and accepts exactly what the field reader accepts |
| WireScanner.AssembleVarint | experiments/P13/run.py:287-295 | the shift-and-or loop gives the base-128 value, and overflows exactly past its byte limit |
| WireScanner.VarintRoundTrip | experiments/P13/run.py:284-295 | a number below 2^70 (2^35 for lengths) written in base 128 is read back, wherever it stands |
| WireScanner.OrShifted | experiments/P13/run.py:290 | the bits or-ed in never meet those already there |
| WireScanner.ReadSpelled | experiments/P13/run.py:274-322 | what is read is a message whose encoding, in the scanner's own form with one-byte tags, is the data |
| WireScanner.EncodedRead | experiments/P13/run.py:274-322 | the encoding of a message in that form is read as that message |
| WireScanner.AcceptsExactly | experiments/P13/run.py:268-327 | accepted are exactly the texts that, read with one-byte tags, are fields with versions in 3..20, at least one version and one field 8, of which the last field may break off |
| WireScanner.WholeAccepted | experiments/P13/run.py:268-327 | every such text of whole fields that meets these demands is accepted |
| WireScanner.CutAccepted | experiments/P13/run.py:287-305 | and every one with a broken field after it |
| WireScanner.WholeExactly | experiments/P13/run.py:287-305 | readable data is an encoding of whole fields exactly when the last field read is whole |
| WireFormat.OneByteTag | experiments/P13/run.py:274-277 | in wire format a tag is one byte, the one the scanner reads, exactly up to field 15 |
| WireFormat.LowFieldsExactly | experiments/P13/run.py:268-327 | a wire-format message of fields 1 to 15 is accepted exactly when it meets the demands |
| WireFormat.ReadFront | experiments/P13/run.py:274-322 | whole fields before anything else are read as what they are |
| WireFormat.HighFieldRefused | experiments/P13/run.py:276-305 | behind any message of fields 1 to 15, a small block under any greater number is in order and has the whole refused |
| WireFormat.SixteenWritten | experiments/P13/run.py:274-279 | for field 16 that block is the bytes 130, 1, 1 and a payload below 8 |
| WireFormat.FieldNumberExactly | experiments/P13/run.py:276-305 | all acceptable fields of a number are accepted behind an acceptable message if and only if the number is at most 15 |
| WireFormat.RefusedModel | experiments/P13/run.py:276-305 | a model past the length check, accepted until a standard field 16 follows it |
| Coordinators.Coordinator.Accept | planning/probes/lifecycle_probe.py:10-12 | accepts exactly current messages with a greater sequence number, and otherwise changes nothing |
| Coordinators.Coordinator.Replace | planning/probes/lifecycle_probe.py:9 | a new document starts a new generation with nothing completed |
| Coordinators.Coordinator.Cancel | planning/probes/lifecycle_probe.py:13 | a new generation, with everything completed kept |
| Coordinators.AcceptedGrow | planning/probes/lifecycle_probe.py:10-12 | in every run, accepted messages of one job and generation carry one digest and growing sequence numbers |
| Coordinators.CompletedExplained | planning/probes/lifecycle_probe.py:7-13 | in every state of every run a completed value is that of the last accepted message for its job under the present document |
| Coordinators.CompletedKept | planning/probes/lifecycle_probe.py:7-13 | and such a value is there, cancelled or not |
| Coordinators.TopWins | planning/probes/lifecycle_probe.py:10-12 | from any state, after any delivery each job has a value of greatest sequence number among the messages above what it had reached, or what it had |
| Coordinators.Converges | planning/probes/lifecycle_probe.py:10-12 | order and repetition of a delivery do not matter if messages of greatest sequence number agree |
| Coordinators.OrderIrrelevant | planning/probes/lifecycle_probe.py:10-12 | and only then |
| StripComments.StripText | scripts/check_dependencies.py:519-633 | the loop writes what its state machine says |
| StripComments.StripKeepsPlaces | scripts/check_dependencies.py:519-633 | length, positions and line numbers are kept; every character is the same or a blank for one that is no line end |
| StripComments.CommentBlanked | scripts/check_dependencies.py:561-568 | a comment is blanked up to where it closes first, or to the end, and scanning goes on behind it |
| StripComments.QuotedCopied | scripts/check_dependencies.py:543-560 | quoted text is copied to its end, escapes and comment signs included |
| StripScript.StripText | scripts/check_dependencies.py:358-518 | the loops write what the state machine says |
| StripScript.LinesKeptExactly | scripts/check_dependencies.py:356-518 | line ends are all kept if and only if no closed block comment is followed at once by one, as in every text where `*/` never ends a line; and then each character stands in the line it comes from |
| StripScript.LineLost | scripts/check_dependencies.py:455-463 | a text that opens with a comment whose closing ends its line comes out with fewer lines |
| StripScript.LengthExactly | scripts/check_dependencies.py:455-513 | the length differs by exactly the characters passed over and the brackets written twice |
| StripScript.CommentBlanked | scripts/check_dependencies.py:455-463 | a block comment is blanked up to where it closes first, and scanning goes on one character further |
| StripScript.QuotedCopied | scripts/check_dependencies.py:464-493 | strings and templates are copied to their end |
| PerformanceReceipt.PercentileOrdered | scripts/performance_receipt.py:104-114 | a greater percentage gives no lower value |
| PerformanceReceipt.PercentileBetween | scripts/performance_receipt.py:104-114 | percentiles lie between least and greatest value; p50 <= p95 <= max |
| PerformanceReceipt.StageProblems | scripts/performance_receipt.py:351-424 | the list of problems is empty if and only if the stage is acceptable: counts, claim, raw samples and recomputed statistics |
| PerformanceReceipt.ProducerAgrees | scripts/performance_receipt.py:131-160 | what the producer writes is accepted exactly when it has samples enough and failures few enough |

## Left out

- Floating-point rounding: statistics are over the reals, and the square root of the Wilson interval is any
  nonnegative number with the right square.
- DispatchRuns.RunsSafe: task ids are `T` and digits; ids that differ only in case would share an issue id, under
  which the last listed scope is the one known.
- Dispatch.BeadId: lower-casing is that of ASCII; malformed issue records, on which the code raises, are not modelled.
- Scopes.Pathspec: a backslash in a pattern is an ordinary character; where a bracket expression ends and which
  characters it stands for is left to arbitrary functions.
- JsonSchema.Target: the pointer escapes `~0` and `~1` and percent signs are compared as written; anchors and
  references to other documents lead nowhere, and so does a path through `$defs` below the root: the compiler passes
  over that keyword, and the model counts it among the annotations, without what it holds.
- ContractMeaning.ReadingDecided: a compiled reference whose last segment names neither a definition nor `root`, and
  an empty type list, give no program with a meaning (`ContractEmitter.CalleeDeclared`).
- Plan, task contracts and path overrides are the same through a whole run of dispatches; branch, base and instruction
  fields of grants, workbench routing, git and Beads calls enter only as facts about readiness and accepted
  predecessors.
- An issue becomes an active worker only through admission; hands that edit Beads around the lock are not modelled.
- The text of messages, issue paths as rendered strings, and generated TypeScript: programs are statements of a small
  language with the same guards, calls, loops and counters. Prototype effects of `in` and lone surrogates are out.
- Patterns are an arbitrary predicate on strings.
- The root dictionary enters the compiler with its unknown keywords already removed, as the code removes them.
- The TypeScript type printer `ts` and `generate_types`: structural recursion without a property across members.
- `_normalize_entry`: entries enter normalised; the messages of the audit enter as their data.
- Random draws are arbitrary choices; `grouped_bootstrap_ci` and its seeds are not modelled.
- ComparePump.Pump.Run: a write of no bytes to a ready pipe is taken not to happen; spawning, environment and decoding
  of the response are not modelled, and time passes in ticks.
- WireFormat.Standard: groups, and lengths padded beyond five bytes, are not among the messages; the scanner refuses
  both.
- WireScanner.Scan: the text placeholders, the length minimum, the digest comparison and the `onnx` library that come
  before the fallback are not modelled; nothing is claimed about what field 8 means.
- Verdicts.TargetVerdicts: metrics arrive as a map from their names to what was observed; precision, repeatability and
  hard-failure counts are not computed.
- PerformanceReceipt.StageProblems: messages are reduced to their kinds; the mean is not modelled because nothing
  checks it.
- `jsonc_to_json`: its trailing-comma substitution edits string contents, so nothing is claimed of it.
- Manifest, receipt and distribution checkers, deploy guard, fuzzers, the remaining experiments, reference UI and
  build configuration: lists of independent checks, or calls into libraries.
