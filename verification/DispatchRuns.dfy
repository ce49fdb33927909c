/** Every interleaving of dispatchers, closings and failures: what holds of the issues at each moment. */
module DispatchRuns {
  import opened Outcome
  import opened Decimals
  import opened Sets
  import opened Globs
  import opened Scopes
  import opened Dispatch

  type Pid = nat

  /** Where one dispatcher stands: it looks only after it holds the lock, and claims what it saw to be free. */
  datatype Phase = Idle | Locked | Looked(seen: Issues) | Unpublished

  datatype State = State(issues: Issues, phases: map<Pid, Phase>, holder: Option<Pid>)

  datatype Step =
    | Acquire(pid: Pid)
    | Look(pid: Pid)
    | Decide(pid: Pid, request: Request, facts: Facts)
    | Publish(pid: Pid, succeeds: bool)
    | Crash(pid: Pid)
    | Elsewhere(after: Issues)

  function PhaseOf(s: State, pid: Pid): Phase {
    if pid in s.phases then s.phases[pid] else Idle
  }

  /** Work outside admission: issues are closed, handed back, created or edited, but no issue becomes
      an active worker and none that stays one changes. */
  predicate Quiet(before: Issues, after: Issues) {
    forall id :: id in Workers(after) ==> id in Workers(before) && after[id] == before[id]
  }

  predicate Enabled(s: State, step: Step) {
    match step
    case Acquire(pid) => s.holder.None? && PhaseOf(s, pid).Idle?
    case Look(pid) => PhaseOf(s, pid).Locked?
    case Decide(pid, _, _) => PhaseOf(s, pid).Looked?
    case Publish(pid, _) => PhaseOf(s, pid).Unpublished?
    case Crash(pid) => !PhaseOf(s, pid).Idle?
    case Elsewhere(after) => Quiet(s.issues, after)
  }

  function Released(s: State, pid: Pid): State {
    s.(phases := s.phases[pid := Idle], holder := if s.holder == Some(pid) then None else s.holder)
  }

  /** A refusal and a failed publication both end the dispatch; only the first leaves the issues as they were. */
  function Next(c: Config, s: State, step: Step): State
    requires Enabled(s, step)
  {
    match step
    case Acquire(pid) => s.(phases := s.phases[pid := Locked], holder := Some(pid))
    case Look(pid) => s.(phases := s.phases[pid := Looked(s.issues)])
    case Decide(pid, request, facts) =>
      (match Admit(c, PhaseOf(s, pid).seen, request, facts)
       case Failure(_) => Released(s, pid)
       case Success(grant) =>
         s.(issues := Claimed(s.issues, TargetOf(request), grant), phases := s.phases[pid := Unpublished]))
    case Publish(pid, succeeds) => Released(s, pid)
    case Crash(pid) => Released(s, pid)
    case Elsewhere(after) => s.(issues := after)
  }

  /** A run from the first state to the last. */
  predicate IsRun(c: Config, run: seq<State>, steps: seq<Step>) {
    && |run| == |steps| + 1
    && (forall p :: p in run[0].phases ==> run[0].phases[p].Idle?)
    && run[0].holder.None?
    && forall i :: 0 <= i < |steps| ==> Enabled(run[i], steps[i]) && run[i + 1] == Next(c, run[i], steps[i])
  }

  // ----- The invariant -----

  predicate WithinCapacity(c: Config, issues: Issues) {
    && (c.maxWorkers.Some? ==> |Workers(issues)| <= c.maxWorkers.value)
    && forall app :: app in c.budgets && c.budgets[app].Some? ==> |OwnWorkers(issues, app)| <= c.budgets[app].value
  }

  predicate ScopesKnown(c: Config, issues: Issues) {
    forall id :: id in Writers(issues) ==> ScopeOf(c, id, issues[id]).Some?
  }

  predicate ScopesApart(c: Config, issues: Issues)
    requires ScopesKnown(c, issues)
  {
    forall x, y :: x in Writers(issues) && y in Writers(issues) && x != y ==>
      Apart(ScopeOf(c, x, issues[x]).value, ScopeOf(c, y, issues[y]).value)
  }

  predicate Safe(c: Config, issues: Issues) {
    WithinCapacity(c, issues) && ScopesKnown(c, issues) && ScopesApart(c, issues)
  }

  /** At most the holder is between taking the lock and releasing it, and what it saw is not stale:
      it may list workers that are gone, but it misses none. */
  ghost predicate Excluded(s: State) {
    forall pid: Pid :: !PhaseOf(s, pid).Idle? ==> s.holder == Some(pid)
  }

  ghost predicate Fresh(s: State) {
    forall pid: Pid :: PhaseOf(s, pid).Looked? ==> Quiet(PhaseOf(s, pid).seen, s.issues)
  }

  // ----- One claim -----

  lemma OverlapSymmetric(a: seq<string>, b: seq<string>)
    requires Apart(a, b)
    ensures Apart(b, a)
  {
    forall i | 0 <= i < |b|
      ensures Clear(b[i], a)
    {
      forall j | 0 <= j < |a|
        ensures !Overlap(b[i], a[j])
      {
        assert Clear(a[j], b);
      }
    }
  }

  /** The workers a look missed or shrank are none, so a claim adds one at most. */
  lemma QuietCounts(before: Issues, after: Issues, app: App)
    requires Quiet(before, after)
    ensures |Workers(after)| <= |Workers(before)| && |OwnWorkers(after, app)| <= |OwnWorkers(before, app)|
  {
    SubsetCard(Workers(after), Workers(before));
    SubsetCard(OwnWorkers(after, app), OwnWorkers(before, app));
  }

  lemma ClaimCounts(issues: Issues, id: IssueId, g: Grant, app: App)
    ensures |Workers(Claimed(issues, id, g))| <= |Workers(issues)| + 1
    ensures |OwnWorkers(Claimed(issues, id, g), app)| <= |OwnWorkers(issues, app)| + if g.app == app then 1 else 0
  {
    var after := Claimed(issues, id, g);
    SubsetCard(Workers(after), Workers(issues) + {id});
    if g.app == app {
      SubsetCard(OwnWorkers(after, app), OwnWorkers(issues, app) + {id});
    } else {
      SubsetCard(OwnWorkers(after, app), OwnWorkers(issues, app));
    }
  }

  /** What an admission establishes about the claim that follows. */
  lemma AdmittedFacts(c: Config, seen: Issues, r: Request, f: Facts)
    requires TaskIdsOk(c) && Admit(c, seen, r, f).Success?
    ensures var g := Admit(c, seen, r, f).value;
      && g.app == r.app
      && (c.maxWorkers.Some? ==> |Workers(seen)| < c.maxWorkers.value)
      && (g.app in c.budgets && c.budgets[g.app].Some? ==> |OwnWorkers(seen, g.app)| < c.budgets[g.app].value)
      && (forall i: Issue {:trigger ScopeOf(c, TargetOf(r), i)} :: i.grant == Some(g) ==>
            && ScopeOf(c, TargetOf(r), i).Some?
            && ScopesClear(c, seen, ScopeOf(c, TargetOf(r), i).value))
  {
    match r
    case Product(task, app) => KnownTask(c, c.tasks, task);
    case Followup(id, app, mode, scopes) => FollowupIsNotProduct(c, id);
  }

  lemma CapacityKept(c: Config, seen: Issues, now: Issues, r: Request, f: Facts)
    requires TaskIdsOk(c) && Quiet(seen, now) && WithinCapacity(c, now) && Admit(c, seen, r, f).Success?
    ensures WithinCapacity(c, Claimed(now, TargetOf(r), Admit(c, seen, r, f).value))
  {
    var g := Admit(c, seen, r, f).value;
    AdmittedFacts(c, seen, r, f);
    QuietCounts(seen, now, g.app);
    ClaimCounts(now, TargetOf(r), g, g.app);
    forall app | app in c.budgets && c.budgets[app].Some?
      ensures |OwnWorkers(Claimed(now, TargetOf(r), g), app)| <= c.budgets[app].value
    {
      ClaimCounts(now, TargetOf(r), g, app);
    }
  }

  /** Every writer after the claim but the claimed one was a writer before, with the same scope, and
      was seen. */
  lemma OtherWriters(seen: Issues, now: Issues, id: IssueId, g: Grant, w: IssueId)
    requires Quiet(seen, now) && w != id && w in Writers(Claimed(now, id, g))
    ensures w in Writers(now) && Claimed(now, id, g)[w] == now[w]
    ensures w in Writers(seen) && seen[w] == now[w]
  {
    assert w in Workers(now);
  }

  lemma ScopesKept(c: Config, seen: Issues, now: Issues, r: Request, f: Facts)
    requires TaskIdsOk(c) && Quiet(seen, now) && ScopesKnown(c, now) && ScopesApart(c, now)
    requires Admit(c, seen, r, f).Success?
    ensures var after := Claimed(now, TargetOf(r), Admit(c, seen, r, f).value);
      ScopesKnown(c, after) && ScopesApart(c, after)
  {
    var g, id := Admit(c, seen, r, f).value, TargetOf(r);
    var after := Claimed(now, id, g);
    AdmittedFacts(c, seen, r, f);
    forall w | w in Writers(after)
      ensures ScopeOf(c, w, after[w]).Some?
      ensures id in Writers(after) && w != id ==>
        && Apart(ScopeOf(c, id, after[id]).value, ScopeOf(c, w, after[w]).value)
        && Apart(ScopeOf(c, w, after[w]).value, ScopeOf(c, id, after[id]).value)
    {
      if w != id {
        OtherWriters(seen, now, id, g, w);
        if id in Writers(after) {
          OverlapSymmetric(ScopeOf(c, id, after[id]).value, ScopeOf(c, w, after[w]).value);
        }
      }
    }
    forall x, y | x in Writers(after) && y in Writers(after) && x != y
      ensures Apart(ScopeOf(c, x, after[x]).value, ScopeOf(c, y, after[y]).value)
    {
      if x != id && y != id {
        OtherWriters(seen, now, id, g, x);
        OtherWriters(seen, now, id, g, y);
      }
    }
  }

  lemma QuietSafe(c: Config, before: Issues, after: Issues)
    requires Safe(c, before) && Quiet(before, after)
    ensures Safe(c, after)
  {
    forall app
      ensures |OwnWorkers(after, app)| <= |OwnWorkers(before, app)|
    {
      QuietCounts(before, after, app);
    }
    QuietCounts(before, after, "");
    assert forall w :: w in Writers(after) ==> w in Writers(before) && after[w] == before[w];
  }

  lemma ClaimSafe(c: Config, issues: Issues, r: Request, f: Facts)
    requires Admit(c, issues, r, f).Success?
    ensures TaskIdsOk(c) && Safe(c, issues) ==> Safe(c, Claimed(issues, TargetOf(r), Admit(c, issues, r, f).value))
  {
    if TaskIdsOk(c) && Safe(c, issues) {
      CapacityKept(c, issues, issues, r, f);
      ScopesKept(c, issues, issues, r, f);
    }
  }

  // ----- All runs -----

  ghost predicate Inv(c: Config, s: State) {
    Safe(c, s.issues) && Excluded(s) && Fresh(s)
  }

  lemma QuietTransitive(a: Issues, b: Issues, d: Issues)
    requires Quiet(a, b) && Quiet(b, d)
    ensures Quiet(a, d)
  {
  }

  lemma StepSafe(c: Config, s: State, step: Step)
    requires TaskIdsOk(c) && Inv(c, s) && Enabled(s, step)
    ensures Safe(c, Next(c, s, step).issues)
  {
    match step
    case Decide(pid, r, f) =>
      var seen := PhaseOf(s, pid).seen;
      if Admit(c, seen, r, f).Success? {
        CapacityKept(c, seen, s.issues, r, f);
        ScopesKept(c, seen, s.issues, r, f);
      }
    case Elsewhere(after) => QuietSafe(c, s.issues, after);
    case _ =>
  }

  /** Nobody has looked after a step but who looks in it, or who had looked while the step was elsewhere. */
  lemma LookedOnly(c: Config, s: State, step: Step, pid: Pid)
    requires Excluded(s) && Enabled(s, step) && PhaseOf(Next(c, s, step), pid).Looked?
    ensures step.Look? || step.Elsewhere?
    ensures step.Elsewhere? ==> PhaseOf(Next(c, s, step), pid) == PhaseOf(s, pid)
    ensures step.Look? ==> PhaseOf(Next(c, s, step), pid).seen == s.issues
  {
    assert !PhaseOf(s, pid).Idle? ==> s.holder == Some(pid);
    assert !step.Acquire? && !step.Elsewhere? ==> s.holder == Some(step.pid);
  }

  lemma StepFresh(c: Config, s: State, step: Step)
    requires Excluded(s) && Fresh(s) && Enabled(s, step)
    ensures Excluded(Next(c, s, step)) && Fresh(Next(c, s, step))
  {
    var t := Next(c, s, step);
    forall pid: Pid | PhaseOf(t, pid).Looked?
      ensures Quiet(PhaseOf(t, pid).seen, t.issues)
    {
      LookedOnly(c, s, step, pid);
      if step.Elsewhere? {
        QuietTransitive(PhaseOf(s, pid).seen, s.issues, t.issues);
      }
    }
  }

  /** In every state of every run: capacity, known and disjoint scopes, one admission at a time on fresh facts. */
  lemma {:induction false} RunsSafe(c: Config, run: seq<State>, steps: seq<Step>, k: nat)
    requires TaskIdsOk(c) && IsRun(c, run, steps) && Safe(c, run[0].issues) && k < |run|
    ensures Inv(c, run[k])
  {
    if k > 0 {
      RunsSafe(c, run, steps, k - 1);
      StepSafe(c, run[k - 1], steps[k - 1]);
      StepFresh(c, run[k - 1], steps[k - 1]);
    }
  }

  // ----- What this means for paths -----

  /** In every state of a run two writers' scopes are known and nothing between them is noticed. */
  lemma WritersUnnoticed(c: Config, run: seq<State>, steps: seq<Step>, k: nat, x: IssueId, y: IssueId, i: nat, j: nat)
    requires TaskIdsOk(c) && IsRun(c, run, steps) && Safe(c, run[0].issues) && k < |run|
    requires x in Writers(run[k].issues) && y in Writers(run[k].issues) && x != y
    ensures ScopeOf(c, x, run[k].issues[x]).Some? && ScopeOf(c, y, run[k].issues[y]).Some?
    ensures var a, b := ScopeOf(c, x, run[k].issues[x]).value, ScopeOf(c, y, run[k].issues[y]).value;
      i < |a| && j < |b| ==> !Overlap(a[i], b[j])
  {
    RunsSafe(c, run, steps, k);
    var a, b := ScopeOf(c, x, run[k].issues[x]).value, ScopeOf(c, y, run[k].issues[y]).value;
    if i < |a| {
      assert Clear(a[i], b);
    }
  }

  /** Two writers' scopes share a path exactly when their patterns meet, and then one continues the text before a
      wildcard in mid-component of the other; for scopes with at most one star, exactly when it does and their tails
      agree. */
  lemma SharedPathExactly(c: Config, run: seq<State>, steps: seq<Step>, k: nat, x: IssueId, y: IssueId, i: nat, j: nat,
                          brackets: Brackets)
    requires TaskIdsOk(c) && IsRun(c, run, steps) && Safe(c, run[0].issues) && k < |run|
    requires x in Writers(run[k].issues) && y in Writers(run[k].issues) && x != y
    ensures ScopeOf(c, x, run[k].issues[x]).Some? && ScopeOf(c, y, run[k].issues[y]).Some?
    ensures var a, b := ScopeOf(c, x, run[k].issues[x]).value, ScopeOf(c, y, run[k].issues[y]).value;
      i < |a| && j < |b| ==>
        && (Shared(brackets, a[i], b[j]) <==> Crossing(brackets, a[i], b[j]))
        && (Shared(brackets, a[i], b[j]) ==> Continues(a[i], b[j]))
        && (Plain(a[i]) && Plain(b[j]) ==>
              (Shared(brackets, a[i], b[j]) <==> Continues(a[i], b[j]) && TailsMeet(a[i], b[j])))
  {
    WritersUnnoticed(c, run, steps, k, x, y, i, j);
    var a, b := ScopeOf(c, x, run[k].issues[x]).value, ScopeOf(c, y, run[k].issues[y]).value;
    if i < |a| && j < |b| {
      OverlapMisses(brackets, a[i], b[j]);
      if Plain(a[i]) && Plain(b[j]) {
        PlainMisses(brackets, a[i], b[j]);
      }
    }
  }

  /** Every wildcard of a product scope begins a path component. */
  predicate AtBoundaries(c: Config) {
    forall t :: 0 <= t < |c.tasks| ==>
      forall i :: 0 <= i < |EffectiveScope(c, c.tasks[t])| ==> !MidComponent(EffectiveScope(c, c.tasks[t])[i])
  }

  predicate OwnsAny(own: Ownership, scopes: seq<string>, path: string) {
    exists i :: 0 <= i < |scopes| && own(scopes[i], path)
  }

  lemma WriterAtBoundary(c: Config, id: IssueId, issue: Issue, i: nat)
    requires AtBoundaries(c) && ScopeOf(c, id, issue).Some? && i < |ScopeOf(c, id, issue).value|
    ensures !MidComponent(ScopeOf(c, id, issue).value[i])
  {
    if id in Known(c) {
      var t := KnownListed(c, c.tasks, id);
    } else {
      SafeScopeAtBoundary(issue.grant.value.scopes[i]);
    }
  }

  /** Whatever scopes stand for, at component boundaries no path is ever owned by two writers. */
  lemma OneWriterPerPath(c: Config, run: seq<State>, steps: seq<Step>, k: nat, x: IssueId, y: IssueId, path: string,
                         own: Ownership)
    requires Contained(own)
    requires TaskIdsOk(c) && AtBoundaries(c) && IsRun(c, run, steps) && Safe(c, run[0].issues) && k < |run|
    requires x in Writers(run[k].issues) && y in Writers(run[k].issues)
    requires ScopeOf(c, x, run[k].issues[x]).Some? && OwnsAny(own, ScopeOf(c, x, run[k].issues[x]).value, path)
    requires ScopeOf(c, y, run[k].issues[y]).Some? && OwnsAny(own, ScopeOf(c, y, run[k].issues[y]).value, path)
    ensures x == y
  {
    if x != y {
      var a, b := ScopeOf(c, x, run[k].issues[x]).value, ScopeOf(c, y, run[k].issues[y]).value;
      var i :| 0 <= i < |a| && own(a[i], path);
      var j :| 0 <= j < |b| && own(b[j], path);
      WriterAtBoundary(c, x, run[k].issues[x], i);
      WriterAtBoundary(c, y, run[k].issues[y], j);
      WritersUnnoticed(c, run, steps, k, x, y, i, j);
      UnnoticedContinues(own, a[i], b[j], path);
    }
  }

  // ----- The imperative form -----

  /** The issue store the integrator changes. */
  class Beads {
    var issues: Issues

    constructor (issues: Issues)
      ensures this.issues == issues
    {
      this.issues := issues;
    }

    /** `dispatch` between taking the lock and publishing: it reads the issues once, and claims last. */
    method Dispatch(c: Config, task: TaskId, app: App, f: Facts) returns (g: Result<Grant, Refusal>)
      modifies this
      ensures g == Admit(c, old(issues), Product(task, app), f)
      ensures issues == if g.Success? then Claimed(old(issues), BeadId(task), g.value) else old(issues)
      ensures TaskIdsOk(c) && Safe(c, old(issues)) ==> Safe(c, issues)
    {
      var seen := issues;
      var admission := AdmissionStage(c, seen, task);
      if admission.Failure? {
        return Failure(admission.error);
      }
      var stage := admission.value;
      if app !in c.budgets {
        return Failure(UnknownApp);
      }
      var errors := DispatchErrors(c, stage, task, Lookup(seen, BeadId(task)), seen, app);
      if errors != [] {
        return Failure(errors[0]);
      }
      var contract := TaskOf(c.tasks, task);
      if contract.None? {
        return Failure(UnknownTask);
      }
      var scope := EffectiveScope(c, contract.value);
      if !f.ready {
        return Failure(NotReady);
      }
      if !f.accepted {
        return Failure(PredecessorNotAccepted);
      }
      var clear := CheckScopeOwnership(c, seen, scope);
      if !clear {
        return Failure(WriterScope);
      }
      if app !in c.apps || task !in c.apps[app] {
        return Failure(NotOwnedByApp);
      }
      g := Success(ProductGrant(app, stage.value.id));
      issues := Claimed(issues, BeadId(task), g.value);
      ClaimSafe(c, seen, Product(task, app), f);
    }

    /** `dispatch_followup`, likewise; the grant is validated before readiness is asked. */
    method DispatchFollowup(c: Config, id: IssueId, app: App, mode: Mode, scopes: seq<string>, f: Facts)
      returns (g: Result<Grant, Refusal>)
      modifies this
      ensures g == Admit(c, old(issues), Followup(id, app, mode, scopes), f)
      ensures issues == if g.Success? then Claimed(old(issues), id, g.value) else old(issues)
      ensures TaskIdsOk(c) && Safe(c, old(issues)) ==> Safe(c, issues)
    {
      if !ValidFollowupId(id) {
        return Failure(InvalidFollowupId);
      }
      var seen := issues;
      var stage := CurrentPass(c.passes, seen);
      if app !in c.budgets {
        return Failure(UnknownApp);
      }
      var own := if stage.Some? then Some(Stage(stage.value.id, {id})) else None;
      var errors := DispatchErrors(c, own, id, Lookup(seen, id), seen, app);
      if errors != [] {
        return Failure(errors[0]);
      }
      var grant := FollowupGrant(app, stage.value.id, mode, scopes);
      if !ValidFollowup(c, id, grant) {
        return Failure(InvalidGrant);
      }
      if !f.ready {
        return Failure(NotReady);
      }
      var clear := CheckScopeOwnership(c, seen, scopes);
      if !clear {
        return Failure(WriterScope);
      }
      g := Success(grant);
      issues := Claimed(issues, id, grant);
      ClaimSafe(c, seen, Followup(id, app, mode, scopes), f);
    }
  }

  // ----- The wildcard in mid-component, dispatched -----

  const PLAN := Config(None, map["app" := None], map["app" := {"T01", "T02"}], [Stage(0, {"T01", "T02"})], Passes, {},
    [Task("T01", [DOCS_LEFT]), Task("T02", [DOCS_RIGHT])], map[], map[])
  const TODO := Issue(Open, false, false, false, None)
  const START: Issues := map["pdf-t01" := TODO, "pdf-t02" := TODO]
  const FIRST: Issues := Claimed(START, "pdf-t01", ProductGrant("app", 0))
  const SECOND: Issues := Claimed(FIRST, "pdf-t02", ProductGrant("app", 0))

  lemma Admitted(c: Config, issues: Issues, task: TaskId, app: App, stage: Stage)
    requires c.mode == Passes && CurrentPass(c.passes, issues) == Some(stage) && task in stage.tasks
    requires c.maxWorkers.None? && app in c.budgets && c.budgets[app].None?
    requires BeadId(task) in issues && issues[BeadId(task)] == TODO
    requires TaskOf(c.tasks, task).Some? && ScopesClear(c, issues, EffectiveScope(c, TaskOf(c.tasks, task).value))
    requires app in c.apps && task in c.apps[app]
    ensures Admit(c, issues, Product(task, app), Facts(true, true)) == Success(ProductGrant(app, stage.id))
  {
  }

  lemma PlanFacts()
    ensures TaskIdsOk(PLAN)
    ensures BeadId("T01") == "pdf-t01" && BeadId("T02") == "pdf-t02"
    ensures TaskOf(PLAN.tasks, "T01") == Some(PLAN.tasks[0]) && TaskOf(PLAN.tasks, "T02") == Some(PLAN.tasks[1])
    ensures EffectiveScope(PLAN, PLAN.tasks[0]) == [DOCS_LEFT]
    ensures EffectiveScope(PLAN, PLAN.tasks[1]) == [DOCS_RIGHT]
    ensures Writers(START) == {} && Writers(FIRST) == {"pdf-t01"} && Writers(SECOND) == {"pdf-t01", "pdf-t02"}
  {
    assert Lower("T01") == "t01" && Lower("T02") == "t02";
  }

  lemma PlanScopes()
    ensures ScopeOf(PLAN, "pdf-t01", FIRST["pdf-t01"]) == Some([DOCS_LEFT])
    ensures ScopeOf(PLAN, "pdf-t01", SECOND["pdf-t01"]) == Some([DOCS_LEFT])
    ensures ScopeOf(PLAN, "pdf-t02", SECOND["pdf-t02"]) == Some([DOCS_RIGHT])
  {
    PlanFacts();
    KnownTask(PLAN, PLAN.tasks, "T01");
    KnownTask(PLAN, PLAN.tasks, "T02");
  }

  lemma PlanStage(issues: Issues)
    requires issues.Keys == {"pdf-t01", "pdf-t02"}
    ensures CurrentPass(PLAN.passes, issues) == Some(PLAN.passes[0])
  {
    var checkpoint := "pdf-pass" + Decimal(0);
    assert checkpoint[4] == 'p';
  }

  lemma OverlapSwapped(left: string, right: string)
    ensures Overlap(left, right) <==> Overlap(right, left)
  {
  }

  lemma OneOwner(c: Config, issues: Issues, owner: IssueId, owned: string, scope: string)
    requires Writers(issues) == {owner} && ScopeOf(c, owner, issues[owner]) == Some([owned]) && !Overlap(scope, owned)
    ensures ScopesClear(c, issues, [scope])
  {
    assert Clear(scope, [owned]);
    assert Apart([scope], [owned]);
  }

  lemma SecondClear()
    ensures ScopesClear(PLAN, FIRST, [DOCS_RIGHT])
  {
    PlanFacts();
    PlanScopes();
    DocsExampleMissed(Brackets(pattern => 0, (text, c) => false));
    OverlapSwapped(DOCS_LEFT, DOCS_RIGHT);
    OneOwner(PLAN, FIRST, "pdf-t01", DOCS_LEFT, DOCS_RIGHT);
  }

  /** Both tasks are admitted, one after the other. */
  lemma BothAdmitted()
    ensures Admit(PLAN, START, Product("T01", "app"), Facts(true, true)) == Success(ProductGrant("app", 0))
    ensures Admit(PLAN, FIRST, Product("T02", "app"), Facts(true, true)) == Success(ProductGrant("app", 0))
  {
    PlanFacts();
    SecondClear();
    PlanStage(START);
    PlanStage(FIRST);
    Admitted(PLAN, START, "T01", "app", PLAN.passes[0]);
    Admitted(PLAN, FIRST, "T02", "app", PLAN.passes[0]);
  }

  /** And then two writers own one file. */
  lemma MidComponentShared(brackets: Brackets)
    ensures TaskIdsOk(PLAN)
    ensures Writers(SECOND) == {"pdf-t01", "pdf-t02"}
    ensures ScopeOf(PLAN, "pdf-t01", SECOND["pdf-t01"]).Some? && ScopeOf(PLAN, "pdf-t02", SECOND["pdf-t02"]).Some?
    ensures var own := (scope, path) => Pathspec(brackets, scope, path);
      && Contained(own)
      && OwnsAny(own, ScopeOf(PLAN, "pdf-t01", SECOND["pdf-t01"]).value, DOCS_RIGHT)
      && OwnsAny(own, ScopeOf(PLAN, "pdf-t02", SECOND["pdf-t02"]).value, DOCS_RIGHT)
  {
    PlanFacts();
    PlanScopes();
    DocsExampleMissed(brackets);
    PathspecContained(brackets);
    assert [DOCS_LEFT][0] == DOCS_LEFT && [DOCS_RIGHT][0] == DOCS_RIGHT;
  }
}
