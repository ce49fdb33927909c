/** Admission of writers: what one dispatch checks and claims, under the admission lock. */
module Dispatch {
  import opened Outcome
  import opened Decimals
  import opened Paths
  import opened Globs
  import opened Scopes

  type IssueId = string
  type TaskId = string
  type App = string

  datatype Status = Open | InProgress | Closed | OtherStatus

  datatype Mode = Audit | Implementation | OtherMode

  datatype Grant =
    | ProductGrant(app: App, pass: nat)
    | FollowupGrant(app: App, pass: nat, mode: Mode, scopes: seq<string>)

  datatype Issue = Issue(status: Status, hasAssignee: bool, workerLabel: bool, reviewLabel: bool, grant: Option<Grant>)

  type Issues = map<IssueId, Issue>

  datatype Stage = Stage(id: nat, tasks: set<TaskId>)

  datatype AdmissionMode = Passes | Dependencies | UnknownMode

  datatype Task = Task(id: TaskId, scope: seq<string>)

  /** The plan file, task contracts in the order they are listed and path overrides. */
  datatype Config = Config(
    maxWorkers: Option<nat>,
    budgets: map<App, Option<nat>>,
    apps: map<App, set<TaskId>>,
    passes: seq<Stage>,
    mode: AdmissionMode,
    ownerRelease: set<TaskId>,
    tasks: seq<Task>,
    pathReplacements: map<string, string>,
    scopeAdditions: map<TaskId, seq<string>>)

  function LowerChar(c: char): char {
    if 'A' <= c <= 'Z' then (c as int + 32) as char else c
  }

  function Lower(s: string): (r: string)
    ensures |r| == |s| && forall i :: 0 <= i < |s| ==> r[i] == LowerChar(s[i])
  {
    seq(|s|, i requires 0 <= i < |s| => LowerChar(s[i]))
  }

  /** `bead_id`. */
  function BeadId(task: TaskId): IssueId {
    "pdf-" + Lower(task)
  }

  /** How product tasks are named: `T` and digits. */
  predicate IsTaskId(task: TaskId) {
    |task| >= 2 && task[0] == 'T' && AllDigits(task[1..])
  }

  predicate TaskIdsOk(c: Config) {
    forall i :: 0 <= i < |c.tasks| ==> IsTaskId(c.tasks[i].id)
  }

  lemma BeadIdInjective(a: TaskId, b: TaskId)
    requires IsTaskId(a) && IsTaskId(b) && BeadId(a) == BeadId(b)
    ensures a == b
  {
    assert BeadId(a)[4..] == Lower(a) && BeadId(b)[4..] == Lower(b);
    forall i | 1 <= i < |a|
      ensures a[i] == b[i]
    {
      assert IsDigit(a[1..][i - 1]) && IsDigit(b[1..][i - 1]);
      assert Lower(a)[i] == Lower(b)[i];
    }
  }

  /** The scope part of `effective_task`. */
  function EffectiveScope(c: Config, task: Task): seq<string> {
    seq(|task.scope|, i requires 0 <= i < |task.scope| =>
      if task.scope[i] in c.pathReplacements then c.pathReplacements[task.scope[i]] else task.scope[i])
    + (if task.id in c.scopeAdditions then c.scopeAdditions[task.id] else [])
  }

  /** The contract listed for a task, the last one if there are several. */
  function TaskOf(tasks: seq<Task>, id: TaskId): Option<Task> {
    if tasks == [] then None
    else if tasks[|tasks| - 1].id == id then Some(tasks[|tasks| - 1])
    else TaskOf(tasks[..|tasks| - 1], id)
  }

  /** `{bead_id(tid): effective_task(t, overrides) for tid, t in tasks.items()}`: later tasks overwrite earlier ones. */
  function KnownIn(c: Config, tasks: seq<Task>): map<IssueId, seq<string>> {
    if tasks == [] then map[]
    else
      var last := tasks[|tasks| - 1];
      KnownIn(c, tasks[..|tasks| - 1])[BeadId(last.id) := EffectiveScope(c, last)]
  }

  function Known(c: Config): map<IssueId, seq<string>> {
    KnownIn(c, c.tasks)
  }

  /** Every known scope is that of a listed task. */
  lemma {:induction false} KnownListed(c: Config, tasks: seq<Task>, id: IssueId) returns (i: nat)
    requires id in KnownIn(c, tasks)
    ensures i < |tasks| && BeadId(tasks[i].id) == id && KnownIn(c, tasks)[id] == EffectiveScope(c, tasks[i])
  {
    i := |tasks| - 1;
    if BeadId(tasks[i].id) != id {
      i := KnownListed(c, tasks[..i], id);
    }
  }

  /** Among task ids proper, the issue id of a listed task leads to its own scope. */
  lemma {:induction false} KnownTask(c: Config, tasks: seq<Task>, id: TaskId)
    requires (forall i :: 0 <= i < |tasks| ==> IsTaskId(tasks[i].id)) && TaskOf(tasks, id).Some?
    ensures IsTaskId(id) && BeadId(id) in KnownIn(c, tasks)
    ensures KnownIn(c, tasks)[BeadId(id)] == EffectiveScope(c, TaskOf(tasks, id).value)
  {
    var n := |tasks| - 1;
    if tasks[n].id != id {
      KnownTask(c, tasks[..n], id);
      if BeadId(tasks[n].id) == BeadId(id) {
        BeadIdInjective(tasks[n].id, id);
      }
    }
  }

  // ----- Follow-up identities and scopes -----

  predicate IdStart(c: char) {
    'a' <= c <= 'z' || '0' <= c <= '9'
  }

  /** `pdf-[a-z0-9][a-z0-9-]{0,63}`, but neither a product task nor a pass checkpoint. */
  predicate ValidFollowupId(id: IssueId) {
    && "pdf-" <= id && 5 <= |id| <= 68
    && IdStart(id[4])
    && (forall i :: 4 <= i < |id| ==> IdStart(id[i]) || id[i] == '-')
    && !("pdf-t" <= id && |id| > 5 && AllDigits(id[5..]))
    && !("pdf-pass" <= id && |id| > 8 && AllDigits(id[8..]))
  }

  lemma ProductIdShape(task: TaskId)
    requires IsTaskId(task)
    ensures "pdf-t" <= BeadId(task) && |BeadId(task)| > 5 && AllDigits(BeadId(task)[5..])
  {
    var digits := BeadId(task)[5..];
    forall i: int | 0 <= i < |digits|
      ensures IsDigit(digits[i])
    {
      assert digits[i] == Lower(task)[i + 1] && IsDigit(task[1..][i]);
    }
  }

  /** A follow-up never carries the identity of a product task. */
  lemma FollowupIsNotProduct(c: Config, id: IssueId)
    requires TaskIdsOk(c) && ValidFollowupId(id)
    ensures id !in Known(c)
  {
    if id in Known(c) {
      var i := KnownListed(c, c.tasks, id);
      ProductIdShape(c.tasks[i].id);
    }
  }

  const FORBIDDEN: set<char> := {'*', '?', '[', ']', '\\', '\n', '\r', '\0'}

  /** One scope of `validate_scope`: a relative path without wildcards and without empty or dotted parts, outside the
      repository's own state. */
  predicate SafeScope(scope: string) {
    && scope != ""
    && (forall i :: 0 <= i < |scope| ==> scope[i] !in FORBIDDEN)
    && var parts := Parts(Strip(scope));
       && (forall i :: 0 <= i < |parts| ==> parts[i] !in {"", ".", ".."})
       && (|parts| > 0 ==> parts[0] !in {".git", ".beads", "planning"})
  }

  predicate ValidScopes(id: IssueId, mode: Mode, scopes: seq<string>) {
    && scopes != []
    && (forall i :: 0 <= i < |scopes| ==> SafeScope(scopes[i]))
    && mode != OtherMode
    && (mode == Audit ==> forall i :: 0 <= i < |scopes| ==> Under(Strip(scopes[i]), "artifacts/followups/" + id))
  }

  /** `validate_grant`, as far as the grant is modelled. */
  predicate ValidFollowup(c: Config, id: IssueId, g: Grant) {
    && g.FollowupGrant?
    && ValidFollowupId(id)
    && g.app in c.apps
    && (exists i :: 0 <= i < |c.passes| && c.passes[i].id == g.pass)
    && ValidScopes(id, g.mode, g.scopes)
  }

  lemma SafeScopeAtBoundary(scope: string)
    requires SafeScope(scope)
    ensures !HasWildcard(scope) && !MidComponent(scope) && Base(scope) != ""
  {
    assert Parts("") == [""];
  }

  // ----- Workers, writers and what they own -----

  predicate Active(i: Issue) {
    i.status == InProgress && (i.workerLabel || i.grant.Some?)
  }

  /** `active_workers`. */
  function Workers(issues: Issues): set<IssueId> {
    set id | id in issues && Active(issues[id])
  }

  predicate OwnedBy(i: Issue, app: App) {
    i.grant.Some? && i.grant.value.app == app
  }

  function OwnWorkers(issues: Issues, app: App): set<IssueId> {
    set id | id in Workers(issues) && OwnedBy(issues[id], app)
  }

  /** Review work only reads, unless its grant is a follow-up. */
  predicate ReadsOnly(i: Issue) {
    i.reviewLabel && !(i.grant.Some? && i.grant.value.FollowupGrant?)
  }

  function Writers(issues: Issues): set<IssueId> {
    set id | id in Workers(issues) && !ReadsOnly(issues[id])
  }

  /** The scope a writer owns, if the checks can tell. */
  function ScopeOf(c: Config, id: IssueId, i: Issue): Option<seq<string>> {
    if id in Known(c) then Some(Known(c)[id])
    else if i.grant.Some? && i.grant.value.FollowupGrant? then
      if ValidFollowup(c, id, i.grant.value) then Some(i.grant.value.scopes) else None
    else None
  }

  predicate Clear(scope: string, b: seq<string>) {
    forall j :: 0 <= j < |b| ==> !Overlap(scope, b[j])
  }

  predicate Apart(a: seq<string>, b: seq<string>) {
    forall i :: 0 <= i < |a| ==> Clear(a[i], b)
  }

  /** `check_scope_ownership` finds nothing: every writer's scope is known and apart from the new one. */
  predicate ScopesClear(c: Config, issues: Issues, scopes: seq<string>) {
    forall id :: id in Writers(issues) ==>
      ScopeOf(c, id, issues[id]).Some? && Apart(scopes, ScopeOf(c, id, issues[id]).value)
  }

  // ----- One admission -----

  datatype Request = Product(task: TaskId, app: App) | Followup(id: IssueId, app: App, mode: Mode, scopes: seq<string>)

  /** Answers of the other tools: Beads readiness and the predecessors' accepted evidence. */
  datatype Facts = Facts(ready: bool, accepted: bool)

  function TargetOf(r: Request): IssueId {
    match r
    case Product(task, _) => BeadId(task)
    case Followup(id, _, _, _) => id
  }

  /** `current_pass`: the first stage whose checkpoint is not closed. */
  function CurrentPass(passes: seq<Stage>, issues: Issues): Option<Stage> {
    if passes == [] then None
    else
      var checkpoint := "pdf-pass" + Decimal(passes[0].id);
      if checkpoint in issues && issues[checkpoint].status == Closed then CurrentPass(passes[1..], issues)
      else Some(passes[0])
  }

  function StagesWith(passes: seq<Stage>, task: TaskId): seq<Stage> {
    if passes == [] then []
    else (if task in passes[0].tasks then [passes[0]] else []) + StagesWith(passes[1..], task)
  }

  datatype Refusal =
    | UnknownAdmissionMode | NoSingleStage | AllPassesClosed | OutsidePass | NotOpen | AlreadyAssigned
    | GlobalCapacity | AppCapacity | UnknownApp | UnknownTask | NotReady | PredecessorNotAccepted
    | WriterScope | NotOwnedByApp | InvalidFollowupId | InvalidGrant

  /** `admission_stage`. */
  function AdmissionStage(c: Config, issues: Issues, task: TaskId): Result<Option<Stage>, Refusal> {
    match c.mode
    case Passes => Success(CurrentPass(c.passes, issues))
    case UnknownMode => Failure(UnknownAdmissionMode)
    case Dependencies =>
      var stages := StagesWith(c.passes, task);
      if |stages| != 1 || task in c.ownerRelease then Failure(NoSingleStage) else Success(Some(stages[0]))
  }

  /** `dispatch_errors`: every failed check, in order. */
  function DispatchErrors(c: Config, stage: Option<Stage>, task: TaskId, issue: Option<Issue>, issues: Issues, app: App)
    : seq<Refusal>
    requires app in c.budgets
  {
    (if stage.None? then [AllPassesClosed] else [])
    + (if stage.None? || task !in stage.value.tasks then [OutsidePass] else [])
    + (if issue.None? || issue.value.status != Open then [NotOpen] else [])
    + (if issue.Some? && issue.value.hasAssignee then [AlreadyAssigned] else [])
    + (if c.maxWorkers.Some? && |Workers(issues)| >= c.maxWorkers.value then [GlobalCapacity] else [])
    + (if c.budgets[app].Some? && |OwnWorkers(issues, app)| >= c.budgets[app].value then [AppCapacity] else [])
  }

  function Lookup(issues: Issues, id: IssueId): Option<Issue> {
    if id in issues then Some(issues[id]) else None
  }

  /** Every check of `dispatch` and `dispatch_followup` on what was read, and the grant they lead to. */
  function Admit(c: Config, issues: Issues, r: Request, f: Facts): Result<Grant, Refusal> {
    match r
    case Product(task, app) =>
      (match AdmissionStage(c, issues, task)
       case Failure(e) => Failure(e)
       case Success(stage) =>
         if app !in c.budgets then Failure(UnknownApp)
         else
           var errors := DispatchErrors(c, stage, task, Lookup(issues, BeadId(task)), issues, app);
           if errors != [] then Failure(errors[0])
           else if TaskOf(c.tasks, task).None? then Failure(UnknownTask)
           else if !f.ready then Failure(NotReady)
           else if !f.accepted then Failure(PredecessorNotAccepted)
           else if !ScopesClear(c, issues, EffectiveScope(c, TaskOf(c.tasks, task).value)) then Failure(WriterScope)
           else if app !in c.apps || task !in c.apps[app] then Failure(NotOwnedByApp)
           else Success(ProductGrant(app, stage.value.id)))
    case Followup(id, app, mode, scopes) =>
      if !ValidFollowupId(id) then Failure(InvalidFollowupId)
      else if app !in c.budgets then Failure(UnknownApp)
      else
        var stage := CurrentPass(c.passes, issues);
        var own := if stage.None? then None else Some(Stage(stage.value.id, {id}));
        var errors := DispatchErrors(c, own, id, Lookup(issues, id), issues, app);
        if errors != [] then Failure(errors[0])
        else
          var grant := FollowupGrant(app, stage.value.id, mode, scopes);
          if !ValidFollowup(c, id, grant) then Failure(InvalidGrant)
          else if !f.ready then Failure(NotReady)
          else if !ScopesClear(c, issues, scopes) then Failure(WriterScope)
          else Success(grant)
  }

  /** `bd update --claim`: in progress, assigned, carrying the grant; a follow-up gains the label. */
  function Claimed(issues: Issues, id: IssueId, g: Grant): Issues {
    if id !in issues then issues
    else
      issues[id := issues[id].(status := InProgress, hasAssignee := true,
                               workerLabel := issues[id].workerLabel || g.FollowupGrant?, grant := Some(g))]
  }

  // ----- The imperative form -----

  /** `check_scope_ownership`: two nested loops over writers and pairs of scopes. */
  method CheckScopeOwnership(c: Config, issues: Issues, scopes: seq<string>) returns (clear: bool)
    ensures clear <==> ScopesClear(c, issues, scopes)
  {
    var known := Known(c);
    var rest := Workers(issues);
    while rest != {}
      invariant rest <= Workers(issues)
      invariant forall id :: id in Writers(issues) - rest ==>
        ScopeOf(c, id, issues[id]).Some? && Apart(scopes, ScopeOf(c, id, issues[id]).value)
      decreases rest
    {
      var id :| id in rest;
      rest := rest - {id};
      if ReadsOnly(issues[id]) {
        continue;
      }
      assert id in Writers(issues);
      var owner := ScopeOf(c, id, issues[id]);
      if owner.None? {
        return false;
      }
      var apart := CheckApart(scopes, owner.value);
      if !apart {
        return false;
      }
    }
    return true;
  }

  method CheckApart(a: seq<string>, b: seq<string>) returns (apart: bool)
    ensures apart <==> Apart(a, b)
  {
    for i := 0 to |a|
      invariant forall p :: 0 <= p < i ==> Clear(a[p], b)
    {
      var clear := CheckClear(a[i], b);
      if !clear {
        return false;
      }
    }
    return true;
  }

  method CheckClear(scope: string, b: seq<string>) returns (clear: bool)
    ensures clear <==> Clear(scope, b)
  {
    for j := 0 to |b|
      invariant forall q :: 0 <= q < j ==> !Overlap(scope, b[q])
    {
      if Overlap(scope, b[j]) {
        return false;
      }
    }
    return true;
  }
}
