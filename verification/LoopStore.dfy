/**
 The transactions that make a loop conflicting-active: loop create, worker create or reuse,
 planner create (internal/api/handler_loop_create.go), retry (handler_loop_retry.go), and
 start as internal/loops/reactivation.go guards it.  A transaction commits whole or not at
 all; `ok` says that its remaining checks and writes succeed.
 */
module LoopStore {
  import opened LoopStatuses
  import opened Targets
  import opened Texts
  import opened Wrappers

  // ---------------------------------------------------------------------------
  // Uniqueness
  // ---------------------------------------------------------------------------

  predicate ProjectWorker(kind: LoopType, t: TargetType) {
    kind.Worker? && t.ProjectType?
  }

  predicate Clashes(r: LoopRecord, candidateId: string, projectId: string, kind: LoopType, t: Target) {
    && r.id != candidateId && ConflictingActive(r.status)
    && !(r.projectId == projectId && ProjectWorker(r.kind, r.targetType) && ProjectWorker(kind, TypeOf(t)))
    && r.projectId == projectId && r.kind == kind && RecordKey(r) == TargetKey(t)
  }

  predicate ActiveConflict(loops: seq<LoopRecord>, candidateId: string, projectId: string, kind: LoopType,
      t: Target, status: LoopStatus) {
    ConflictingActive(status) && exists i :: 0 <= i < |loops| && Clashes(loops[i], candidateId, projectId, kind, t)
  }

  /** assertUniqueActiveLoopCompat. */
  method AssertUniqueActive(loops: seq<LoopRecord>, candidateId: string, projectId: string, kind: LoopType,
      t: Target, status: LoopStatus)
    returns (conflict: bool)
    ensures conflict == ActiveConflict(loops, candidateId, projectId, kind, t, status)
  {
    hide RecordKey, TargetKey;
    if !ConflictingActive(status) {
      return false;
    }
    for i := 0 to |loops|
      invariant forall k :: 0 <= k < i ==> !Clashes(loops[k], candidateId, projectId, kind, t)
    {
      var loop := loops[i];
      if loop.id == candidateId || !ConflictingActive(loop.status) {
        continue;
      }
      if loop.projectId == projectId && ProjectWorker(loop.kind, loop.targetType) && ProjectWorker(kind, TypeOf(t)) {
        continue;
      }
      if loop.projectId == projectId && loop.kind == kind && RecordKey(loop) == TargetKey(t) {
        return true;
      }
    }
    return false;
  }

  predicate Apart(r: LoopRecord, s: LoopRecord) {
    ConflictingActive(r.status) && ConflictingActive(s.status) && r.projectId == s.projectId && r.kind == s.kind
    && RecordKey(r) == RecordKey(s)
    ==> ProjectWorker(r.kind, r.targetType) && ProjectWorker(s.kind, s.targetType)
  }

  /** Two conflicting-active loops of one project, type and target are project-target workers. */
  predicate Unique(loops: seq<LoopRecord>) {
    forall i, j :: 0 <= i < j < |loops| ==> Apart(loops[i], loops[j])
  }

  predicate Inv(loops: seq<LoopRecord>) {
    && (forall i :: 0 <= i < |loops| ==> loops[i].id != "" && WellFormed(loops[i]))
    && (forall i, j :: 0 <= i < j < |loops| ==> loops[i].id != loops[j].id)
    && Unique(loops)
  }

  predicate FreshId(loops: seq<LoopRecord>, id: string) {
    id != "" && forall i :: 0 <= i < |loops| ==> loops[i].id != id
  }

  // ---------------------------------------------------------------------------
  // Transactions as functions
  // ---------------------------------------------------------------------------

  /** buildLoopTarget on what the request says. */
  function BuildTarget(t: Target): Option<Target> {
    match t
    case Project(p) => if NormalizeProjectTargetID(p) == "" then None else Some(Project(NormalizeProjectTargetID(p)))
    case Issue(repo, n) => if TrimSpace(repo) == "" || n <= 0 || !Int64(n) then None else Some(Issue(TrimSpace(repo), n))
    case PullRequest(repo, n) => if TrimSpace(repo) == "" || n <= 0 || !Int64(n) then None else Some(PullRequest(TrimSpace(repo), n))
  }

  predicate TypeMatches(kind: LoopType, t: Target) {
    match kind
    case Worker => true
    case Planner => t.Issue?
    case _ => t.PullRequest?
  }

  function CandidateStatus(kind: LoopType, status: LoopStatus): LoopStatus {
    if !kind.Planner? && status.Running? then Queued else status
  }

  function NewRecord(id: string, projectId: string, kind: LoopType, t: Target, status: LoopStatus): LoopRecord {
    LoopRecord(id, projectId, kind, TypeOf(t), Some(TargetKey(t)),
               if t.Project? then None else Some(t.repo), if t.PullRequest? then Some(t.number) else None, status)
  }

  datatype Tx = Tx(committed: bool, loops: seq<LoopRecord>)

  function InsertOf(loops: seq<LoopRecord>, r: LoopRecord, t: Target, ok: bool): Tx {
    if !ok || ActiveConflict(loops, "", r.projectId, r.kind, t, r.status) then Tx(false, loops) else Tx(true, loops + [r])
  }

  function CreateOf(loops: seq<LoopRecord>, id: string, projectId: string, kind: LoopType, asked: Target,
      status: LoopStatus, ok: bool): Tx {
    match BuildTarget(asked)
    case None => Tx(false, loops)
    case Some(t) =>
      if !TypeMatches(kind, t) then Tx(false, loops)
      else InsertOf(loops, NewRecord(id, projectId, kind, t, CandidateStatus(kind, status)), t, ok)
  }

  function PlannerOf(loops: seq<LoopRecord>, id: string, projectId: string, repo: string, issue: int, ok: bool): Tx {
    if !Int64(issue) then Tx(false, loops)
    else InsertOf(loops, NewRecord(id, projectId, Planner, Issue(repo, issue), Running), Issue(repo, issue), ok)
  }

  /** A worker request: at most one of `pr` and `issue`; `planned` is the pull request a planner made for the issue. */
  datatype WorkerRequest = WorkerRequest(projectId: string, repo: string, pr: Option<int>, issue: Option<int>,
      planned: Option<int>, force: bool)

  predicate Admissible(q: WorkerRequest) {
    && !(q.pr.Some? && q.issue.Some?)
    && (q.pr.Some? ==> Int64(q.pr.value)) && (q.issue.Some? ==> Int64(q.issue.value)) && (q.planned.Some? ==> Int64(q.planned.value))
  }

  function EffectivePr(q: WorkerRequest): Option<int> {
    if q.pr.Some? then q.pr else if q.issue.Some? then q.planned else None
  }

  function WorkerTarget(q: WorkerRequest): Target {
    var pr := EffectivePr(q);
    if pr.Some? then PullRequest(q.repo, pr.value)
    else if q.issue.Some? then Issue(q.repo, q.issue.value)
    else Project(q.projectId)
  }

  /** The worker path writes its own target ids: raw project id, and "pr:" for a pull request. */
  function WorkerRecord(id: string, q: WorkerRequest): LoopRecord {
    var t := WorkerTarget(q);
    var targetId := match t
      case Project(p) => "project:" + p
      case Issue(repo, n) => IssueTargetID(repo, n)
      case PullRequest(repo, n) => "pr:" + repo + ":" + Decimal(n);
    LoopRecord(id, q.projectId, Worker, TypeOf(t), Some(targetId), Some(q.repo), EffectivePr(q), Queued)
  }

  predicate ReusableFor(r: LoopRecord, q: WorkerRequest)
    requires q.issue.Some?
  {
    && r.projectId == q.projectId && r.kind.Worker? && ConflictingActive(r.status) && TargetOfRecord(r).Some?
    && (RecordKey(r) == TargetKey(Issue(q.repo, q.issue.value)) || RecordKey(r) == TargetKey(WorkerTarget(q)))
  }

  predicate Unreadable(r: LoopRecord, q: WorkerRequest) {
    r.projectId == q.projectId && r.kind.Worker? && ConflictingActive(r.status) && TargetOfRecord(r).None?
  }

  datatype Reuse = NoLoop | Broken | Loop(index: nat)

  /** reusableWorkerLoopForIssueRequestCompat: the first match, unless an unreadable worker comes before it. */
  function ReuseFrom(loops: seq<LoopRecord>, q: WorkerRequest, i: nat): (r: Reuse)
    requires q.issue.Some? && i <= |loops|
    ensures r.Loop? ==> i <= r.index < |loops| && ReusableFor(loops[r.index], q)
    decreases |loops| - i
  {
    if i == |loops| then NoLoop
    else if Unreadable(loops[i], q) then Broken
    else if ReusableFor(loops[i], q) then Loop(i)
    else ReuseFrom(loops, q, i + 1)
  }

  method FindReusable(loops: seq<LoopRecord>, q: WorkerRequest) returns (r: Reuse)
    requires q.issue.Some?
    ensures r == ReuseFrom(loops, q, 0)
  {
    var issueKey, targetKey := TargetKey(Issue(q.repo, q.issue.value)), TargetKey(WorkerTarget(q));
    for i := 0 to |loops|
      invariant ReuseFrom(loops, q, 0) == ReuseFrom(loops, q, i)
    {
      var loop := loops[i];
      if loop.projectId != q.projectId || !loop.kind.Worker? || !ConflictingActive(loop.status) {
        continue;
      }
      if TargetOfRecord(loop).None? {
        return Broken;
      }
      var key := RecordKey(loop);
      if key != issueKey && key != targetKey {
        continue;
      }
      return Loop(i);
    }
    return NoLoop;
  }

  function ResumeOf(loops: seq<LoopRecord>, i: nat, force: bool, ok: bool): Tx
    requires i < |loops|
  {
    if !ok || (force && loops[i].status.Running?) then Tx(false, loops)
    else if loops[i].status.Idle? || loops[i].status.Paused? then Tx(true, loops[i := loops[i].(status := Queued)])
    else Tx(true, loops)
  }

  function WorkerOf(loops: seq<LoopRecord>, id: string, q: WorkerRequest, ok: bool): Tx {
    if !Admissible(q) then Tx(false, loops)
    else
      var reuse := if q.issue.Some? then ReuseFrom(loops, q, 0) else NoLoop;
      match reuse
      case Broken => Tx(false, loops)
      case Loop(i) => ResumeOf(loops, i, q.force, ok)
      case NoLoop => InsertOf(loops, WorkerRecord(id, q), WorkerTarget(q), ok)
  }

  predicate Retryable(s: LoopStatus) {
    !s.Stopped? && !s.Terminated? && !s.Completed?
  }

  function RetryOf(loops: seq<LoopRecord>, i: nat, ok: bool): Tx
    requires i < |loops|
  {
    var r := loops[i];
    var t := TargetOfRecord(r);
    if !ok || !Retryable(r.status) || t.None? || ActiveConflict(loops, r.id, r.projectId, r.kind, t.value, Queued) then Tx(false, loops)
    else Tx(true, loops[i := r.(status := Queued)])
  }

  /** The key that start compares: pull requests by their raw spelling. */
  function RawKey(t: Target): string {
    match t
    case Project(p) => "project:" + p
    case Issue(repo, n) => IssueTargetID(repo, n)
    case PullRequest(repo, n) => "pr:" + repo + ":" + Decimal(n)
  }

  predicate RawClashes(r: LoopRecord, c: LoopRecord, t: Target) {
    && r.id != c.id && ConflictingActive(r.status) && TargetOfRecord(r).Some?
    && !(r.projectId == c.projectId && ProjectWorker(r.kind, r.targetType) && ProjectWorker(c.kind, TypeOf(t)))
    && r.projectId == c.projectId && r.kind == c.kind && RawKey(TargetOfRecord(r).value) == RawKey(t)
  }

  function StartOf(loops: seq<LoopRecord>, i: nat, ok: bool): Tx
    requires i < |loops|
  {
    var r := loops[i];
    var t := TargetOfRecord(r);
    if !ok || t.None? || (exists k :: 0 <= k < |loops| && RawClashes(loops[k], r, t.value)) then Tx(false, loops)
    else Tx(true, loops[i := r.(status := Running)])
  }

  // ---------------------------------------------------------------------------
  // The store
  // ---------------------------------------------------------------------------

  class Store {
    var loops: seq<LoopRecord>

    method Insert(r: LoopRecord, t: Target, ok: bool) returns (committed: bool)
      modifies this
      ensures Tx(committed, loops) == InsertOf(old(loops), r, t, ok)
    {
      var conflict := AssertUniqueActive(loops, "", r.projectId, r.kind, t, r.status);
      if conflict || !ok {
        return false;
      }
      loops := loops + [r];
      committed := true;
    }

    method CreateLoop(id: string, projectId: string, kind: LoopType, asked: Target, status: LoopStatus, ok: bool)
      returns (committed: bool)
      requires Inv(loops) && FreshId(loops, id)
      modifies this
      ensures Tx(committed, loops) == CreateOf(old(loops), id, projectId, kind, asked, status, ok)
      ensures Inv(loops)
    {
      CreateKeepsInv(loops, id, projectId, kind, asked, status, ok);
      var built := BuildTarget(asked);
      if built.None? || !TypeMatches(kind, built.value) {
        return false;
      }
      var candidateStatus := status;
      if (kind.Reviewer? || kind.Fixer? || kind.Worker?) && candidateStatus.Running? {
        candidateStatus := Queued;
      }
      committed := Insert(NewRecord(id, projectId, kind, built.value, candidateStatus), built.value, ok);
    }

    method CreatePlanner(id: string, projectId: string, repo: string, issue: int, ok: bool) returns (committed: bool)
      requires Inv(loops) && FreshId(loops, id)
      modifies this
      ensures Tx(committed, loops) == PlannerOf(old(loops), id, projectId, repo, issue, ok)
      ensures Inv(loops)
    {
      PlannerKeepsInv(loops, id, projectId, repo, issue, ok);
      if !Int64(issue) {
        return false;
      }
      committed := Insert(NewRecord(id, projectId, Planner, Issue(repo, issue), Running), Issue(repo, issue), ok);
    }

    method CreateWorker(id: string, q: WorkerRequest, ok: bool) returns (committed: bool, reused: bool)
      requires Inv(loops) && FreshId(loops, id)
      modifies this
      ensures Tx(committed, loops) == WorkerOf(old(loops), id, q, ok)
      ensures Inv(loops)
      ensures reused ==> |loops| == |old(loops)|
    {
      WorkerKeepsInv(loops, id, q, ok);
      if !Admissible(q) {
        return false, false;
      }
      var reuse := NoLoop;
      if q.issue.Some? {
        reuse := FindReusable(loops, q);
      }
      match reuse
      case Broken =>
        return false, false;
      case Loop(i) =>
        if !ok || (q.force && loops[i].status.Running?) {
          return false, true;
        }
        if loops[i].status.Idle? || loops[i].status.Paused? {
          loops := loops[i := loops[i].(status := Queued)];
        }
        return true, true;
      case NoLoop =>
        committed := Insert(WorkerRecord(id, q), WorkerTarget(q), ok);
        reused := false;
    }

    method Retry(i: nat, ok: bool) returns (committed: bool)
      requires Inv(loops) && i < |loops|
      modifies this
      ensures Tx(committed, loops) == RetryOf(old(loops), i, ok)
      ensures Inv(loops)
    {
      RetryKeepsInv(loops, i, ok);
      var r := loops[i];
      if !Retryable(r.status) {
        return false;
      }
      var t := TargetOfRecord(r);
      if t.None? {
        return false;
      }
      var conflict := AssertUniqueActive(loops, r.id, r.projectId, r.kind, t.value, Queued);
      if conflict || !ok {
        return false;
      }
      loops := loops[i := r.(status := Queued)];
      committed := true;
    }
  }

  // ---------------------------------------------------------------------------
  // Every transaction keeps the invariant
  // ---------------------------------------------------------------------------

  /** Well-formed records of different target types never share a key. */
  lemma KeysTellTypesApart(r: LoopRecord, s: LoopRecord)
    requires WellFormed(r) && WellFormed(s) && RecordKey(r) == RecordKey(s)
    ensures r.targetType == s.targetType
  {
    RecordKeyStart(r);
    RecordKeyStart(s);
  }

  lemma RecordKeyStart(r: LoopRecord)
    requires WellFormed(r)
    ensures |RecordKey(r)| > 2
    ensures RecordKey(r)[0] == if r.targetType.IssueType? then 'i' else 'p'
    ensures RecordKey(r)[1] == if r.targetType.IssueType? then 's' else if r.targetType.ProjectType? then 'r' else 'u'
  {
  }

  /** The key a transaction checked is the key of the record it writes, or both are project targets. */
  predicate Keyed(r: LoopRecord, t: Target) {
    && WellFormed(r) && r.targetType == TypeOf(t)
    && (r.targetType.ProjectType? || RecordKey(r) == TargetKey(t))
  }

  /** A record that passed the check is apart from every other record. */
  lemma CheckedIsApart(loops: seq<LoopRecord>, k: nat, candidateId: string, r: LoopRecord, t: Target)
    requires k < |loops| && WellFormed(loops[k]) && loops[k].id != candidateId && Keyed(r, t)
    requires ConflictingActive(r.status) ==> !ActiveConflict(loops, candidateId, r.projectId, r.kind, t, r.status)
    ensures Apart(loops[k], r) && Apart(r, loops[k])
  {
    if RecordKey(loops[k]) == RecordKey(r) {
      KeysTellTypesApart(loops[k], r);
    }
  }

  lemma InsertKeepsInv(loops: seq<LoopRecord>, r: LoopRecord, t: Target, ok: bool)
    requires Inv(loops) && FreshId(loops, r.id) && Keyed(r, t)
    ensures Inv(InsertOf(loops, r, t, ok).loops)
  {
    if InsertOf(loops, r, t, ok).committed {
      forall k | 0 <= k < |loops|
        ensures Apart(loops[k], r)
      {
        CheckedIsApart(loops, k, "", r, t);
      }
    }
  }

  lemma UpdateKeepsInv(loops: seq<LoopRecord>, i: nat, status: LoopStatus)
    requires Inv(loops) && i < |loops|
    requires forall k :: 0 <= k < |loops| && k != i ==>
               Apart(loops[k], loops[i].(status := status)) && Apart(loops[i].(status := status), loops[k])
    ensures Inv(loops[i := loops[i].(status := status)])
  {
    hide WellFormed, Apart;
    var r := loops[i].(status := status);
    var after := loops[i := r];
    SameForm(loops[i], status);
    forall j, k | 0 <= j < k < |after|
      ensures Apart(after[j], after[k]) && after[j].id != after[k].id
    {
      assert Apart(loops[j], loops[k]) && loops[j].id != loops[k].id;
      assert j != i ==> Apart(loops[j], r) && Apart(r, loops[j]);
      assert k != i ==> Apart(loops[k], r) && Apart(r, loops[k]);
    }
  }

  lemma SameForm(r: LoopRecord, status: LoopStatus)
    ensures WellFormed(r.(status := status)) <==> WellFormed(r)
  {
  }

  /** Moving between conflicting-active statuses, or out of them, is always allowed. */
  lemma SettlingKeepsInv(loops: seq<LoopRecord>, i: nat, status: LoopStatus)
    requires Inv(loops) && i < |loops| && (ConflictingActive(status) ==> ConflictingActive(loops[i].status))
    ensures Inv(loops[i := loops[i].(status := status)])
  {
    forall k | 0 <= k < |loops| && k != i
      ensures Apart(loops[k], loops[i].(status := status)) && Apart(loops[i].(status := status), loops[k])
    {
      assert if k < i then Apart(loops[k], loops[i]) else Apart(loops[i], loops[k]);
    }
    UpdateKeepsInv(loops, i, status);
  }

  lemma NewRecordIsKeyed(id: string, projectId: string, kind: LoopType, t: Target, status: LoopStatus)
    requires TypeMatches(kind, t) && (t.Issue? ==> Int64(t.number))
    ensures Keyed(NewRecord(id, projectId, kind, t, status), t)
  {
    if t.Issue? {
      IssueRoundTrip(NewRecord(id, projectId, kind, t, status), t.repo, t.number);
    }
  }

  lemma CreateKeepsInv(loops: seq<LoopRecord>, id: string, projectId: string, kind: LoopType, asked: Target,
      status: LoopStatus, ok: bool)
    requires Inv(loops) && FreshId(loops, id)
    ensures Inv(CreateOf(loops, id, projectId, kind, asked, status, ok).loops)
  {
    var built := BuildTarget(asked);
    if built.Some? && TypeMatches(kind, built.value) {
      NewRecordIsKeyed(id, projectId, kind, built.value, CandidateStatus(kind, status));
      InsertKeepsInv(loops, NewRecord(id, projectId, kind, built.value, CandidateStatus(kind, status)), built.value, ok);
    }
  }

  lemma PlannerKeepsInv(loops: seq<LoopRecord>, id: string, projectId: string, repo: string, issue: int, ok: bool)
    requires Inv(loops) && FreshId(loops, id)
    ensures Inv(PlannerOf(loops, id, projectId, repo, issue, ok).loops)
  {
    if Int64(issue) {
      NewRecordIsKeyed(id, projectId, Planner, Issue(repo, issue), Running);
      InsertKeepsInv(loops, NewRecord(id, projectId, Planner, Issue(repo, issue), Running), Issue(repo, issue), ok);
    }
  }

  lemma WorkerRecordIsKeyed(id: string, q: WorkerRequest)
    requires Admissible(q)
    ensures Keyed(WorkerRecord(id, q), WorkerTarget(q))
  {
    var t := WorkerTarget(q);
    if t.Issue? {
      IssueRoundTrip(WorkerRecord(id, q), t.repo, t.number);
    }
  }

  lemma WorkerKeepsInv(loops: seq<LoopRecord>, id: string, q: WorkerRequest, ok: bool)
    requires Inv(loops) && FreshId(loops, id)
    ensures Inv(WorkerOf(loops, id, q, ok).loops)
  {
    if Admissible(q) {
      var reuse := if q.issue.Some? then ReuseFrom(loops, q, 0) else NoLoop;
      if reuse.Loop? {
        SettlingKeepsInv(loops, reuse.index, Queued);
      } else {
        WorkerRecordIsKeyed(id, q);
        InsertKeepsInv(loops, WorkerRecord(id, q), WorkerTarget(q), ok);
      }
    }
  }

  /** With well-formed records a reuse scan never trips over an unreadable one. */
  lemma {:induction false} ReuseIsNeverBroken(loops: seq<LoopRecord>, q: WorkerRequest, i: nat)
    requires Inv(loops) && q.issue.Some? && i <= |loops|
    ensures !ReuseFrom(loops, q, i).Broken?
    ensures ReuseFrom(loops, q, i).NoLoop? ==> forall k :: i <= k < |loops| ==> !ReusableFor(loops[k], q)
    decreases |loops| - i
  {
    hide WellFormed, RecordKey, TargetKey, TargetOfRecord, Apart;
    if i < |loops| {
      ParsedKey(loops[i]);
      ReuseIsNeverBroken(loops, q, i + 1);
    }
  }

  lemma RetriedIsKeyed(r: LoopRecord)
    requires WellFormed(r)
    ensures TargetOfRecord(r).Some? && Keyed(r.(status := Queued), TargetOfRecord(r).value)
  {
    SameForm(r, Queued);
    ParsedKey(r);
  }

  lemma RetryKeepsInv(loops: seq<LoopRecord>, i: nat, ok: bool)
    requires Inv(loops) && i < |loops|
    ensures Inv(RetryOf(loops, i, ok).loops)
  {
    hide RecordKey, TargetKey, TargetOfRecord, WellFormed, Keyed, Apart;
    if RetryOf(loops, i, ok).committed {
      var r := loops[i].(status := Queued);
      var t := TargetOfRecord(loops[i]).value;
      RetriedIsKeyed(loops[i]);
      forall k | 0 <= k < |loops| && k != i
        ensures Apart(loops[k], r) && Apart(r, loops[k])
      {
        assert loops[k].id != loops[i].id;
        CheckedIsApart(loops, k, r.id, r, t);
      }
      UpdateKeepsInv(loops, i, Queued);
    }
  }

  // ---------------------------------------------------------------------------
  // Start
  // ---------------------------------------------------------------------------

  /** Another live loop of the same kind on the same pull request, under a different spelling. */
  predicate Respelled(r: LoopRecord, c: LoopRecord) {
    && r.id != c.id && ConflictingActive(r.status) && r.projectId == c.projectId && r.kind == c.kind
    && r.targetType.PullRequestType? && c.targetType.PullRequestType?
    && r.repo.Some? && c.repo.Some? && r.prNumber.Some? && c.prNumber.Some? && r.prNumber == c.prNumber
    && r.repo != c.repo && FoldRepo(r.repo.value) == FoldRepo(c.repo.value)
  }

  /** Start keeps the invariant exactly when no live loop names the same pull request in another spelling. */
  lemma StartKeepsInvIff(loops: seq<LoopRecord>, i: nat)
    requires Inv(loops) && i < |loops| && StartOf(loops, i, true).committed
    ensures Inv(StartOf(loops, i, true).loops) <==> forall k :: 0 <= k < |loops| ==> !Respelled(loops[k], loops[i])
  {
    var r := loops[i].(status := Running);
    var after := loops[i := r];
    forall k | 0 <= k < |loops| && k != i
      ensures Apart(loops[k], r) && Apart(r, loops[k]) <==> !Respelled(loops[k], loops[i])
    {
      assert loops[k].id != loops[i].id;
      StartedIsApartIff(loops, i, k);
    }
    if forall k :: 0 <= k < |loops| ==> !Respelled(loops[k], loops[i]) {
      UpdateKeepsInv(loops, i, Running);
    } else {
      var k :| 0 <= k < |loops| && Respelled(loops[k], loops[i]);
      assert after[k] == loops[k] && after[i] == r;
      assert !Apart(after[k], after[i]) && !Apart(after[i], after[k]);
    }
  }

  lemma StartedIsApartIff(loops: seq<LoopRecord>, i: nat, k: nat)
    requires Inv(loops) && i < |loops| && k < |loops| && loops[k].id != loops[i].id && StartOf(loops, i, true).committed
    ensures var r := loops[i].(status := Running);
            (Apart(loops[k], r) <==> !Respelled(loops[k], loops[i])) && (Apart(r, loops[k]) <==> Apart(loops[k], r))
  {
    var c, o := loops[i], loops[k];
    ParsedKey(c);
    ParsedKey(o);
    var t, u := TargetOfRecord(c).value, TargetOfRecord(o).value;
    assert !RawClashes(o, c, t);
    KeyIffSameTarget(t, u);
    if RecordKey(o) == RecordKey(c) {
      KeysTellTypesApart(o, c);
    }
    if t.PullRequest? && u.PullRequest? {
      ColonInjective("pr:" + u.repo, u.number, "pr:" + t.repo, t.number);
      CutHead("pr:", u.repo, t.repo);
    }
  }

  // ---------------------------------------------------------------------------
  // Which transactions commit, and what they write
  // ---------------------------------------------------------------------------

  /** Another live loop of the project and type works on t; any number of workers may work on one project. */
  predicate Occupied(loops: seq<LoopRecord>, candidateId: string, projectId: string, kind: LoopType, t: Target) {
    exists k :: 0 <= k < |loops| && WorksOn(loops[k], projectId, kind, t) && loops[k].id != candidateId && !(kind.Worker? && t.Project?)
  }

  predicate WorksOn(r: LoopRecord, projectId: string, kind: LoopType, t: Target) {
    && ConflictingActive(r.status) && r.projectId == projectId && r.kind == kind
    && TargetOfRecord(r).Some? && SameTarget(TargetOfRecord(r).value, t)
  }

  lemma ClashIff(r: LoopRecord, candidateId: string, projectId: string, kind: LoopType, t: Target)
    requires WellFormed(r)
    ensures Clashes(r, candidateId, projectId, kind, t) <==>
              WorksOn(r, projectId, kind, t) && r.id != candidateId && !(kind.Worker? && t.Project?)
  {
    hide TargetOfRecord, RecordKey, TargetKey;
    ParsedKey(r);
    KeyIffSameTarget(TargetOfRecord(r).value, t);
    RecordKeyStart(r);
    KeyStart(t);
  }

  lemma ConflictIffOccupied(loops: seq<LoopRecord>, candidateId: string, projectId: string, kind: LoopType, t: Target,
      status: LoopStatus)
    requires Inv(loops)
    ensures ActiveConflict(loops, candidateId, projectId, kind, t, status) <==>
              ConflictingActive(status) && Occupied(loops, candidateId, projectId, kind, t)
  {
    forall k | 0 <= k < |loops|
      ensures Clashes(loops[k], candidateId, projectId, kind, t) <==>
                WorksOn(loops[k], projectId, kind, t) && loops[k].id != candidateId && !(kind.Worker? && t.Project?)
    {
      ClashIff(loops[k], candidateId, projectId, kind, t);
    }
    hide Clashes, WorksOn;
  }

  /** The asked target names a project, or a repository and a positive number, and its kind fits the loop's. */
  predicate CanBeAsked(kind: LoopType, t: Target) {
    match t
    case Project(p) => kind.Worker? && NormalizeProjectTargetID(p) != ""
    case Issue(repo, n) => (kind.Worker? || kind.Planner?) && TrimSpace(repo) != "" && 0 < n < INT64_LIMIT
    case PullRequest(repo, n) => !kind.Planner? && TrimSpace(repo) != "" && 0 < n < INT64_LIMIT
  }

  function Trimmed(t: Target): Target {
    match t
    case Project(p) => Project(NormalizeProjectTargetID(p))
    case Issue(repo, n) => Issue(TrimSpace(repo), n)
    case PullRequest(repo, n) => PullRequest(TrimSpace(repo), n)
  }

  /** The record is a loop on t: its type and its key are t's, and unless it is a project's it reads back as t. */
  predicate IsLoopOn(r: LoopRecord, id: string, projectId: string, kind: LoopType, t: Target, status: LoopStatus) {
    && r.id == id && r.projectId == projectId && r.kind == kind && r.status == status
    && r.targetType == TypeOf(t) && (t.Project? ==> r.targetId == Some(TargetKey(t)))
    && (!t.Project? ==> TargetOfRecord(r) == Some(t))
  }

  /**
   A create commits exactly when storage does, the target can be asked for, and no live loop
   of the project and type works on it already; it then appends just that loop.
   */
  lemma CreateCommitsIff(loops: seq<LoopRecord>, id: string, projectId: string, kind: LoopType, asked: Target,
      status: LoopStatus, ok: bool)
    requires Inv(loops)
    ensures var tx := CreateOf(loops, id, projectId, kind, asked, status, ok);
            var first := if status.Running? && !kind.Planner? then Queued else status;
            && (tx.committed <==> ok && CanBeAsked(kind, asked)
                                  && (ConflictingActive(first) ==> !Occupied(loops, "", projectId, kind, Trimmed(asked))))
            && (!tx.committed ==> tx.loops == loops)
            && (tx.committed ==> |tx.loops| == |loops| + 1 && tx.loops[..|loops|] == loops
                                 && IsLoopOn(tx.loops[|loops|], id, projectId, kind, Trimmed(asked), first))
  {
    hide NormalizeProjectTargetID, TrimSpace, Occupied, ActiveConflict, TargetOfRecord;
    var first := if status.Running? && !kind.Planner? then Queued else status;
    ConflictIffOccupied(loops, "", projectId, kind, Trimmed(asked), first);
    if CanBeAsked(kind, asked) {
      NewRecordReadsBack(id, projectId, kind, Trimmed(asked), first);
    }
  }

  lemma NewRecordReadsBack(id: string, projectId: string, kind: LoopType, t: Target, status: LoopStatus)
    requires t.Issue? ==> Int64(t.number)
    ensures IsLoopOn(NewRecord(id, projectId, kind, t, status), id, projectId, kind, t, status)
  {
    if t.Issue? {
      IssueRoundTrip(NewRecord(id, projectId, kind, t, status), t.repo, t.number);
    }
  }

  /** The same for a planner on an issue, which starts running. */
  lemma PlannerCommitsIff(loops: seq<LoopRecord>, id: string, projectId: string, repo: string, issue: int, ok: bool)
    requires Inv(loops)
    ensures var tx := PlannerOf(loops, id, projectId, repo, issue, ok);
            && (tx.committed <==> ok && Int64(issue) && !Occupied(loops, "", projectId, Planner, Issue(repo, issue)))
            && (!tx.committed ==> tx.loops == loops)
            && (tx.committed ==> |tx.loops| == |loops| + 1 && tx.loops[..|loops|] == loops
                                 && IsLoopOn(tx.loops[|loops|], id, projectId, Planner, Issue(repo, issue), Running))
  {
    hide Occupied, ActiveConflict, TargetOfRecord;
    ConflictIffOccupied(loops, "", projectId, Planner, Issue(repo, issue), Running);
    if Int64(issue) {
      NewRecordReadsBack(id, projectId, Planner, Issue(repo, issue), Running);
    }
  }

  /** What a worker request asks for: its pull request, else the one planned for its issue, else its issue, else the project. */
  predicate AsksFor(q: WorkerRequest, t: Target) {
    match t
    case PullRequest(repo, n) => repo == q.repo && (q.pr == Some(n) || (q.pr.None? && q.issue.Some? && q.planned == Some(n)))
    case Issue(repo, n) => repo == q.repo && q.pr.None? && q.issue == Some(n) && q.planned.None?
    case Project(p) => p == q.projectId && q.pr.None? && q.issue.None?
  }

  /** A live worker of the project on the requested issue or on what the request asks for. */
  predicate Serves(r: LoopRecord, q: WorkerRequest, t: Target) {
    q.issue.Some? && (WorksOn(r, q.projectId, Worker, Issue(q.repo, q.issue.value)) || WorksOn(r, q.projectId, Worker, t))
  }

  predicate SomeServes(loops: seq<LoopRecord>, q: WorkerRequest, t: Target) {
    exists k :: 0 <= k < |loops| && Serves(loops[k], q, t)
  }

  lemma ServesIff(r: LoopRecord, q: WorkerRequest)
    requires WellFormed(r) && q.issue.Some?
    ensures ReusableFor(r, q) <==> Serves(r, q, WorkerTarget(q))
  {
    hide TargetOfRecord, RecordKey, TargetKey;
    ParsedKey(r);
    KeyIffSameTarget(TargetOfRecord(r).value, Issue(q.repo, q.issue.value));
    KeyIffSameTarget(TargetOfRecord(r).value, WorkerTarget(q));
    RecordKeyStart(r);
    KeyStart(Issue(q.repo, q.issue.value));
    KeyStart(WorkerTarget(q));
  }

  /**
   A worker request that no live worker serves commits exactly when storage does, it is
   admissible, and nobody works on what it asks for; it then appends just that queued worker.
   */
  lemma NewWorkerCommitsIff(loops: seq<LoopRecord>, id: string, q: WorkerRequest, ok: bool, t: Target)
    requires Inv(loops) && AsksFor(q, t) && Admissible(q) && !SomeServes(loops, q, t)
    ensures var tx := WorkerOf(loops, id, q, ok);
            && (tx.committed <==> ok && !Occupied(loops, "", q.projectId, Worker, t))
            && (!tx.committed ==> tx.loops == loops)
            && (tx.committed ==>
                  && |tx.loops| == |loops| + 1 && tx.loops[..|loops|] == loops
                  && var r := tx.loops[|loops|];
                     && r.id == id && r.projectId == q.projectId && r.kind == Worker && r.status == Queued
                     && r.targetType == TypeOf(t) && (t.Project? ==> r.targetId == Some("project:" + q.projectId))
                     && (!t.Project? ==> TargetOfRecord(r) == Some(t)))
  {
    hide Occupied, ActiveConflict, TargetOfRecord, ReusableFor;
    assert t == WorkerTarget(q);
    if q.issue.Some? {
      ReuseIsNeverBroken(loops, q, 0);
      NothingReusable(loops, q);
    }
    ConflictIffOccupied(loops, "", q.projectId, Worker, t, Queued);
    WorkerRecordReadsBack(id, q);
  }

  lemma NothingReusable(loops: seq<LoopRecord>, q: WorkerRequest)
    requires Inv(loops) && q.issue.Some?
    ensures ReuseFrom(loops, q, 0).Loop? <==> SomeServes(loops, q, WorkerTarget(q))
    ensures var r := ReuseFrom(loops, q, 0);
            r.Loop? ==> Serves(loops[r.index], q, WorkerTarget(q)) && forall k :: 0 <= k < r.index ==> !Serves(loops[k], q, WorkerTarget(q))
  {
    hide ReusableFor, Serves;
    ReuseIsNeverBroken(loops, q, 0);
    forall k | 0 <= k < |loops|
      ensures ReusableFor(loops[k], q) <==> Serves(loops[k], q, WorkerTarget(q))
    {
      ServesIff(loops[k], q);
    }
    ReuseIsFirst(loops, q, 0);
  }

  lemma {:induction false} ReuseIsFirst(loops: seq<LoopRecord>, q: WorkerRequest, i: nat)
    requires q.issue.Some? && i <= |loops|
    ensures var r := ReuseFrom(loops, q, i); r.Loop? ==> forall k :: i <= k < r.index ==> !ReusableFor(loops[k], q)
    decreases |loops| - i
  {
    hide ReusableFor, Unreadable;
    if i < |loops| {
      ReuseIsFirst(loops, q, i + 1);
    }
  }

  lemma WorkerRecordReadsBack(id: string, q: WorkerRequest)
    requires Admissible(q)
    ensures var t := WorkerTarget(q); !t.Project? ==> TargetOfRecord(WorkerRecord(id, q)) == Some(t)
  {
    var t := WorkerTarget(q);
    if t.Issue? {
      IssueRoundTrip(WorkerRecord(id, q), t.repo, t.number);
    }
  }

  /**
   A worker request that live workers serve takes the first of them: it commits exactly when
   storage does and it does not force a running one, and only queues it if it was idle or paused.
   */
  lemma ReuseCommitsIff(loops: seq<LoopRecord>, id: string, q: WorkerRequest, ok: bool, t: Target, i: nat)
    requires Inv(loops) && AsksFor(q, t) && Admissible(q)
    requires i < |loops| && Serves(loops[i], q, t) && forall k :: 0 <= k < i ==> !Serves(loops[k], q, t)
    ensures var tx := WorkerOf(loops, id, q, ok);
            && (tx.committed <==> ok && !(q.force && loops[i].status.Running?))
            && tx.loops == if tx.committed && (loops[i].status.Idle? || loops[i].status.Paused?)
                           then loops[i := loops[i].(status := Queued)] else loops
  {
    hide Serves, ReusableFor;
    assert t == WorkerTarget(q);
    assert q.issue.Some? by {
      assert Serves(loops[i], q, t);
      ServedHasIssue(loops[i], q, t);
    }
    NothingReusable(loops, q);
    var r := ReuseFrom(loops, q, 0);
    assert r.index == i;
  }

  lemma ServedHasIssue(r: LoopRecord, q: WorkerRequest, t: Target)
    requires Serves(r, q, t)
    ensures q.issue.Some?
  {
  }

  /** A request that is not admissible never commits. */
  lemma InadmissibleNeverCommits(loops: seq<LoopRecord>, id: string, q: WorkerRequest, ok: bool)
    ensures q.pr.Some? && q.issue.Some? ==> WorkerOf(loops, id, q, ok) == Tx(false, loops)
  {
  }

  /**
   A retry commits exactly when storage does, the loop was not stopped, terminated or
   completed, and no other live loop works on its target; it then only queues the loop.
   */
  lemma RetryCommitsIff(loops: seq<LoopRecord>, i: nat, ok: bool)
    requires Inv(loops) && i < |loops|
    ensures var tx, r := RetryOf(loops, i, ok), loops[i];
            && TargetOfRecord(r).Some?
            && (tx.committed <==> ok && r.status !in {Stopped, Terminated, Completed}
                                  && !Occupied(loops, r.id, r.projectId, r.kind, TargetOfRecord(r).value))
            && tx.loops == if tx.committed then loops[i := r.(status := Queued)] else loops
  {
    hide Occupied, ActiveConflict, TargetOfRecord;
    var r := loops[i];
    ParsedKey(r);
    ConflictIffOccupied(loops, r.id, r.projectId, r.kind, TargetOfRecord(r).value, Queued);
  }

  /** Another live loop of the project and type has exactly this target, spelled the same way. */
  predicate SpelledTheSame(r: LoopRecord, c: LoopRecord) {
    && r.id != c.id && ConflictingActive(r.status) && r.projectId == c.projectId && r.kind == c.kind
    && TargetOfRecord(r) == TargetOfRecord(c) && !(c.kind.Worker? && c.targetType.ProjectType?)
  }

  /** A start commits exactly when storage does and no other live loop has its target in the same spelling; it then runs the loop. */
  lemma StartCommitsIff(loops: seq<LoopRecord>, i: nat, ok: bool)
    requires Inv(loops) && i < |loops|
    ensures var tx, r := StartOf(loops, i, ok), loops[i];
            && (tx.committed <==> ok && !exists k :: 0 <= k < |loops| && SpelledTheSame(loops[k], r))
            && tx.loops == if tx.committed then loops[i := r.(status := Running)] else loops
  {
    hide TargetOfRecord, RawKey;
    var r := loops[i];
    ParsedKey(r);
    var t := TargetOfRecord(r).value;
    forall k | 0 <= k < |loops|
      ensures RawClashes(loops[k], r, t) <==> SpelledTheSame(loops[k], r)
    {
      ParsedKey(loops[k]);
      RawKeyTellsTargets(TargetOfRecord(loops[k]).value, t);
    }
    hide RawClashes, SpelledTheSame;
  }

  lemma RawKeyTellsTargets(t: Target, u: Target)
    ensures RawKey(t) == RawKey(u) <==> t == u
  {
    hide Decimal;
    match (t, u)
    case (Project(p), Project(q)) =>
      CutHead("project:", p, q);
    case (Issue(r, m), Issue(s, n)) =>
      ColonInjective("issue:" + r, m, "issue:" + s, n);
      CutHead("issue:", r, s);
    case (PullRequest(r, m), PullRequest(s, n)) =>
      ColonInjective("pr:" + r, m, "pr:" + s, n);
      CutHead("pr:", r, s);
    case _ =>
      RawKeyStart(t);
      RawKeyStart(u);
  }

  lemma RawKeyStart(t: Target)
    ensures |RawKey(t)| > 2
    ensures RawKey(t)[0] == if t.Issue? then 'i' else 'p'
    ensures RawKey(t)[1] == if t.Issue? then 's' else 'r'
    ensures t.Project? <==> RawKey(t)[2] == 'o'
  {
  }

  // ---------------------------------------------------------------------------
  // Histories
  // ---------------------------------------------------------------------------

  datatype Event =
    | Create(id: string, projectId: string, kind: LoopType, asked: Target, status: LoopStatus, ok: bool)
    | Plan(id: string, projectId: string, repo: string, issue: int, ok: bool)
    | Work(id: string, request: WorkerRequest, ok: bool)
    | RetryLoop(index: nat, ok: bool)
    | StartLoop(index: nat, ok: bool)
    | Settle(index: nat, status: LoopStatus)

  /** Ids are new, and no status change outside these transactions makes a loop conflicting-active. */
  predicate Enabled(loops: seq<LoopRecord>, e: Event) {
    match e
    case RetryLoop(i, _) => i < |loops|
    case StartLoop(i, _) => i < |loops|
    case Settle(i, status) => i < |loops| && (ConflictingActive(status) ==> ConflictingActive(loops[i].status))
    case _ => FreshId(loops, e.id)
  }

  function Apply(loops: seq<LoopRecord>, e: Event): seq<LoopRecord>
    requires Enabled(loops, e)
  {
    match e
    case Create(id, projectId, kind, asked, status, ok) => CreateOf(loops, id, projectId, kind, asked, status, ok).loops
    case Plan(id, projectId, repo, issue, ok) => PlannerOf(loops, id, projectId, repo, issue, ok).loops
    case Work(id, request, ok) => WorkerOf(loops, id, request, ok).loops
    case RetryLoop(i, ok) => RetryOf(loops, i, ok).loops
    case StartLoop(i, ok) => StartOf(loops, i, ok).loops
    case Settle(i, status) => loops[i := loops[i].(status := status)]
  }

  predicate Feasible(loops: seq<LoopRecord>, run: seq<Event>)
    decreases |run|
  {
    run == [] || (Enabled(loops, run[0]) && Feasible(Apply(loops, run[0]), run[1..]))
  }

  function Exec(loops: seq<LoopRecord>, run: seq<Event>): seq<LoopRecord>
    requires Feasible(loops, run)
    decreases |run|
  {
    if run == [] then loops else Exec(Apply(loops, run[0]), run[1..])
  }

  /** A start that commits although a live loop names the same pull request in another spelling. */
  predicate Duplicates(loops: seq<LoopRecord>, e: Event) {
    && e.StartLoop? && e.index < |loops| && StartOf(loops, e.index, e.ok).committed
    && exists k :: 0 <= k < |loops| && Respelled(loops[k], loops[e.index])
  }

  /** Every transaction keeps the invariant, except that a start does so exactly when it does not duplicate. */
  lemma StepKeepsInvIff(loops: seq<LoopRecord>, e: Event)
    requires Inv(loops) && Enabled(loops, e)
    ensures Inv(Apply(loops, e)) <==> !Duplicates(loops, e)
  {
    hide Inv, Respelled;
    match e
    case Create(id, projectId, kind, asked, status, ok) => CreateKeepsInv(loops, id, projectId, kind, asked, status, ok);
    case Plan(id, projectId, repo, issue, ok) => PlannerKeepsInv(loops, id, projectId, repo, issue, ok);
    case Work(id, request, ok) => WorkerKeepsInv(loops, id, request, ok);
    case RetryLoop(i, ok) => RetryKeepsInv(loops, i, ok);
    case StartLoop(i, ok) =>
      if StartOf(loops, i, ok).committed {
        StartKeepsInvIff(loops, i);
      }
    case Settle(i, status) => SettlingKeepsInv(loops, i, status);
  }

  /** In no state of the history do two conflicting-active loops share project, type and target. */
  predicate StaysUnique(loops: seq<LoopRecord>, run: seq<Event>)
    requires Feasible(loops, run)
    decreases |run|
  {
    Inv(loops) && (run == [] || StaysUnique(Apply(loops, run[0]), run[1..]))
  }

  predicate NoDuplication(loops: seq<LoopRecord>, run: seq<Event>)
    requires Feasible(loops, run)
    decreases |run|
  {
    run == [] || (!Duplicates(loops, run[0]) && NoDuplication(Apply(loops, run[0]), run[1..]))
  }

  /**
   Over every history of these transactions, two conflicting-active loops of one project,
   type and target are project workers, all along, exactly when no start in it duplicates.
   */
  lemma {:induction false} UniqueOverEveryHistory(loops: seq<LoopRecord>, run: seq<Event>)
    requires Inv(loops) && Feasible(loops, run)
    ensures StaysUnique(loops, run) <==> NoDuplication(loops, run)
    ensures NoDuplication(loops, run) ==> Inv(Exec(loops, run))
    decreases |run|
  {
    hide Inv, Apply, Enabled, Duplicates;
    if run != [] {
      StepKeepsInvIff(loops, run[0]);
      if Inv(Apply(loops, run[0])) {
        UniqueOverEveryHistory(Apply(loops, run[0]), run[1..]);
      }
    }
  }

  // ---------------------------------------------------------------------------
  // The gap is real
  // ---------------------------------------------------------------------------

  /** Two spellings of one pull request: start makes a second fixer live. */
  lemma StartCanDuplicateAFixer()
    ensures exists loops: seq<LoopRecord>, i :: Inv(loops) && 0 <= i < |loops| && StartOf(loops, i, true).committed
                                                && !Unique(StartOf(loops, i, true).loops)
  {
    var loops := TwoSpellings();
    var a, b := loops[0], loops[1];
    var after := StartOf(loops, 1, true).loops;
    assert after[0] == a && after[1] == b.(status := Running);
    assert !Apart(after[0], after[1]);
  }

  lemma TwoSpellings() returns (loops: seq<LoopRecord>)
    ensures |loops| == 2 && Inv(loops) && StartOf(loops, 1, true).committed
    ensures Respelled(loops[0], loops[1]) && ConflictingActive(loops[0].status) && loops[1].kind.Fixer?
    ensures RecordKey(loops[0]) == RecordKey(loops[1])
  {
    hide TrimSpace, Lower, Decimal;
    var lower, upper := "acme/app", "Acme/app";
    FoldsTogether();
    var a := NewRecord("a", "p", Fixer, PullRequest(lower, 7), Queued);
    var b := NewRecord("b", "p", Fixer, PullRequest(upper, 7), Failed);
    loops := [a, b];
    ColonInjective("pr:" + lower, 7, "pr:" + upper, 7);
    CutHead("pr:", lower, upper);
    assert lower != upper by {
      assert lower[0] != upper[0];
    }
    assert !RawClashes(a, b, PullRequest(upper, 7)) && !RawClashes(b, b, PullRequest(upper, 7));
  }

  lemma FoldsTogether()
    ensures FoldRepo("acme/app") == FoldRepo("Acme/app")
  {
    assert TrimSpace("acme/app") == "acme/app" && TrimSpace("Acme/app") == "Acme/app";
  }
}
