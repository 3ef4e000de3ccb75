/**
 Loop targets, their keys and their stored form (internal/api/handler.go, the target-key
 functions; internal/loops/requeue_guard.go, PullRequestTargetKey; internal/domain/domain.go,
 LoopTargetKey).  Letters fold and spaces trim as in ASCII.
 */
module Targets {
  import opened LoopStatuses
  import opened Texts
  import opened Wrappers

  datatype LoopType = Planner | Reviewer | Worker | Fixer

  datatype Target = Project(projectId: string) | Issue(repo: string, number: int) | PullRequest(repo: string,
      number: int)

  datatype TargetType = ProjectType | IssueType | PullRequestType

  datatype LoopRecord = LoopRecord(
    id: string,
    projectId: string,
    kind: LoopType,
    targetType: TargetType,
    targetId: Option<string>,
    repo: Option<string>,
    prNumber: Option<int>,
    status: LoopStatus)

  // ---------------------------------------------------------------------------
  // Project ids
  // ---------------------------------------------------------------------------

  const PROJECT_PREFIX := "project:"

  function StripProject(s: string): string {
    if PROJECT_PREFIX <= s then StripProject(s[|PROJECT_PREFIX|..]) else s
  }

  function NormalizeProjectTargetID(targetId: string): string {
    StripProject(TrimSpace(targetId))
  }

  /** The loop of normalizeProjectTargetID. */
  method NormalizeProject(targetId: string) returns (normalized: string)
    ensures normalized == NormalizeProjectTargetID(targetId)
    ensures !(PROJECT_PREFIX <= normalized)
  {
    normalized := TrimSpace(targetId);
    while PROJECT_PREFIX <= normalized
      invariant StripProject(normalized) == NormalizeProjectTargetID(targetId)
      decreases |normalized|
    {
      normalized := normalized[|PROJECT_PREFIX|..];
    }
  }

  function Prefixes(n: nat): string {
    if n == 0 then "" else PROJECT_PREFIX + Prefixes(n - 1)
  }

  lemma TakeOff(prefix: string, s: string, more: string, rest: string)
    requires prefix <= s && s[|prefix|..] == more + rest
    ensures s == prefix + more + rest
  {
    assert s == prefix + s[|prefix|..];
    assert prefix + (more + rest) == prefix + more + rest;
  }

  /** Normalizing takes off the blanks around the id and then its prefixes, and nothing else. */
  lemma {:induction false} StrippedIs(s: string) returns (n: nat)
    ensures s == Prefixes(n) + StripProject(s)
    decreases |s|
  {
    if PROJECT_PREFIX <= s {
      var tail := s[|PROJECT_PREFIX|..];
      var rest := StrippedIs(tail);
      n := rest + 1;
      TakeOff(PROJECT_PREFIX, s, Prefixes(rest), StripProject(tail));
    } else {
      n := 0;
      assert "" + s == s;
    }
  }

  // ---------------------------------------------------------------------------
  // Decimal numbers
  // ---------------------------------------------------------------------------

  const INT64_LIMIT: int := 0x8000_0000_0000_0000

  predicate Int64(n: int) {
    -INT64_LIMIT <= n < INT64_LIMIT
  }

  predicate IsDigit(c: char) {
    '0' <= c <= '9'
  }

  function Digits(n: nat): (s: string)
    ensures s != "" && forall i :: 0 <= i < |s| ==> IsDigit(s[i])
  {
    if n < 10 then [n as char + '0'] else Digits(n / 10) + [(n % 10) as char + '0']
  }

  /** What %d prints. */
  function Decimal(n: int): (s: string)
    ensures s != "" && ':' !in s
  {
    if n < 0 then "-" + Digits(-n) else Digits(n)
  }

  function DigitValue(c: char): nat {
    if IsDigit(c) then (c - '0') as nat else 0
  }

  function Value(s: string): nat {
    if s == "" then 0 else Value(s[..|s| - 1]) * 10 + DigitValue(s[|s| - 1])
  }

  function LeadingDigits(s: string): (n: nat)
    ensures n <= |s| && forall i :: 0 <= i < n ==> IsDigit(s[i])
    ensures n < |s| ==> !IsDigit(s[n])
  {
    if s != "" && IsDigit(s[0]) then 1 + LeadingDigits(s[1..]) else 0
  }

  /** What scanning with %d reads: blanks, a sign, digits; the rest is ignored. */
  function ScanDecimal(s: string): Option<int> {
    var t := TrimLeft(s);
    if t != "" && t[0] == '-' then ScanDigits(t[1..], true)
    else if t != "" && t[0] == '+' then ScanDigits(t[1..], false)
    else ScanDigits(t, false)
  }

  function ScanDigits(u: string, negative: bool): Option<int> {
    var n := LeadingDigits(u);
    var value: int := Value(u[..n]) * if negative then -1 else 1;
    if n == 0 || !Int64(value) then None else Some(value)
  }

  lemma {:induction false} ValueOfDigits(n: nat)
    ensures Value(Digits(n)) == n
  {
    var s := Digits(n);
    if n < 10 {
      assert s[..0] == "";
    } else {
      ValueOfDigits(n / 10);
      assert s[..|s| - 1] == Digits(n / 10);
    }
  }

  lemma ScanOfDigits(n: nat, negative: bool)
    requires Int64(n * if negative then -1 else 1)
    ensures ScanDigits(Digits(n), negative) == Some(n * if negative then -1 else 1)
  {
    var s := Digits(n);
    ValueOfDigits(n);
    assert LeadingDigits(s) == |s| && s[..|s|] == s;
  }

  lemma DecimalStart(n: int)
    ensures Decimal(n)[0] == '-' <==> n < 0
    ensures TrimLeft(Decimal(n)) == Decimal(n) && Decimal(n)[0] != '+'
    ensures n < 0 ==> Decimal(n)[1..] == Digits(-n)
  {
    assert n >= 0 ==> IsDigit(Digits(n)[0]);
  }

  /** Printing and scanning a 64-bit number undo each other. */
  lemma ScanOfDecimal(n: int)
    requires Int64(n)
    ensures ScanDecimal(Decimal(n)) == Some(n)
  {
    hide Digits, ScanDigits;
    DecimalStart(n);
    if n < 0 {
      ScanOfDigits(-n, true);
    } else {
      ScanOfDigits(n, false);
    }
  }

  lemma DecimalInjective(m: int, n: int)
    requires Decimal(m) == Decimal(n)
    ensures m == n
  {
    DecimalStart(m);
    DecimalStart(n);
    ValueOfDigits(if m < 0 then -m else m);
    ValueOfDigits(if n < 0 then -n else n);
  }

  // ---------------------------------------------------------------------------
  // Keys
  // ---------------------------------------------------------------------------

  function FoldRepo(repo: string): string {
    Lower(TrimSpace(repo))
  }

  function PullRequestTargetKey(repo: string, number: int): string {
    "pull_request:" + FoldRepo(repo) + ":" + Decimal(number)
  }

  function IssueTargetID(repo: string, number: int): string {
    "issue:" + repo + ":" + Decimal(number)
  }

  /** loopTargetKeyCompat. */
  function TargetKey(t: Target): string {
    match t
    case Project(p) => "project:" + NormalizeProjectTargetID(p)
    case Issue(repo, n) => IssueTargetID(repo, n)
    case PullRequest(repo, n) => PullRequestTargetKey(repo, n)
  }

  /** loopTargetKeyFromRecordCompat. */
  function RecordKey(r: LoopRecord): string {
    match r.targetType
    case ProjectType => if r.targetId.None? then "project:" else "project:" + NormalizeProjectTargetID(r.targetId.value)
    case IssueType => if r.targetId.None? then "issue:" else r.targetId.value
    case PullRequestType =>
      if r.repo.None? || r.prNumber.None? then "pull_request:" else PullRequestTargetKey(r.repo.value, r.prNumber.value)
  }

  /** Where the last ':' is, or -1. */
  function LastColon(s: string): (i: int)
    ensures -1 <= i < |s|
    ensures i >= 0 ==> s[i] == ':'
    ensures forall j :: i < j < |s| ==> s[j] != ':'
  {
    if s == "" then -1
    else if s[|s| - 1] == ':' then |s| - 1
    else LastColon(s[..|s| - 1])
  }

  /** loopTargetFromRecordCompat. */
  function TargetOfRecord(r: LoopRecord): Option<Target> {
    match r.targetType
    case ProjectType => if r.targetId.None? then None else Some(Project(NormalizeProjectTargetID(r.targetId.value)))
    case IssueType =>
      if r.repo.None? || r.targetId.None? then None
      else
        var i := LastColon(r.targetId.value);
        if i < 0 || i + 1 >= |r.targetId.value| then None
        else
          var n := ScanDecimal(r.targetId.value[i + 1..]);
          if n.None? then None else Some(Issue(r.repo.value, n.value))
    case PullRequestType =>
      if r.repo.None? || r.prNumber.None? then None else Some(PullRequest(r.repo.value, r.prNumber.value))
  }

  function TypeOf(t: Target): TargetType {
    match t
    case Project(_) => ProjectType
    case Issue(_, _) => IssueType
    case PullRequest(_, _) => PullRequestType
  }

  lemma AroundColon(head: string, tail: string)
    ensures var s := head + ":" + tail;
            |s| == |head| + 1 + |tail| && s[|head|] == ':' && s[|head| + 1..] == tail && s[..|head|] == head
  {
    var front := head + ":";
    assert |front| == |head| + 1 && front[|head|] == ':';
  }

  /** A head, a last colon and a tail without colons determine each other. */
  lemma LastColonSplits(head: string, tail: string)
    requires ':' !in tail
    ensures var s := head + ":" + tail;
            LastColon(s) == |head| && s[|head| + 1..] == tail && s[..|head|] == head
  {
    hide LastColon;
    AroundColon(head, tail);
    LastColonIs(head + ":" + tail, |head|);
  }

  lemma TailIndex(s: string, i: nat, j: nat)
    requires i <= j < |s|
    ensures s[j] in s[i..]
  {
    assert s[i..][j - i] == s[j];
  }

  lemma LastColonIs(s: string, i: nat)
    requires i < |s| && s[i] == ':' && ':' !in s[i + 1..]
    ensures LastColon(s) == i
  {
    forall j | i < j < |s|
      ensures s[j] != ':'
    {
      TailIndex(s, i + 1, j);
    }
  }

  lemma ColonInjective(a: string, m: int, b: string, n: int)
    ensures a + ":" + Decimal(m) == b + ":" + Decimal(n) <==> a == b && m == n
  {
    if a + ":" + Decimal(m) == b + ":" + Decimal(n) {
      LastColonSplits(a, Decimal(m));
      LastColonSplits(b, Decimal(n));
      DecimalInjective(m, n);
    }
  }

  /** The target a key stands for: the same kind, project, repository and number, up to the folds each kind allows. */
  predicate SameTarget(t: Target, u: Target) {
    match (t, u)
    case (Project(p), Project(q)) => NormalizeProjectTargetID(p) == NormalizeProjectTargetID(q)
    case (Issue(r, m), Issue(s, n)) => r == s && m == n
    case (PullRequest(r, m), PullRequest(s, n)) => FoldRepo(r) == FoldRepo(s) && m == n
    case _ => false
  }

  lemma CutHead(head: string, a: string, b: string)
    ensures head + a == head + b <==> a == b
  {
    assert (head + a)[|head|..] == a && (head + b)[|head|..] == b;
  }

  /** Keys are equal exactly for the same target. */
  lemma KeyIffSameTarget(t: Target, u: Target)
    ensures TargetKey(t) == TargetKey(u) <==> SameTarget(t, u)
  {
    hide NormalizeProjectTargetID, FoldRepo, Decimal;
    match (t, u)
    case (Project(p), Project(q)) =>
      CutHead("project:", NormalizeProjectTargetID(p), NormalizeProjectTargetID(q));
    case (Issue(r, m), Issue(s, n)) =>
      ColonInjective("issue:" + r, m, "issue:" + s, n);
      CutHead("issue:", r, s);
    case (PullRequest(r, m), PullRequest(s, n)) =>
      ColonInjective("pull_request:" + FoldRepo(r), m, "pull_request:" + FoldRepo(s), n);
      CutHead("pull_request:", FoldRepo(r), FoldRepo(s));
    case _ =>
      KeyStart(t);
      KeyStart(u);
  }

  lemma KeyStart(t: Target)
    ensures |TargetKey(t)| > 2
    ensures TargetKey(t)[0] == if t.Issue? then 'i' else 'p'
    ensures TargetKey(t)[1] == if t.Issue? then 's' else if t.Project? then 'r' else 'u'
  {
  }

  // ---------------------------------------------------------------------------
  // Records
  // ---------------------------------------------------------------------------

  /** The records the create and retry paths write. */
  predicate WellFormed(r: LoopRecord) {
    match r.targetType
    case ProjectType => r.targetId.Some? && r.kind.Worker?
    case IssueType =>
      && r.repo.Some? && r.targetId.Some? && TargetOfRecord(r).Some?
      && r.targetId.value == IssueTargetID(r.repo.value, TargetOfRecord(r).value.number)
    case PullRequestType => r.repo.Some? && r.prNumber.Some?
  }

  /** An issue record built from a target gives that target back. */
  lemma IssueRoundTrip(r: LoopRecord, repo: string, n: int)
    requires Int64(n) && r.targetType.IssueType? && r.repo == Some(repo) && r.targetId == Some(IssueTargetID(repo, n))
    ensures TargetOfRecord(r) == Some(Issue(repo, n)) && WellFormed(r)
  {
    hide LastColon, ScanDecimal, Decimal;
    LastColonSplits("issue:" + repo, Decimal(n));
    ScanOfDecimal(n);
  }

  /** A well-formed record parses, and unless it is a project record it has its target's key. */
  lemma ParsedKey(r: LoopRecord)
    requires WellFormed(r)
    ensures TargetOfRecord(r).Some? && TypeOf(TargetOfRecord(r).value) == r.targetType
    ensures !r.targetType.ProjectType? ==> RecordKey(r) == TargetKey(TargetOfRecord(r).value)
  {
  }
}
