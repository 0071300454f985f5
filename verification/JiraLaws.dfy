/** What a Jira run does, said of its input, of the wire and of the tenant. */
module JiraLaws {
  import opened Prelude
  import opened Ordering
  import opened JiraWrite

  // ---- Approval ------------------------------------------------------------------------------

  /** `snapshots[i]` is the last one of the test case. */
  predicate IsLastSnapshot(snapshots: seq<Snapshot>, testCase: string, i: int) {
    && 0 <= i < |snapshots| && snapshots[i].testCaseId == testCase
    && forall j :: i < j < |snapshots| ==> snapshots[j].testCaseId != testCase
  }

  /** The last snapshot of the test case is not blocked, and approved or already passed on. */
  predicate ApprovedAt(snapshots: seq<Snapshot>, testCase: string, i: int) {
    && IsLastSnapshot(snapshots, testCase, i) && !snapshots[i].blocked
    && (snapshots[i].state == Approved || snapshots[i].state == Exported || snapshots[i].state == Transferred)
  }

  ghost predicate Reviewed(x: RunInput, testCase: string) {
    testCase in x.cases && exists i :: ApprovedAt(x.snapshots, testCase, i)
  }

  lemma {:induction false} LastSnapshotCounts(snapshots: seq<Snapshot>, testCase: string)
    ensures forall i :: IsLastSnapshot(snapshots, testCase, i) ==> SnapshotOf(snapshots, testCase) == Some(snapshots[i])
    ensures SnapshotOf(snapshots, testCase).Some? ==> exists i :: IsLastSnapshot(snapshots, testCase, i)
  {
    if snapshots != [] {
      var init, last := snapshots[..|snapshots| - 1], |snapshots| - 1;
      LastSnapshotCounts(init, testCase);
      if snapshots[last].testCaseId == testCase {
        assert IsLastSnapshot(snapshots, testCase, last);
      } else {
        forall i | IsLastSnapshot(snapshots, testCase, i) ensures IsLastSnapshot(init, testCase, i) {
        }
        forall i | IsLastSnapshot(init, testCase, i) ensures IsLastSnapshot(snapshots, testCase, i) {
        }
      }
    }
  }

  lemma ApprovalMeans(snapshots: seq<Snapshot>, testCase: string)
    ensures IsApproved(snapshots, testCase) <==> exists i :: ApprovedAt(snapshots, testCase, i)
  {
    LastSnapshotCounts(snapshots, testCase);
    if IsApproved(snapshots, testCase) {
      var i :| IsLastSnapshot(snapshots, testCase, i);
      assert ApprovedAt(snapshots, testCase, i);
    }
  }

  lemma PlannedAreReviewed(c: Setup, x: RunInput)
    ensures forall t :: t in Planned(c, x) <==> Reviewed(x, t)
  {
    PlannedMeans(c, x);
    forall t ensures IsApproved(x.snapshots, t) <==> exists i :: ApprovedAt(x.snapshots, t, i) {
      ApprovalMeans(x.snapshots, t);
    }
  }

  // ---- Gates ---------------------------------------------------------------------------------

  /** The one gate about reviews is closed exactly if no case of the run has been approved. */
  lemma ReviewGateMeans(c: Setup, x: RunInput)
    ensures IsRefused(c, x, NoApprovedTestCases) <==> forall t :: !Reviewed(x, t)
  {
    forall t ensures IsApproved(x.snapshots, t) <==> exists i :: ApprovedAt(x.snapshots, t, i) {
      ApprovalMeans(x.snapshots, t);
    }
    if i :| 0 <= i < |x.cases| && IsApproved(x.snapshots, x.cases[i]) {
      assert Reviewed(x, x.cases[i]);
    }
  }

  /** A run is open exactly if every switch is on, a token and a key are given, a case is approved and nothing blocks. */
  lemma OpenMeans(c: Setup, x: RunInput)
    ensures Proceeds(c, x) <==>
            && x.featureEnabled && x.adminEnabled
            && x.bearerToken.Some? && c.trimmed(x.bearerToken.value) != "" && IsValidKey(x.parent)
            && (exists t :: Reviewed(x, t))
            && !x.policyBlocked && x.policyBlockedCount <= 0 && (forall b :: b in x.decisionsBlocked ==> !b)
            && !x.validationBlocked && x.validationErrors <= 0 && x.sidecarBlocked != Some(true)
  {
    ReviewGateMeans(c, x);
    if Proceeds(c, x) {
      assert forall r :: !IsRefused(c, x, r);
      assert !IsRefused(c, x, FeatureGateDisabled) && !IsRefused(c, x, AdminGateDisabled) && !IsRefused(c, x, BearerTokenMissing);
      assert !IsRefused(c, x, InvalidParentIssueKey) && !IsRefused(c, x, NoApprovedTestCases);
      assert !IsRefused(c, x, PolicyBlockedCasesPresent) && !IsRefused(c, x, SchemaInvalidCasesPresent);
      assert !IsRefused(c, x, VisualSidecarBlocked);
    }
  }

  lemma NothingRefused(c: Setup, x: RunInput, r: Refusal)
    requires Proceeds(c, x)
    ensures !IsRefused(c, x, r)
  {
  }

  /** Closing one switch of an open run closes its own gate and no other one. */
  lemma SwitchesHaveTheirGates(c: Setup, x: RunInput, r: Refusal)
    requires Proceeds(c, x)
    ensures IsRefused(c, x.(featureEnabled := false), r) <==> r == FeatureGateDisabled
    ensures IsRefused(c, x.(adminEnabled := false), r) <==> r == AdminGateDisabled
    ensures IsRefused(c, x.(bearerToken := None), r) <==> r == BearerTokenMissing
    ensures IsRefused(c, x.(parent := ""), r) <==> r == InvalidParentIssueKey
    ensures IsRefused(c, x.(cases := []), r) <==> r == NoApprovedTestCases
  {
    NothingRefused(c, x, r);
    NothingRefused(c, x, NoApprovedTestCases);
  }

  /** So does a single finding of the review artefacts. */
  lemma FindingsHaveTheirGates(c: Setup, x: RunInput, r: Refusal)
    requires Proceeds(c, x)
    ensures IsRefused(c, x.(policyBlocked := true), r) <==> r == PolicyBlockedCasesPresent
    ensures IsRefused(c, x.(policyBlockedCount := 1), r) <==> r == PolicyBlockedCasesPresent
    ensures IsRefused(c, x.(decisionsBlocked := [true]), r) <==> r == PolicyBlockedCasesPresent
    ensures IsRefused(c, x.(validationBlocked := true), r) <==> r == SchemaInvalidCasesPresent
    ensures IsRefused(c, x.(validationErrors := 1), r) <==> r == SchemaInvalidCasesPresent
    ensures IsRefused(c, x.(sidecarBlocked := Some(true)), r) <==> r == VisualSidecarBlocked
  {
    NothingRefused(c, x, r);
    NothingRefused(c, x, NoApprovedTestCases);
  }

  /** An issue key is a project of at least two characters, a dash and a number without leading zeros. */
  ghost predicate IsKeyOf(s: string, project: string, number: string) {
    && s == project + "-" + number && |s| <= 64
    && |project| >= 2 && 'A' <= project[0] <= 'Z'
    && (forall i :: 1 <= i < |project| ==> 'A' <= project[i] <= 'Z' || '0' <= project[i] <= '9' || project[i] == '_')
    && number != "" && '1' <= number[0] <= '9' && forall i :: 0 <= i < |number| ==> '0' <= number[i] <= '9'
  }

  lemma SplitIsKey(s: string, dash: int)
    requires IsKeySplit(s, dash) && |s| <= 64
    ensures IsKeyOf(s, s[..dash], s[dash + 1..])
  {
    var project, number := s[..dash], s[dash + 1..];
    assert s == project + "-" + number;
    forall i | 1 <= i < |project| ensures IsProjectChar(project[i]) {
      assert project[1..][i - 1] == project[i] && project[i] in project[1..];
    }
    forall i | 0 <= i < |number| ensures '0' <= number[i] <= '9' {
      assert number[i] in number;
    }
  }

  lemma KeyIsSplit(s: string, project: string, number: string)
    requires IsKeyOf(s, project, number)
    ensures IsKeySplit(s, |project|)
  {
    var dash := |project|;
    assert s[..dash] == project && s[dash + 1..] == number && s[dash] == '-';
    assert forall c :: c in project[1..] ==> IsProjectChar(c);
  }

  lemma KeysMean(s: string)
    ensures IsValidKey(s) <==> exists project, number :: IsKeyOf(s, project, number)
  {
    if IsValidKey(s) {
      var dash :| 0 <= dash < |s| && IsKeySplit(s, dash);
      SplitIsKey(s, dash);
    }
    if project, number :| IsKeyOf(s, project, number) {
      KeyIsSplit(s, project, number);
    }
  }

  // ---- The wire ------------------------------------------------------------------------------

  predicate IsGood(a: Answer) {
    a.Responds? && 200 <= a.status <= 299
  }

  /** A lost message, a limit or a server error may be gone the next time. */
  predicate IsCurable(a: Answer) {
    a.Dropped? || a.status == 429 || a.status >= 500
  }

  /** What a bad answer is reported as. */
  predicate IsReportedAs(a: Answer, f: FailureClass) {
    match f
    case TransportError => a.Dropped?
    case AuthFailed => a.Responds? && a.status == 401
    case PermissionDenied => a.Responds? && a.status == 403
    case ValidationRejected => a.Responds? && (a.status == 400 || a.status == 422)
    case RateLimited => a.Responds? && a.status == 429
    case ServerError => a.Responds? && a.status >= 500
    case Unknown => a.Responds? && a.status < 500 && a.status !in {400, 401, 403, 422, 429}
  }

  /** The last answer before request `n`. */
  function AnswerBefore(web: Web, n: nat): Answer {
    if n == 0 then Dropped else web.weather(n - 1).answer
  }

  /** A request is repeated after curable answers only, and its last answer decides. */
  lemma {:induction false} SendMeans(web: Web, s: Site, q: Request, attempts: nat)
    requires attempts >= 1
    ensures var (t, sent) := Send(web, s, q, attempts);
            var last := AnswerBefore(web, t.calls);
            && s.calls < t.calls <= s.calls + attempts
            && (forall n :: s.calls <= n < t.calls - 1 ==> IsCurable(web.weather(n).answer))
            && (IsCurable(last) ==> t.calls == s.calls + attempts)
            && (sent.Delivered? <==> IsGood(last))
            && (sent.Undelivered? ==> IsReportedAs(last, sent.failure))
    decreases attempts
  {
    if attempts > 1 {
      SendMeans(web, Arrive(web, s, q), q, attempts - 1);
    }
  }

  /** A failure is marked as worth another run exactly if its answer was curable. */
  lemma RetryableMeans(a: Answer, f: FailureClass)
    requires IsReportedAs(a, f)
    ensures IsRetryableClass(f) <==> IsCurable(a)
  {
  }

  lemma FailuresAreMarked(web: Web, s: Site, parent: string, externalId: string, testCase: string, job: string, retries: nat)
    ensures var r := Attempt(web, s, parent, externalId, testCase, job, retries).1;
            r.outcome.HasFailed? ==>
              (r.outcome.retryable <==> r.outcome.failure in {TransportError, RateLimited, ServerError})
  {
  }

  /** An answer that cannot be used is reported like a rejected request. */
  ghost predicate IsFailureAfter(web: Web, s: Site, t: Site, f: FailureClass) {
    && s.calls < t.calls
    && var last := AnswerBefore(web, t.calls); IsReportedAs(last, f) || (IsGood(last) && f == ValidationRejected)
  }

  /** The failure that a record gives is that of the last answer; without a valid parent nothing is sent. */
  lemma FailureMeans(web: Web, s: Site, parent: string, externalId: string, testCase: string, job: string, retries: nat)
    ensures var (t, r) := Attempt(web, s, parent, externalId, testCase, job, retries);
            && (!IsValidKey(parent) ==> t == s && r.outcome == HasFailed(ValidationRejected, false))
            && (IsValidKey(parent) && r.outcome.HasFailed? ==> IsFailureAfter(web, s, t, r.outcome.failure))
  {
    if IsValidKey(parent) {
      SendMeans(web, s, Search(parent, externalId), retries + 1);
      var looked := Lookup(web, s, parent, externalId, retries);
      if looked.1.Absent? {
        SendMeans(web, looked.0, Create(parent, externalId, job), 1);
      }
    }
  }

  // ---- Whole runs ----------------------------------------------------------------------------

  /** The text of the sub-task's id for a test case of the run. */
  function IdOf(c: Setup, x: RunInput, testCase: string): string {
    c.hash(x.jobId + "|" + testCase + "|" + x.parent)
  }

  /** An issue that a run may add: under its parent, for its job and an approved case. */
  ghost predicate IsForReviewed(c: Setup, x: RunInput, issue: Issue) {
    && issue.parent == x.parent && issue.job == x.jobId
    && exists t :: Reviewed(x, t) && issue.externalId == IdOf(c, x, t)
  }

  lemma {:induction false} ProcessAddsOnly(web: Web, c: Setup, s: Site, x: RunInput, cases: seq<string>, i: nat)
    requires forall t :: t in cases ==> Reviewed(x, t)
    ensures var t := Process(web, c, s, x, cases).0;
            && s.issues <= t.issues
            && (|s.issues| <= i < |t.issues| ==> IsForReviewed(c, x, t.issues[i]))
  {
    IssuesOnlyGrow(web, c, s, x, cases);
    if cases != [] {
      var init, last := cases[..|cases| - 1], cases[|cases| - 1];
      assert last in cases && forall t :: t in init ==> t in cases;
      ProcessAddsOnly(web, c, s, x, init, i);
      var before := Process(web, c, s, x, init).0;
      AttemptEffect(web, before, x.parent, ExternalId(c, x, last), last, x.jobId, c.retries);
      assert ExternalId(c, x, last) == IdOf(c, x, last);
    }
  }

  /** Every issue a run adds is for an approved case of its input, and everything else stays. */
  lemma OnlyReviewedAreWritten(web: Web, c: Setup, s: Site, x: RunInput, i: nat)
    ensures var t := Run(web, c, s, x).0;
            && s.issues <= t.issues
            && (|s.issues| <= i < |t.issues| ==> IsForReviewed(c, x, t.issues[i]))
  {
    PlannedAreReviewed(c, x);
    if Proceeds(c, x) {
      ProcessAddsOnly(web, c, s, x, Planned(c, x), i);
    }
  }

  /** A record is about an approved case of the input, with its id. */
  ghost predicate IsRecordOf(c: Setup, x: RunInput, r: Record, testCase: string) {
    r.testCaseId == testCase && r.externalId == IdOf(c, x, testCase) && (r.outcome.WasDryRun? <==> x.dryRun)
  }

  /** The records of an open run are about exactly the approved cases of its input; a refused run has none. */
  lemma RecordsAreOfReviewed(web: Web, c: Setup, s: Site, x: RunInput)
    ensures var records := Run(web, c, s, x).1;
            && (forall r :: r in records ==> exists t :: Reviewed(x, t) && IsRecordOf(c, x, r, t))
            && (Proceeds(c, x) ==> forall t :: Reviewed(x, t) ==> exists r :: r in records && IsRecordOf(c, x, r, t))
            && (!Proceeds(c, x) ==> records == [])
  {
    var cases := Planned(c, x);
    PlannedAreReviewed(c, x);
    if Proceeds(c, x) {
      var records := Run(web, c, s, x).1;
      RecordsFollowCases(web, c, s, x, cases);
      assert forall t :: ExternalId(c, x, t) == IdOf(c, x, t);
      forall r | r in records ensures exists t :: Reviewed(x, t) && IsRecordOf(c, x, r, t) {
        var i :| 0 <= i < |records| && records[i] == r;
        assert cases[i] in cases && IsRecordOf(c, x, r, cases[i]);
      }
      forall t | Reviewed(x, t) ensures exists r :: r in records && IsRecordOf(c, x, r, t) {
        var i :| 0 <= i < |cases| && cases[i] == t;
        assert records[i] in records && IsRecordOf(c, x, records[i], t);
      }
    }
  }

  // ---- The report ----------------------------------------------------------------------------

  lemma PlacesGrow(p: Record -> bool, records: seq<Record>)
    requires records != []
    ensures var init, last := records[..|records| - 1], |records| - 1;
            |set i | 0 <= i < |records| && p(records[i])| ==
            |set i | 0 <= i < |init| && p(init[i])| + if p(records[last]) then 1 else 0
  {
    var init, last := records[..|records| - 1], |records| - 1;
    var before, after := set i | 0 <= i < |init| && p(init[i]), set i | 0 <= i < |records| && p(records[i]);
    assert after == before + if p(records[last]) then {last} else {};
  }

  lemma {:induction false} CountIsSize(p: Record -> bool, records: seq<Record>)
    ensures Count(p, records) == |set i | 0 <= i < |records| && p(records[i])|
  {
    if records != [] {
      CountIsSize(p, records[..|records| - 1]);
      PlacesGrow(p, records);
    }
  }

  lemma CountsAt(p: Record -> bool, records: seq<Record>, at: set<int>)
    requires forall i :: i in at <==> 0 <= i < |records| && p(records[i])
    ensures Count(p, records) == |at|
  {
    CountIsSize(p, records);
    assert at == set i | 0 <= i < |records| && p(records[i]);
  }

  /** The positions of the records with one outcome. */
  ghost function CreatedAt(records: seq<Record>): set<int> {
    set i | 0 <= i < |records| && records[i].outcome.WasCreated?
  }

  ghost function SkippedAt(records: seq<Record>): set<int> {
    set i | 0 <= i < |records| && records[i].outcome.WasSkipped?
  }

  ghost function FailedAt(records: seq<Record>): set<int> {
    set i | 0 <= i < |records| && records[i].outcome.HasFailed?
  }

  ghost function DryRunAt(records: seq<Record>): set<int> {
    set i | 0 <= i < |records| && records[i].outcome.WasDryRun?
  }

  /** The four counters of a run's report count what their names say. */
  lemma CountersMean(records: seq<Record>)
    ensures Count(IsCreated, records) == |CreatedAt(records)| && Count(IsSkipped, records) == |SkippedAt(records)|
    ensures Count(IsFailed, records) == |FailedAt(records)| && Count(IsDryRun, records) == |DryRunAt(records)|
  {
    CountsAt(IsCreated, records, CreatedAt(records));
    CountsAt(IsSkipped, records, SkippedAt(records));
    CountsAt(IsFailed, records, FailedAt(records));
    CountsAt(IsDryRun, records, DryRunAt(records));
  }
}
