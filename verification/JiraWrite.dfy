/** Writing approved test cases to Jira as sub-tasks, over a network that can lose requests and responses. */
module JiraWrite {
  import opened Prelude
  import opened Ordering

  // ---- Issue keys and external ids ----------------------------------------------------

  const MAX_KEY_LENGTH := 64

  predicate IsUpper(c: char) {
    'A' <= c <= 'Z'
  }

  predicate IsProjectChar(c: char) {
    IsUpper(c) || '0' <= c <= '9' || c == '_'
  }

  predicate IsProject(s: string) {
    |s| >= 2 && IsUpper(s[0]) && forall c :: c in s[1..] ==> IsProjectChar(c)
  }

  predicate IsPositiveNumber(s: string) {
    s != "" && s[0] != '0' && forall c :: c in s ==> '0' <= c <= '9'
  }

  predicate IsKeySplit(s: string, dash: int) {
    0 <= dash < |s| && s[dash] == '-' && IsProject(s[..dash]) && IsPositiveNumber(s[dash + 1..])
  }

  /** A project name of at least two characters, a dash and a positive number. */
  predicate IsValidKey(s: string) {
    |s| <= MAX_KEY_LENGTH && exists dash :: 0 <= dash < |s| && IsKeySplit(s, dash)
  }

  /** The text whose digest identifies a sub-task. */
  function IdText(job: string, testCase: string, parent: string): string {
    job + "|" + testCase + "|" + parent
  }

  lemma ValidKeyHasNoBar(s: string)
    requires IsValidKey(s)
    ensures '|' !in s
  {
    var dash :| 0 <= dash < |s| && IsKeySplit(s, dash);
    assert s == [s[0]] + s[..dash][1..] + [s[dash]] + s[dash + 1..];
  }

  lemma LastBarSplits(a: string, p: string, b: string, q: string)
    requires '|' !in p && '|' !in q && a + "|" + p == b + "|" + q
    ensures a == b && p == q
  {
    var s := a + "|" + p;
    assert s[|a|] == '|' && s[|b|] == '|';
    assert forall k :: |a| < k < |s| ==> s[k] in p;
    assert forall k :: |b| < k < |s| ==> s[k] in q;
    assert a == s[..|a|] && b == s[..|b|] && p == s[|a| + 1..] && q == s[|b| + 1..];
  }

  /** Two sub-tasks share an id exactly if they share the parent and the joined text of job and test case. */
  lemma SameIdIff(hash: string -> string, job: string, testCase: string, parent: string, job2: string, testCase2: string,
                  parent2: string)
    requires Injective(hash) && IsValidKey(parent) && IsValidKey(parent2)
    ensures hash(IdText(job, testCase, parent)) == hash(IdText(job2, testCase2, parent2)) <==>
            parent == parent2 && job + "|" + testCase == job2 + "|" + testCase2
    ensures job == job2 && hash(IdText(job, testCase, parent)) == hash(IdText(job2, testCase2, parent2)) ==>
              testCase == testCase2
  {
    ValidKeyHasNoBar(parent);
    ValidKeyHasNoBar(parent2);
    if IdText(job, testCase, parent) == IdText(job2, testCase2, parent2) {
      LastBarSplits(job + "|" + testCase, parent, job2 + "|" + testCase2, parent2);
    }
    if job == job2 && job + "|" + testCase == job2 + "|" + testCase2 {
      assert testCase == (job + "|" + testCase)[|job| + 1..] == (job2 + "|" + testCase2)[|job2| + 1..] == testCase2;
    }
  }

  ghost predicate Injective(hash: string -> string) {
    forall x, y :: hash(x) == hash(y) ==> x == y
  }

  /** Without a bar in the test case ids, the id determines job, test case and parent. */
  lemma IdDeterminesCase(hash: string -> string, job: string, testCase: string, parent: string, job2: string,
                         testCase2: string, parent2: string)
    requires Injective(hash) && IsValidKey(parent) && IsValidKey(parent2) && '|' !in testCase && '|' !in testCase2
    requires hash(IdText(job, testCase, parent)) == hash(IdText(job2, testCase2, parent2))
    ensures job == job2 && testCase == testCase2 && parent == parent2
  {
    SameIdIff(hash, job, testCase, parent, job2, testCase2, parent2);
    LastBarSplits(job, testCase, job2, testCase2);
  }

  /** With bars, cases of two different jobs can share an id, and the second of them is taken for a duplicate. */
  lemma BarsCollide(hash: string -> string, parent: string)
    ensures hash(IdText("a|b", "c", parent)) == hash(IdText("a", "b|c", parent))
  {
    assert IdText("a|b", "c", parent) == IdText("a", "b|c", parent);
  }

  // ---- The tenant and the wire --------------------------------------------------------------

  datatype Issue = Issue(parent: string, externalId: string, job: string, key: string)

  datatype Request = Search(parent: string, externalId: string) | Create(parent: string, externalId: string, job: string)

  datatype Answer = Dropped | Responds(status: nat, garbled: bool)

  /** What happens to one request: whether it takes effect, and what comes back. */
  datatype Weather = Weather(arrives: bool, answer: Answer)

  /** The weather of the n-th request and the key of an issue it creates. */
  datatype Web = Web(weather: nat -> Weather, keys: nat -> string)

  datatype Site = Site(issues: seq<Issue>, calls: nat)

  predicate IsOk(status: nat) {
    200 <= status < 300
  }

  predicate Succeeds(w: Weather) {
    w.answer.Responds? && IsOk(w.answer.status) && !w.answer.garbled
  }

  predicate TakesEffect(w: Weather) {
    w.arrives || Succeeds(w)
  }

  predicate Matches(issue: Issue, parent: string, externalId: string) {
    issue.parent == parent && issue.externalId == externalId
  }

  function FirstMatch(issues: seq<Issue>, parent: string, externalId: string): Option<string> {
    if issues == [] then None
    else if Matches(issues[0], parent, externalId) then Some(issues[0].key)
    else FirstMatch(issues[1..], parent, externalId)
  }

  /** The tenant after one request. A proper success is never reported for a create that had no effect. */
  function Arrive(web: Web, s: Site, q: Request): Site {
    if q.Create? && TakesEffect(web.weather(s.calls)) then
      Site(s.issues + [Issue(q.parent, q.externalId, q.job, web.keys(s.calls))], s.calls + 1)
    else s.(calls := s.calls + 1)
  }

  datatype Payload = Garbage | Listing(first: Option<string>) | NewKey(key: string)

  /** The content of a successful response; a search answers truthfully. */
  function Content(web: Web, s: Site, q: Request, garbled: bool): Payload {
    if garbled then Garbage
    else
      match q
      case Search(parent, externalId) => Listing(FirstMatch(s.issues, parent, externalId))
      case Create(_, _, _) => NewKey(web.keys(s.calls))
  }

  datatype FailureClass =
    | TransportError
    | AuthFailed
    | PermissionDenied
    | ValidationRejected
    | RateLimited
    | ServerError
    | Unknown

  function Classify(status: nat): FailureClass {
    if status == 401 then AuthFailed
    else if status == 403 then PermissionDenied
    else if status == 400 || status == 422 then ValidationRejected
    else if status == 429 then RateLimited
    else if status >= 500 then ServerError
    else Unknown
  }

  predicate IsRetryable(status: nat) {
    status == 429 || status >= 500
  }

  /** The failure classes that a record marks as worth another run. */
  predicate IsRetryableClass(f: FailureClass) {
    f in {TransportError, RateLimited, ServerError}
  }

  datatype Sent = Delivered(payload: Payload) | Undelivered(failure: FailureClass)

  /** Up to `attempts` requests, another one only after a failure that a retry could cure. */
  function Send(web: Web, s: Site, q: Request, attempts: nat): (Site, Sent)
    requires attempts >= 1
    decreases attempts
  {
    match web.weather(s.calls).answer
    case Dropped => if attempts > 1 then Send(web, Arrive(web, s, q), q, attempts - 1) else (Arrive(web, s, q), Undelivered(TransportError))
    case Responds(status, garbled) =>
      if IsOk(status) then (Arrive(web, s, q), Delivered(Content(web, s, q, garbled)))
      else if IsRetryable(status) && attempts > 1 then Send(web, Arrive(web, s, q), q, attempts - 1)
      else (Arrive(web, s, q), Undelivered(Classify(status)))
  }

  // ---- The client -----------------------------------------------------------------------------

  datatype LookupReply = Found(key: string) | Absent | LookupFailed(failure: FailureClass)

  datatype CreateReply = Created(key: string) | CreateFailed(failure: FailureClass)

  function ReadListing(sent: Sent): LookupReply {
    match sent
    case Undelivered(f) => LookupFailed(f)
    case Delivered(Listing(None)) => Absent
    case Delivered(Listing(Some(key))) => if IsValidKey(key) then Found(key) else LookupFailed(ValidationRejected)
    case _ => LookupFailed(ValidationRejected)
  }

  function ReadCreated(sent: Sent): CreateReply {
    match sent
    case Undelivered(f) => CreateFailed(f)
    case Delivered(NewKey(key)) => if IsValidKey(key) then Created(key) else CreateFailed(ValidationRejected)
    case _ => CreateFailed(ValidationRejected)
  }

  function Lookup(web: Web, s: Site, parent: string, externalId: string, retries: nat): (Site, LookupReply) {
    if !IsValidKey(parent) then (s, Absent)
    else
      var sent := Send(web, s, Search(parent, externalId), retries + 1);
      (sent.0, ReadListing(sent.1))
  }

  /** A create is sent once and never repeated. */
  function CreateSubTask(web: Web, s: Site, parent: string, externalId: string, job: string): (Site, CreateReply) {
    if !IsValidKey(parent) then (s, CreateFailed(ValidationRejected))
    else
      var sent := Send(web, s, Create(parent, externalId, job), 1);
      (sent.0, ReadCreated(sent.1))
  }

  datatype Outcome = WasCreated(key: string) | WasSkipped(key: string) | HasFailed(failure: FailureClass, retryable: bool) | WasDryRun

  datatype Record = Record(testCaseId: string, externalId: string, outcome: Outcome)

  function FailedRecord(testCase: string, externalId: string, f: FailureClass): Record {
    Record(testCase, externalId, HasFailed(f, IsRetryableClass(f)))
  }

  /** One test case: look it up, and create it only if the lookup is sure that it is absent. */
  function Attempt(web: Web, s: Site, parent: string, externalId: string, testCase: string, job: string, retries: nat): (Site, Record) {
    var looked := Lookup(web, s, parent, externalId, retries);
    match looked.1
    case Found(key) => (looked.0, Record(testCase, externalId, WasSkipped(key)))
    case LookupFailed(f) => (looked.0, FailedRecord(testCase, externalId, f))
    case Absent =>
      var made := CreateSubTask(web, looked.0, parent, externalId, job);
      match made.1
      case CreateFailed(f) => (made.0, FailedRecord(testCase, externalId, f))
      case Created(key) => (made.0, Record(testCase, externalId, WasCreated(key)))
  }

  // ---- Whole runs ---------------------------------------------------------------------------------

  datatype ReviewState = Approved | Exported | Transferred | OtherState

  datatype Snapshot = Snapshot(testCaseId: string, blocked: bool, state: ReviewState)

  datatype RunInput = RunInput(
    jobId: string,
    parent: string,
    dryRun: bool,
    cases: seq<string>,
    snapshots: seq<Snapshot>,
    policyBlocked: bool,
    policyBlockedCount: int,
    decisionsBlocked: seq<bool>,
    validationBlocked: bool,
    validationErrors: int,
    sidecarBlocked: Option<bool>,
    bearerToken: Option<string>,
    featureEnabled: bool,
    adminEnabled: bool)

  /** `trimmed` is JavaScript's `trim`, `collate` the sort key of the locale's order. */
  datatype Setup = Setup(hash: string -> string, collate: string -> string, trimmed: string -> string, retries: nat)

  /** The last snapshot for a test case counts. */
  function SnapshotOf(snapshots: seq<Snapshot>, testCase: string): Option<Snapshot> {
    if snapshots == [] then None
    else if snapshots[|snapshots| - 1].testCaseId == testCase then Some(snapshots[|snapshots| - 1])
    else SnapshotOf(snapshots[..|snapshots| - 1], testCase)
  }

  predicate IsApproved(snapshots: seq<Snapshot>, testCase: string) {
    var s := SnapshotOf(snapshots, testCase);
    s.Some? && !s.value.blocked && s.value.state != OtherState
  }

  datatype Refusal =
    | FeatureGateDisabled
    | AdminGateDisabled
    | BearerTokenMissing
    | InvalidParentIssueKey
    | NoApprovedTestCases
    | PolicyBlockedCasesPresent
    | SchemaInvalidCasesPresent
    | VisualSidecarBlocked

  predicate IsNoneApproved(x: RunInput) {
    forall i :: 0 <= i < |x.cases| ==> !IsApproved(x.snapshots, x.cases[i])
  }

  /** When each of the eight gates is closed. */
  predicate IsRefused(c: Setup, x: RunInput, r: Refusal) {
    match r
    case FeatureGateDisabled => !x.featureEnabled
    case AdminGateDisabled => !x.adminEnabled
    case BearerTokenMissing => x.bearerToken.None? || c.trimmed(x.bearerToken.value) == ""
    case InvalidParentIssueKey => !IsValidKey(x.parent)
    case NoApprovedTestCases => IsNoneApproved(x)
    case PolicyBlockedCasesPresent => x.policyBlocked || x.policyBlockedCount > 0 || true in x.decisionsBlocked
    case SchemaInvalidCasesPresent => x.validationBlocked || x.validationErrors > 0
    case VisualSidecarBlocked => x.sidecarBlocked == Some(true)
  }

  predicate Proceeds(c: Setup, x: RunInput) {
    forall r :: !IsRefused(c, x, r)
  }

  function ApprovedIn(snapshots: seq<Snapshot>, cases: seq<string>): seq<string> {
    if cases == [] then []
    else ApprovedIn(snapshots, cases[..|cases| - 1]) +
         if IsApproved(snapshots, cases[|cases| - 1]) then [cases[|cases| - 1]] else []
  }

  function ExternalId(c: Setup, x: RunInput, testCase: string): string {
    c.hash(IdText(x.jobId, testCase, x.parent))
  }

  function ProcessCase(web: Web, c: Setup, s: Site, x: RunInput, testCase: string): (Site, Record) {
    if x.dryRun then (s, Record(testCase, ExternalId(c, x, testCase), WasDryRun))
    else Attempt(web, s, x.parent, ExternalId(c, x, testCase), testCase, x.jobId, c.retries)
  }

  /** The cases one after the other, in the order given. */
  function Process(web: Web, c: Setup, s: Site, x: RunInput, cases: seq<string>): (Site, seq<Record>) {
    if cases == [] then (s, [])
    else
      var before := Process(web, c, s, x, cases[..|cases| - 1]);
      var now := ProcessCase(web, c, before.0, x, cases[|cases| - 1]);
      (now.0, before.1 + [now.1])
  }

  function Planned(c: Setup, x: RunInput): seq<string> {
    ApprovedIn(x.snapshots, SortBy(c.collate, x.cases))
  }

  /** The tenant and the records after a whole run. */
  function Run(web: Web, c: Setup, s: Site, x: RunInput): (Site, seq<Record>) {
    if Proceeds(c, x) then Process(web, c, s, x, Planned(c, x)) else (s, [])
  }

  function Runs(web: Web, c: Setup, s: Site, xs: seq<RunInput>): Site {
    if xs == [] then s else Run(web, c, Runs(web, c, s, xs[..|xs| - 1]), xs[|xs| - 1]).0
  }

  // ---- At most one sub-task per id --------------------------------------------------------------

  /** No two issues under one parent carry the same id, and every id was made from a run's data. */
  ghost predicate Sound(hash: string -> string, s: Site) {
    && (forall i, j :: 0 <= i < j < |s.issues| ==> !Matches(s.issues[i], s.issues[j].parent, s.issues[j].externalId))
    && (forall i :: 0 <= i < |s.issues| ==> IsMade(hash, s.issues[i]))
  }

  ghost predicate IsMade(hash: string -> string, issue: Issue) {
    IsValidKey(issue.parent) && exists job, testCase :: issue.externalId == hash(IdText(job, testCase, issue.parent))
  }

  lemma {:induction false} FirstMatchMeans(issues: seq<Issue>, parent: string, externalId: string)
    ensures FirstMatch(issues, parent, externalId).None? <==>
            forall i :: 0 <= i < |issues| ==> !Matches(issues[i], parent, externalId)
    ensures FirstMatch(issues, parent, externalId).Some? ==>
              exists i :: 0 <= i < |issues| && Matches(issues[i], parent, externalId) &&
                          issues[i].key == FirstMatch(issues, parent, externalId).value
  {
    if issues != [] {
      FirstMatchMeans(issues[1..], parent, externalId);
    }
  }

  /** A search leaves the issues alone, however often it is repeated, and a listing is the truth. */
  lemma {:induction false} SearchIsTruthful(web: Web, s: Site, parent: string, externalId: string, attempts: nat)
    requires attempts >= 1
    ensures var r := Send(web, s, Search(parent, externalId), attempts);
            && r.0.issues == s.issues && r.0.calls > s.calls
            && (r.1.Delivered? ==> r.1.payload.Garbage? || r.1.payload == Listing(FirstMatch(s.issues, parent, externalId)))
    decreases attempts
  {
    if attempts > 1 {
      SearchIsTruthful(web, Arrive(web, s, Search(parent, externalId)), parent, externalId, attempts - 1);
    }
  }

  /** What one attempt can do to the tenant: nothing, or create the case's issue if it is not there yet. */
  lemma AttemptEffect(web: Web, s: Site, parent: string, externalId: string, testCase: string, job: string, retries: nat)
    ensures var p := Attempt(web, s, parent, externalId, testCase, job, retries);
            && p.0.calls >= s.calls && p.1.testCaseId == testCase && p.1.externalId == externalId && !p.1.outcome.WasDryRun?
            && (p.0.issues == s.issues || (IsValidKey(parent) && FirstMatch(s.issues, parent, externalId).None?))
            && (p.0.issues == s.issues || exists key :: p.0.issues == s.issues + [Issue(parent, externalId, job, key)])
            && (p.1.outcome.WasSkipped? ==>
                  p.0.issues == s.issues && FirstMatch(s.issues, parent, externalId) == Some(p.1.outcome.key))
            && (p.1.outcome.WasCreated? ==> p.0.issues == s.issues + [Issue(parent, externalId, job, p.1.outcome.key)])
  {
    if IsValidKey(parent) {
      SearchIsTruthful(web, s, parent, externalId, retries + 1);
      CreateEffect(web, Lookup(web, s, parent, externalId, retries).0, parent, externalId, job);
    }
  }

  /** A create has at most one effect, and a success reports the key of the issue it created. */
  lemma CreateEffect(web: Web, s: Site, parent: string, externalId: string, job: string)
    requires IsValidKey(parent)
    ensures var p := CreateSubTask(web, s, parent, externalId, job);
            && p.0.calls == s.calls + 1
            && (p.0.issues == s.issues || p.0.issues == s.issues + [Issue(parent, externalId, job, web.keys(s.calls))])
            && (p.1.Created? ==> p.0.issues == s.issues + [Issue(parent, externalId, job, p.1.key)])
  {
  }

  lemma AttemptKeepsSound(web: Web, c: Setup, s: Site, x: RunInput, testCase: string)
    requires Sound(c.hash, s)
    ensures Sound(c.hash, Attempt(web, s, x.parent, ExternalId(c, x, testCase), testCase, x.jobId, c.retries).0)
  {
    var id := ExternalId(c, x, testCase);
    AttemptEffect(web, s, x.parent, id, testCase, x.jobId, c.retries);
    FirstMatchMeans(s.issues, x.parent, id);
    var t := Attempt(web, s, x.parent, id, testCase, x.jobId, c.retries).0;
    if t.issues != s.issues {
      assert IsMade(c.hash, t.issues[|s.issues|]);
    }
  }

  lemma {:induction false} ProcessKeepsSound(web: Web, c: Setup, s: Site, x: RunInput, cases: seq<string>)
    requires Sound(c.hash, s)
    ensures Sound(c.hash, Process(web, c, s, x, cases).0)
  {
    if cases != [] {
      ProcessKeepsSound(web, c, s, x, cases[..|cases| - 1]);
      AttemptKeepsSound(web, c, Process(web, c, s, x, cases[..|cases| - 1]).0, x, cases[|cases| - 1]);
    }
  }

  predicate IdsDistinct(s: Site) {
    forall i, j :: 0 <= i < j < |s.issues| ==> s.issues[i].externalId != s.issues[j].externalId
  }

  /** Over any sequence of runs and any losses on the wire, no id is ever given to two issues. */
  lemma AtMostOnce(web: Web, c: Setup, s: Site, xs: seq<RunInput>)
    requires Injective(c.hash) && Sound(c.hash, s)
    ensures Sound(c.hash, Runs(web, c, s, xs)) && IdsDistinct(Runs(web, c, s, xs))
  {
    RunsKeepSound(web, c, s, xs);
    var t := Runs(web, c, s, xs);
    forall i, j | 0 <= i < j < |t.issues| ensures t.issues[i].externalId != t.issues[j].externalId {
      var a, b := t.issues[i], t.issues[j];
      assert IsMade(c.hash, a) && IsMade(c.hash, b) && !Matches(a, b.parent, b.externalId);
      var job, testCase :| a.externalId == c.hash(IdText(job, testCase, a.parent));
      var job2, testCase2 :| b.externalId == c.hash(IdText(job2, testCase2, b.parent));
      SameIdIff(c.hash, job, testCase, a.parent, job2, testCase2, b.parent);
    }
  }

  lemma {:induction false} RunsKeepSound(web: Web, c: Setup, s: Site, xs: seq<RunInput>)
    requires Sound(c.hash, s)
    ensures Sound(c.hash, Runs(web, c, s, xs))
  {
    if xs != [] {
      RunsKeepSound(web, c, s, xs[..|xs| - 1]);
      var x := xs[|xs| - 1];
      ProcessKeepsSound(web, c, Runs(web, c, s, xs[..|xs| - 1]), x, Planned(c, x));
    }
  }

  // ---- What records say ---------------------------------------------------------------------------

  lemma {:induction false} RecordsFollowCases(web: Web, c: Setup, s: Site, x: RunInput, cases: seq<string>)
    ensures var records := Process(web, c, s, x, cases).1;
            && |records| == |cases|
            && forall i :: 0 <= i < |cases| ==>
                             && records[i].testCaseId == cases[i] && records[i].externalId == ExternalId(c, x, cases[i])
                             && (records[i].outcome.WasDryRun? <==> x.dryRun)
  {
    if cases != [] {
      RecordsFollowCases(web, c, s, x, cases[..|cases| - 1]);
      var t, last := Process(web, c, s, x, cases[..|cases| - 1]).0, cases[|cases| - 1];
      AttemptEffect(web, t, x.parent, ExternalId(c, x, last), last, x.jobId, c.retries);
    }
  }

  /** A dry run leaves the tenant alone and makes no request. */
  lemma {:induction false} DryRunIsSilent(web: Web, c: Setup, s: Site, x: RunInput, cases: seq<string>)
    requires x.dryRun
    ensures Process(web, c, s, x, cases).0 == s
  {
    if cases != [] {
      DryRunIsSilent(web, c, s, x, cases[..|cases| - 1]);
    }
  }

  /** Refused and dry runs neither change the tenant nor make a request. */
  lemma SilentRuns(web: Web, c: Setup, s: Site, x: RunInput)
    requires x.dryRun || !Proceeds(c, x)
    ensures Run(web, c, s, x).0 == s
  {
    if x.dryRun {
      DryRunIsSilent(web, c, s, x, Planned(c, x));
    }
  }

  ghost predicate Exists(issues: seq<Issue>, issue: Issue) {
    exists i :: 0 <= i < |issues| && issues[i] == issue
  }

  /** Issues are only ever appended. */
  lemma {:induction false} IssuesOnlyGrow(web: Web, c: Setup, s: Site, x: RunInput, cases: seq<string>)
    ensures s.issues <= Process(web, c, s, x, cases).0.issues
  {
    if cases != [] {
      IssuesOnlyGrow(web, c, s, x, cases[..|cases| - 1]);
      var t, last := Process(web, c, s, x, cases[..|cases| - 1]).0, cases[|cases| - 1];
      AttemptEffect(web, t, x.parent, ExternalId(c, x, last), last, x.jobId, c.retries);
    }
  }

  /** The issue that a record reports is in the tenant. */
  ghost predicate IsTrue(s: Site, x: RunInput, r: Record) {
    match r.outcome
    case WasCreated(key) => Exists(s.issues, Issue(x.parent, r.externalId, x.jobId, key))
    case WasSkipped(key) => exists job :: Exists(s.issues, Issue(x.parent, r.externalId, job, key))
    case _ => true
  }

  lemma ExistsInLonger(s: Site, t: Site, x: RunInput, r: Record)
    requires s.issues <= t.issues && IsTrue(s, x, r)
    ensures IsTrue(t, x, r)
  {
    forall issue | Exists(s.issues, issue) ensures Exists(t.issues, issue) {
      var i :| 0 <= i < |s.issues| && s.issues[i] == issue;
      assert t.issues[i] == issue;
    }
  }

  ghost predicate AllTrue(s: Site, x: RunInput, records: seq<Record>) {
    forall r :: r in records ==> IsTrue(s, x, r)
  }

  /** Every record of a run is true of the tenant after the run. */
  lemma {:induction false} RecordsAreTrue(web: Web, c: Setup, s: Site, x: RunInput, cases: seq<string>)
    ensures AllTrue(Process(web, c, s, x, cases).0, x, Process(web, c, s, x, cases).1)
  {
    if cases != [] {
      var init, last := cases[..|cases| - 1], cases[|cases| - 1];
      var before := Process(web, c, s, x, init);
      var t := Process(web, c, s, x, cases).0;
      RecordsAreTrue(web, c, s, x, init);
      AttemptIsTrue(web, c, before.0, x, last);
      forall r | r in before.1 ensures IsTrue(t, x, r) {
        ExistsInLonger(before.0, t, x, r);
      }
    }
  }

  lemma AttemptIsTrue(web: Web, c: Setup, s: Site, x: RunInput, testCase: string)
    ensures var p := ProcessCase(web, c, s, x, testCase);
            s.issues <= p.0.issues && IsTrue(p.0, x, p.1)
  {
    var id := ExternalId(c, x, testCase);
    var p := ProcessCase(web, c, s, x, testCase);
    AttemptEffect(web, s, x.parent, id, testCase, x.jobId, c.retries);
    if p.1.outcome.WasSkipped? {
      FirstMatchMeans(s.issues, x.parent, id);
      var i :| 0 <= i < |s.issues| && Matches(s.issues[i], x.parent, id) && s.issues[i].key == p.1.outcome.key;
      assert Exists(s.issues, Issue(x.parent, id, s.issues[i].job, p.1.outcome.key));
    } else if p.1.outcome.WasCreated? {
      assert p.0.issues[|s.issues|] == Issue(x.parent, id, x.jobId, p.1.outcome.key);
    }
  }

  // ---- Repeating a run ----------------------------------------------------------------------------

  /** Once a case has its issue, no later attempt changes the issues, whatever the weather. */
  lemma {:induction false} SettledStays(web: Web, c: Setup, s: Site, x: RunInput, cases: seq<string>)
    requires forall t :: t in cases ==> FirstMatch(s.issues, x.parent, ExternalId(c, x, t)).Some?
    ensures Process(web, c, s, x, cases).0.issues == s.issues
  {
    if cases != [] {
      var last := cases[|cases| - 1];
      assert forall t :: t in cases[..|cases| - 1] ==> t in cases;
      SettledStays(web, c, s, x, cases[..|cases| - 1]);
      AttemptEffect(web, Process(web, c, s, x, cases[..|cases| - 1]).0, x.parent, ExternalId(c, x, last), last, x.jobId, c.retries);
    }
  }

  /** From here on, every request succeeds and gets a well-formed key. */
  ghost predicate FairWeather(web: Web, from: nat) {
    forall n: nat :: n >= from ==> Succeeds(web.weather(n)) && IsValidKey(web.keys(n))
  }

  ghost predicate KeysValid(s: Site) {
    forall i :: 0 <= i < |s.issues| ==> IsValidKey(s.issues[i].key)
  }

  predicate IsSettled(r: Record) {
    r.outcome.WasCreated? || r.outcome.WasSkipped?
  }

  lemma FairLookup(web: Web, s: Site, parent: string, externalId: string, retries: nat)
    requires Succeeds(web.weather(s.calls)) && IsValidKey(parent)
    ensures Lookup(web, s, parent, externalId, retries) ==
            (s.(calls := s.calls + 1), ReadListing(Delivered(Listing(FirstMatch(s.issues, parent, externalId)))))
  {
  }

  lemma FairCreate(web: Web, s: Site, parent: string, externalId: string, job: string)
    requires Succeeds(web.weather(s.calls)) && IsValidKey(parent) && IsValidKey(web.keys(s.calls))
    ensures CreateSubTask(web, s, parent, externalId, job) ==
            (Site(s.issues + [Issue(parent, externalId, job, web.keys(s.calls))], s.calls + 1), Created(web.keys(s.calls)))
  {
  }

  lemma FairAttempt(web: Web, c: Setup, s: Site, x: RunInput, testCase: string)
    requires FairWeather(web, s.calls) && KeysValid(s) && IsValidKey(x.parent)
    ensures var p := Attempt(web, s, x.parent, ExternalId(c, x, testCase), testCase, x.jobId, c.retries);
            && KeysValid(p.0) && p.0.calls >= s.calls && IsSettled(p.1)
            && FirstMatch(p.0.issues, x.parent, ExternalId(c, x, testCase)).Some?
  {
    var id := ExternalId(c, x, testCase);
    var t := s.(calls := s.calls + 1);
    FairLookup(web, s, x.parent, id, c.retries);
    FairCreate(web, t, x.parent, id, x.jobId);
    FirstMatchMeans(s.issues, x.parent, id);
    if FirstMatch(s.issues, x.parent, id).None? {
      var more := CreateSubTask(web, t, x.parent, id, x.jobId).0.issues;
      FirstMatchMeans(more, x.parent, id);
      assert Matches(more[|s.issues|], x.parent, id);
    }
  }

  lemma FirstMatchInLonger(xs: seq<Issue>, ys: seq<Issue>, parent: string, externalId: string)
    requires xs <= ys && FirstMatch(xs, parent, externalId).Some?
    ensures FirstMatch(ys, parent, externalId).Some?
  {
    FirstMatchMeans(xs, parent, externalId);
    FirstMatchMeans(ys, parent, externalId);
    var i :| 0 <= i < |xs| && Matches(xs[i], parent, externalId);
    assert Matches(ys[i], parent, externalId);
  }

  /** In fair weather every case ends up with an issue, whatever earlier runs left behind. */
  lemma {:induction false} FairProcess(web: Web, c: Setup, s: Site, x: RunInput, cases: seq<string>)
    requires FairWeather(web, s.calls) && KeysValid(s) && IsValidKey(x.parent) && !x.dryRun
    ensures var p := Process(web, c, s, x, cases);
            && KeysValid(p.0) && p.0.calls >= s.calls && (forall r :: r in p.1 ==> IsSettled(r))
            && (forall t :: t in cases ==> FirstMatch(p.0.issues, x.parent, ExternalId(c, x, t)).Some?)
  {
    if cases != [] {
      var init, last := cases[..|cases| - 1], cases[|cases| - 1];
      var before, p := Process(web, c, s, x, init).0, Process(web, c, s, x, cases).0;
      FairProcess(web, c, s, x, init);
      FairAttempt(web, c, before, x, last);
      AttemptEffect(web, before, x.parent, ExternalId(c, x, last), last, x.jobId, c.retries);
      forall t | t in init ensures FirstMatch(p.issues, x.parent, ExternalId(c, x, t)).Some? {
        FirstMatchInLonger(before.issues, p.issues, x.parent, ExternalId(c, x, t));
      }
      assert cases == init + [last];
    }
  }

  lemma {:induction false} ApprovedInMeans(snapshots: seq<Snapshot>, cases: seq<string>)
    ensures forall t :: t in ApprovedIn(snapshots, cases) <==> t in cases && IsApproved(snapshots, t)
  {
    if cases != [] {
      ApprovedInMeans(snapshots, cases[..|cases| - 1]);
      assert cases == cases[..|cases| - 1] + [cases[|cases| - 1]];
    }
  }

  lemma PlannedMeans(c: Setup, x: RunInput)
    ensures forall t :: t in Planned(c, x) <==> t in x.cases && IsApproved(x.snapshots, t)
  {
    ApprovedInMeans(x.snapshots, SortBy(c.collate, x.cases));
    SortBySorts(c.collate, x.cases);
    assert forall t :: t in SortBy(c.collate, x.cases) <==> t in multiset(SortBy(c.collate, x.cases));
    assert forall t :: t in x.cases <==> t in multiset(x.cases);
  }

  /** The tenant has one issue for the case, and no other under the same parent. */
  ghost predicate HasOne(s: Site, parent: string, externalId: string) {
    exists i :: 0 <= i < |s.issues| && Matches(s.issues[i], parent, externalId)
                && forall j :: 0 <= j < |s.issues| && j != i ==> !Matches(s.issues[j], parent, externalId)
  }

  lemma FoundOnce(hash: string -> string, s: Site, parent: string, externalId: string)
    requires Sound(hash, s) && FirstMatch(s.issues, parent, externalId).Some?
    ensures HasOne(s, parent, externalId)
  {
    FirstMatchMeans(s.issues, parent, externalId);
    var i :| 0 <= i < |s.issues| && Matches(s.issues[i], parent, externalId);
  }

  /** However often runs were cut short before, one run in fair weather leaves exactly one issue for every approved case. */
  lemma RunInFairWeatherCompletes(web: Web, c: Setup, s: Site, x: RunInput, testCase: string)
    requires Sound(c.hash, s) && KeysValid(s) && FairWeather(web, s.calls) && Proceeds(c, x) && !x.dryRun
    requires testCase in x.cases && IsApproved(x.snapshots, testCase)
    ensures HasOne(Run(web, c, s, x).0, x.parent, ExternalId(c, x, testCase))
  {
    assert !IsRefused(c, x, InvalidParentIssueKey);
    FairProcess(web, c, s, x, Planned(c, x));
    ProcessKeepsSound(web, c, s, x, Planned(c, x));
    PlannedMeans(c, x);
    FoundOnce(c.hash, Run(web, c, s, x).0, x.parent, ExternalId(c, x, testCase));
  }

  /** Repeating that run adds no issue, in any weather. */
  lemma RepetitionAddsNothing(web: Web, c: Setup, s: Site, x: RunInput, rough: Web)
    requires KeysValid(s) && FairWeather(web, s.calls) && Proceeds(c, x) && !x.dryRun
    ensures var t := Run(web, c, s, x).0; Run(rough, c, t, x).0.issues == t.issues
  {
    assert !IsRefused(c, x, InvalidParentIssueKey);
    FairProcess(web, c, s, x, Planned(c, x));
    SettledStays(rough, c, Run(web, c, s, x).0, x, Planned(c, x));
  }

  // ---- The run as it happens ------------------------------------------------------------------------

  lemma {:induction false} ApprovedCount(snapshots: seq<Snapshot>, cases: seq<string>)
    ensures |ApprovedIn(snapshots, cases)| == Count(t => IsApproved(snapshots, t), cases)
  {
    if cases != [] {
      ApprovedCount(snapshots, cases[..|cases| - 1]);
    }
  }

  lemma {:induction false} ApprovedStaySorted(c: Setup, snapshots: seq<Snapshot>, cases: seq<string>)
    requires SortedBy(c.collate, cases)
    ensures SortedBy(c.collate, ApprovedIn(snapshots, cases))
  {
    if cases != [] {
      var init, last := cases[..|cases| - 1], cases[|cases| - 1];
      ApprovedStaySorted(c, snapshots, init);
      ApprovedInMeans(snapshots, init);
      forall t | t in ApprovedIn(snapshots, init) ensures Leq(c.collate(t), c.collate(last)) {
        assert t in init;
      }
    }
  }

  function RecordKey(c: Setup): Record -> string {
    (r: Record) => c.collate(r.testCaseId)
  }

  predicate IsCreated(r: Record) {
    r.outcome.WasCreated?
  }

  predicate IsSkipped(r: Record) {
    r.outcome.WasSkipped?
  }

  predicate IsFailed(r: Record) {
    r.outcome.HasFailed?
  }

  predicate IsDryRun(r: Record) {
    r.outcome.WasDryRun?
  }

  lemma {:induction false} OutcomesPartition(records: seq<Record>)
    ensures Count(IsCreated, records) + Count(IsSkipped, records) +
            Count(IsFailed, records) + Count(IsDryRun, records) == |records|
  {
    if records != [] {
      OutcomesPartition(records[..|records| - 1]);
    }
  }

  /** The records come out in the order that sorting them would give, one for every approved case. */
  lemma RecordsAreSorted(web: Web, c: Setup, s: Site, x: RunInput)
    ensures var records := Process(web, c, s, x, Planned(c, x)).1;
            && SortBy(RecordKey(c), records) == records
            && |records| == Count(t => IsApproved(x.snapshots, t), x.cases)
  {
    var cases := SortBy(c.collate, x.cases);
    var records := Process(web, c, s, x, Planned(c, x)).1;
    SortBySorts(c.collate, x.cases);
    ApprovedStaySorted(c, x.snapshots, cases);
    RecordsFollowCases(web, c, s, x, Planned(c, x));
    SortedStays(RecordKey(c), records);
    ApprovedCount(x.snapshots, cases);
    CountSortBy(t => IsApproved(x.snapshots, t), c.collate, x.cases);
  }

  datatype RunResult = RunResult(
    refusals: set<Refusal>,
    records: seq<Record>,
    totalCases: nat,
    created: nat,
    skipped: nat,
    failed: nat,
    dryRuns: nat)

  /** The last snapshot of every test case. */
  method BuildSnapshotIndex(snapshots: seq<Snapshot>) returns (index: map<string, Snapshot>)
    ensures forall t :: SnapshotOf(snapshots, t) == if t in index then Some(index[t]) else None
  {
    index := map[];
    for i := 0 to |snapshots|
      invariant forall t :: SnapshotOf(snapshots[..i], t) == if t in index then Some(index[t]) else None
    {
      assert snapshots[..i + 1][..i] == snapshots[..i];
      index := index[snapshots[i].testCaseId := snapshots[i]];
    }
    assert snapshots[..|snapshots|] == snapshots;
  }

  predicate IsApprovedSnapshot(s: Option<Snapshot>) {
    s.Some? && !s.value.blocked && s.value.state in {Approved, Exported, Transferred}
  }

  method CountApproved(x: RunInput) returns (approved: nat)
    ensures approved == 0 <==> IsNoneApproved(x)
  {
    var index := BuildSnapshotIndex(x.snapshots);
    approved := 0;
    for i := 0 to |x.cases|
      invariant approved == 0 <==> forall k :: 0 <= k < i ==> !IsApproved(x.snapshots, x.cases[k])
    {
      if IsApprovedSnapshot(if x.cases[i] in index then Some(index[x.cases[i]]) else None) {
        approved := approved + 1;
      }
    }
  }

  method AnyBlocked(decisions: seq<bool>) returns (found: bool)
    ensures found <==> true in decisions
  {
    for i := 0 to |decisions|
      invariant true !in decisions[..i]
    {
      if decisions[i] {
        return true;
      }
    }
    assert decisions[..|decisions|] == decisions;
    return false;
  }

  /** Whether a policy decision stops the run. */
  method PolicyBlocks(x: RunInput) returns (blocked: bool)
    ensures blocked <==> x.policyBlocked || x.policyBlockedCount > 0 || true in x.decisionsBlocked
  {
    if x.policyBlocked || x.policyBlockedCount > 0 {
      return true;
    }
    blocked := AnyBlocked(x.decisionsBlocked);
  }

  /** The codes of the gates that look at the request alone. */
  method CollectRequestRefusals(c: Setup, x: RunInput) returns (codes: set<Refusal>)
    ensures forall r :: r in codes <==>
                        IsRefused(c, x, r) && r in {FeatureGateDisabled, AdminGateDisabled, BearerTokenMissing, InvalidParentIssueKey}
  {
    codes := {};
    if !x.featureEnabled {
      codes := codes + {FeatureGateDisabled};
    }
    if !x.adminEnabled {
      codes := codes + {AdminGateDisabled};
    }
    var token := if x.bearerToken.Some? then c.trimmed(x.bearerToken.value) else "";
    if token == "" {
      codes := codes + {BearerTokenMissing};
    }
    if !IsValidKey(x.parent) {
      codes := codes + {InvalidParentIssueKey};
    }
  }

  /** Exactly the codes of the closed gates. */
  method CollectGateRefusals(c: Setup, x: RunInput) returns (codes: set<Refusal>)
    ensures forall r :: r in codes <==> IsRefused(c, x, r)
  {
    codes := CollectRequestRefusals(c, x);
    var approved := CountApproved(x);
    if approved == 0 {
      codes := codes + {NoApprovedTestCases};
    }
    var blocked := PolicyBlocks(x);
    if blocked {
      codes := codes + {PolicyBlockedCasesPresent};
    }
    if x.validationBlocked || x.validationErrors > 0 {
      codes := codes + {SchemaInvalidCasesPresent};
    }
    if x.sidecarBlocked == Some(true) {
      codes := codes + {VisualSidecarBlocked};
    }
  }

  /** The tenant behind the network; every request uses up one number. */
  class Tenant {
    const web: Web
    var issues: seq<Issue>
    var calls: nat

    constructor (web: Web)
      ensures this.web == web && issues == [] && calls == 0
    {
      this.web := web;
      issues, calls := [], 0;
    }

    ghost function State(): Site
      reads this
    {
      Site(issues, calls)
    }

    /** One request over the wire. */
    method Fetch(q: Request) returns (answer: Answer, payload: Payload)
      modifies this
      ensures State() == Arrive(web, old(State()), q)
      ensures answer == web.weather(old(calls)).answer
      ensures answer.Responds? ==> payload == Content(web, old(State()), q, answer.garbled)
    {
      var w := web.weather(calls);
      answer := w.answer;
      payload := Content(web, Site(issues, calls), q, answer.Dropped? || answer.garbled);
      if q.Create? && TakesEffect(w) {
        issues := issues + [Issue(q.parent, q.externalId, q.job, web.keys(calls))];
      }
      calls := calls + 1;
    }

    /** `sendJiraRequest`: only a lookup asks for retries. */
    method SendJiraRequest(q: Request, retry: bool, maxRetries: nat) returns (r: Sent)
      modifies this
      ensures (State(), r) == Send(web, old(State()), q, if retry then maxRetries + 1 else 1)
    {
      var maxAttempts := if retry then maxRetries + 1 else 1;
      var attempt := 1;
      while attempt <= maxAttempts
        invariant 1 <= attempt <= maxAttempts
        invariant Send(web, State(), q, maxAttempts - attempt + 1) == Send(web, old(State()), q, maxAttempts)
        decreases maxAttempts - attempt
      {
        var answer, payload := Fetch(q);
        if answer.Dropped? {
          if attempt < maxAttempts {
            attempt := attempt + 1;
            continue;
          }
          return Undelivered(TransportError);
        }
        if IsOk(answer.status) {
          return Delivered(payload);
        }
        if IsRetryable(answer.status) && attempt < maxAttempts {
          attempt := attempt + 1;
          continue;
        }
        return Undelivered(Classify(answer.status));
      }
    }

    method AttemptWrite(parent: string, externalId: string, testCase: string, job: string, maxRetries: nat) returns (r: Record)
      modifies this
      ensures (State(), r) == Attempt(web, old(State()), parent, externalId, testCase, job, maxRetries)
    {
      var lookup := Absent;
      if IsValidKey(parent) {
        var sent := SendJiraRequest(Search(parent, externalId), true, maxRetries);
        lookup := ReadListing(sent);
      }
      if lookup.Found? {
        return Record(testCase, externalId, WasSkipped(lookup.key));
      }
      if lookup.LookupFailed? {
        return FailedRecord(testCase, externalId, lookup.failure);
      }
      var reply := CreateFailed(ValidationRejected);
      if IsValidKey(parent) {
        var sent := SendJiraRequest(Create(parent, externalId, job), false, maxRetries);
        reply := ReadCreated(sent);
      }
      if reply.CreateFailed? {
        return FailedRecord(testCase, externalId, reply.failure);
      }
      return Record(testCase, externalId, WasCreated(reply.key));
    }

    /** A whole run; the four outcome counts add up to the number of approved cases, or to zero if refused. */
    method RunJiraSubtaskWrite(c: Setup, x: RunInput) returns (r: RunResult)
      modifies this
      ensures (State(), r.records) == Run(web, c, old(State()), x)
      ensures forall code :: code in r.refusals <==> IsRefused(c, x, code)
      ensures r.totalCases == |x.cases|
      ensures r.created == Count(IsCreated, r.records) && r.skipped == Count(IsSkipped, r.records)
      ensures r.failed == Count(IsFailed, r.records) && r.dryRuns == Count(IsDryRun, r.records)
      ensures r.created + r.skipped + r.failed + r.dryRuns ==
              if r.refusals == {} then Count(t => IsApproved(x.snapshots, t), x.cases) else 0
    {
      var codes := CollectGateRefusals(c, x);
      if codes != {} {
        assert exists code :: code in codes;
        return RunResult(codes, [], |x.cases|, 0, 0, 0, 0);
      }
      var index := BuildSnapshotIndex(x.snapshots);
      var sorted := SortBy(c.collate, x.cases);
      var records: seq<Record> := [];
      ghost var done: seq<string> := [];
      for i := 0 to |sorted|
        invariant done == ApprovedIn(x.snapshots, sorted[..i])
        invariant (State(), records) == Process(web, c, old(State()), x, done)
      {
        assert sorted[..i + 1][..i] == sorted[..i];
        assert done + [] == done && (done + [sorted[i]])[..|done|] == done;
        if !IsApprovedSnapshot(if sorted[i] in index then Some(index[sorted[i]]) else None) {
          continue;
        }
        var id := c.hash(IdText(x.jobId, sorted[i], x.parent));
        if x.dryRun {
          records := records + [Record(sorted[i], id, WasDryRun)];
        } else {
          var record := AttemptWrite(x.parent, id, sorted[i], x.jobId, c.retries);
          records := records + [record];
        }
        done := done + [sorted[i]];
      }
      assert sorted[..|sorted|] == sorted;
      RecordsAreSorted(web, c, old(State()), x);
      records := SortBy(RecordKey(c), records);
      OutcomesPartition(records);
      return RunResult({}, records, |x.cases|, Count(IsCreated, records), Count(IsSkipped, records),
                       Count(IsFailed, records), Count(IsDryRun, records));
    }
  }
}
