/** Hash-chained checkpoints: the offline verifier, tamper evidence, and the run tree in a chain. */
module CheckpointChain {
  import opened Prelude
  import opened Ordering

  /** `detail` stands for the remaining fields (step, attempt, status, hashes, times, error class). */
  datatype Checkpoint = Checkpoint(
    jobId: string,
    detail: string,
    nextSteps: seq<string>,
    parentHash: string,
    chainIndex: int,
    runId: string,
    parentRunId: Option<string>,
    promptTokens: int,
    completionTokens: int)

  /** The pattern checks on single fields. */
  datatype Schema = Schema(
    core: (string, string) -> bool,
    times: string -> bool,
    errorClass: string -> bool,
    isHex: string -> bool,
    isUuid: string -> bool)

  /** The parent hash of a root: 64 zero digits. */
  const ROOT_PARENT_HASH: string := seq(64, _ => '0')

  datatype Reason =
    | ChainIndexMismatch | SchemaViolation | DuplicateChainIndex | MissingRoot | ParentHashMismatch | SchemaInvalid

  datatype Verdict = Intact(head: string, length: nat) | Broken(index: int, reason: Reason)

  // ---- Structural invariants ------------------------------------------------------

  predicate CanonicalSteps(steps: seq<string>) {
    (forall i :: 0 <= i < |steps| ==> steps[i] != "") && StrictlySorted(steps)
  }

  /** The first structural check that fails, in the order the checks run. */
  function Defect(schema: Schema, c: Checkpoint): Option<Reason> {
    if !schema.core(c.jobId, c.detail) || !CanonicalSteps(c.nextSteps) then Some(SchemaInvalid)
    else if !schema.times(c.detail) then Some(SchemaViolation)
    else if !schema.errorClass(c.detail) || !schema.isHex(c.parentHash) || c.chainIndex < 0 then Some(SchemaInvalid)
    else if c.chainIndex == 0 && c.parentHash != ROOT_PARENT_HASH then Some(SchemaInvalid)
    else if !schema.isUuid(c.runId) || (c.parentRunId.Some? && !schema.isUuid(c.parentRunId.value)) then Some(SchemaViolation)
    else if c.chainIndex == 0 && c.parentRunId.Some? then Some(SchemaViolation)
    else if c.parentRunId == Some(c.runId) then Some(SchemaViolation)
    else if c.promptTokens < 0 || c.completionTokens < 0 then Some(SchemaViolation)
    else None
  }

  /** The structural check and the digest a chain is verified with. */
  datatype Rules = Rules(defect: Checkpoint -> Option<Reason>, hash: Checkpoint -> string)

  /** What the structural check guarantees, whatever the field patterns are. */
  ghost predicate Standard(rules: Rules) {
    && (forall c :: rules.defect(c) == None && c.chainIndex == 0 ==> c.parentHash == ROOT_PARENT_HASH && c.parentRunId == None)
    && (forall c :: rules.defect(c) == None ==> CanonicalSteps(c.nextSteps))
    && (forall c :: rules.defect(c).Some? ==> rules.defect(c).value in {SchemaInvalid, SchemaViolation})
  }

  function RulesOf(schema: Schema, hash: Checkpoint -> string): Rules {
    Rules(c => Defect(schema, c), hash)
  }

  lemma RulesOfStandard(schema: Schema, hash: Checkpoint -> string)
    ensures Standard(RulesOf(schema, hash))
  {
  }

  // ---- What an accepted chain is, position by position ---------------------------------

  /** Each run id with the parent its first checkpoint declared. */
  function Parents(cs: seq<Checkpoint>): map<string, Option<string>> {
    if cs == [] then map[] else Register(Parents(cs[..|cs| - 1]), cs[|cs| - 1])
  }

  function Register(parents: map<string, Option<string>>, c: Checkpoint): map<string, Option<string>> {
    if c.runId in parents then parents else parents[c.runId := c.parentRunId]
  }

  /** A known run keeps its parent; a new run names a known one, except at the root. */
  predicate RunFits(parents: map<string, Option<string>>, index: int, c: Checkpoint) {
    if c.runId in parents then c.parentRunId == parents[c.runId]
    else index == 0 || (c.parentRunId.Some? && c.parentRunId.value in parents)
  }

  function HeadHash(rules: Rules, cs: seq<Checkpoint>): string {
    if cs == [] then ROOT_PARENT_HASH else rules.hash(cs[|cs| - 1])
  }

  /** Diagnosis of `c` after the intact chain `before`. */
  function Diagnose(rules: Rules, before: seq<Checkpoint>, c: Checkpoint): Option<(int, Reason)> {
    if 0 <= c.chainIndex < |before| then Some((c.chainIndex, DuplicateChainIndex))
    else if c.chainIndex != |before| then Some((|before|, ChainIndexMismatch))
    else if rules.defect(c).Some? then Some((|before|, rules.defect(c).value))
    else if before == [] && c.parentHash != ROOT_PARENT_HASH then Some((0, MissingRoot))
    else if before != [] && c.parentHash != HeadHash(rules, before) then Some((|before|, ParentHashMismatch))
    else if !RunFits(Parents(before), |before|, c) then Some((|before|, SchemaViolation))
    else None
  }

  function Judge(rules: Rules, cs: seq<Checkpoint>): Verdict {
    if cs == [] then Intact(ROOT_PARENT_HASH, 0)
    else
      var before, c := cs[..|cs| - 1], cs[|cs| - 1];
      var verdict := Judge(rules, before);
      if verdict.Broken? then verdict
      else
        match Diagnose(rules, before, c)
        case Some(found) => Broken(found.0, found.1)
        case None => Intact(rules.hash(c), |cs|)
  }

  predicate Accepted(rules: Rules, cs: seq<Checkpoint>) {
    Judge(rules, cs).Intact?
  }

  /** `c` continues `before`. */
  predicate LinkFits(rules: Rules, before: seq<Checkpoint>, c: Checkpoint) {
    && c.chainIndex == |before|
    && rules.defect(c) == None
    && c.parentHash == HeadHash(rules, before)
    && RunFits(Parents(before), |before|, c)
  }

  /** Link by link reading of acceptance. */
  ghost predicate Linked(rules: Rules, cs: seq<Checkpoint>) {
    forall i :: 0 <= i < |cs| ==> LinkFits(rules, cs[..i], cs[i])
  }

  lemma FitsIffUndiagnosed(rules: Rules, before: seq<Checkpoint>, c: Checkpoint)
    ensures LinkFits(rules, before, c) <==> Diagnose(rules, before, c).None?
  {
  }

  lemma LinkedStep(rules: Rules, before: seq<Checkpoint>, c: Checkpoint)
    ensures Linked(rules, before + [c]) <==> Linked(rules, before) && LinkFits(rules, before, c)
  {
    var cs := before + [c];
    assert forall i :: 0 <= i < |before| ==> cs[..i] == before[..i] && cs[i] == before[i];
    assert cs[..|before|] == before && cs[|before|] == c;
    if Linked(rules, cs) {
      forall i | 0 <= i < |before| ensures LinkFits(rules, before[..i], before[i]) {
        assert LinkFits(rules, cs[..i], cs[i]);
      }
      assert LinkFits(rules, cs[..|before|], cs[|before|]);
    }
    if Linked(rules, before) && LinkFits(rules, before, c) {
      forall i | 0 <= i < |cs| ensures LinkFits(rules, cs[..i], cs[i]) {
        assert i < |before| ==> LinkFits(rules, before[..i], before[i]);
      }
    }
  }

  lemma {:induction false} AcceptedIsLinked(rules: Rules, cs: seq<Checkpoint>)
    ensures Accepted(rules, cs) <==> Linked(rules, cs)
    ensures Accepted(rules, cs) ==> Judge(rules, cs) == Intact(HeadHash(rules, cs), |cs|)
  {
    if cs != [] {
      var before, c := cs[..|cs| - 1], cs[|cs| - 1];
      AcceptedIsLinked(rules, before);
      FitsIffUndiagnosed(rules, before, c);
      LinkedStep(rules, before, c);
      assert cs == before + [c];
    }
  }

  // ---- The verifier's loop --------------------------------------------------------------

  /** The checks on one checkpoint, in the order of the loop. */
  method Inspect(rules: Rules, ghost before: seq<Checkpoint>, i: nat, c: Checkpoint, seen: set<int>, previousHash: string,
                 parents: map<string, Option<string>>)
    returns (r: Option<(int, Reason)>)
    requires i == |before| && parents == Parents(before) && previousHash == HeadHash(rules, before)
    requires forall n :: n in seen <==> 0 <= n < i
    ensures r == Diagnose(rules, before, c)
  {
    if c.chainIndex in seen {
      return Some((c.chainIndex, DuplicateChainIndex));
    }
    if c.chainIndex != i {
      return Some((i, ChainIndexMismatch));
    }
    var defect := rules.defect(c);
    if defect.Some? {
      return Some((i, defect.value));
    }
    if i == 0 {
      if c.parentHash != ROOT_PARENT_HASH {
        return Some((0, MissingRoot));
      }
    } else if c.parentHash != previousHash {
      return Some((i, ParentHashMismatch));
    }
    if c.runId !in parents {
      if i > 0 {
        if c.parentRunId.None? {
          return Some((i, SchemaViolation));
        }
        if c.parentRunId.value !in parents {
          return Some((i, SchemaViolation));
        }
      }
    } else if parents[c.runId] != c.parentRunId {
      return Some((i, SchemaViolation));
    }
    return None;
  }

  /** A misfit after an intact prefix is the verdict on the whole. */
  lemma BrokenStep(rules: Rules, cs: seq<Checkpoint>, i: nat)
    requires i < |cs| && Judge(rules, cs[..i]).Intact? && Diagnose(rules, cs[..i], cs[i]).Some?
    ensures var found := Diagnose(rules, cs[..i], cs[i]).value; Judge(rules, cs) == Broken(found.0, found.1)
  {
    assert cs[..i + 1][..i] == cs[..i] && cs[..i + 1][i] == cs[i];
    BrokenFrom(rules, cs, i + 1);
  }

  /** A fitting checkpoint extends an intact prefix. */
  lemma IntactStep(rules: Rules, cs: seq<Checkpoint>, i: nat)
    requires i < |cs| && Judge(rules, cs[..i]).Intact? && Diagnose(rules, cs[..i], cs[i]).None?
    ensures Judge(rules, cs[..i + 1]) == Intact(rules.hash(cs[i]), i + 1)
    ensures cs[i].chainIndex == i
    ensures HeadHash(rules, cs[..i + 1]) == rules.hash(cs[i])
    ensures Parents(cs[..i + 1]) == Register(Parents(cs[..i]), cs[i])
  {
    assert cs[..i + 1][..i] == cs[..i] && cs[..i + 1][i] == cs[i];
  }

  /** Recomputes the chain and reports the first break. */
  method VerifyChain(rules: Rules, cs: seq<Checkpoint>) returns (r: Verdict)
    ensures r == Judge(rules, cs)
  {
    var seen: set<int> := {};
    var parents: map<string, Option<string>> := map[];
    var previousHash := ROOT_PARENT_HASH;
    var i := 0;
    while i < |cs|
      invariant i <= |cs|
      invariant Judge(rules, cs[..i]) == Intact(previousHash, i)
      invariant previousHash == HeadHash(rules, cs[..i])
      invariant forall n :: n in seen <==> 0 <= n < i
      invariant parents == Parents(cs[..i])
    {
      var c := cs[i];
      var broken := Inspect(rules, cs[..i], i, c, seen, previousHash, parents);
      if broken.Some? {
        BrokenStep(rules, cs, i);
        return Broken(broken.value.0, broken.value.1);
      }
      IntactStep(rules, cs, i);
      seen := seen + {c.chainIndex};
      if c.runId !in parents {
        parents := parents[c.runId := c.parentRunId];
      }
      previousHash := rules.hash(c);
      i := i + 1;
    }
    assert cs[..i] == cs;
    return Intact(previousHash, |cs|);
  }

  /** A break in a prefix is the verdict on the whole. */
  lemma {:induction false} BrokenFrom(rules: Rules, cs: seq<Checkpoint>, n: nat)
    requires n <= |cs| && Judge(rules, cs[..n]).Broken?
    ensures Judge(rules, cs) == Judge(rules, cs[..n])
    decreases |cs|
  {
    if n < |cs| {
      var before := cs[..|cs| - 1];
      assert before[..n] == cs[..n];
      BrokenFrom(rules, before, n);
    } else {
      assert cs[..n] == cs;
    }
  }

  /** The structural check already rejects a root without the sentinel, so this reason is never reported. */
  lemma {:induction false} MissingRootNeverReported(rules: Rules, cs: seq<Checkpoint>)
    requires Standard(rules)
    ensures Judge(rules, cs).Broken? ==> Judge(rules, cs).reason != MissingRoot
  {
    if cs != [] {
      MissingRootNeverReported(rules, cs[..|cs| - 1]);
    }
  }

  // ---- Tamper evidence ---------------------------------------------------------------------

  /** An ideal digest: no collisions, and never the root sentinel. */
  ghost predicate Ideal(hash: Checkpoint -> string) {
    && (forall c, d :: hash(c) == hash(d) ==> c == d)
    && (forall c :: hash(c) != ROOT_PARENT_HASH)
  }

  /** Two accepted chains with the same head hash are the same chain. */
  lemma {:induction false} SameHeadSameChain(
      rules: Rules, xs: seq<Checkpoint>, ys: seq<Checkpoint>)
    requires Ideal(rules.hash) && Accepted(rules, xs) && Accepted(rules, ys)
    requires HeadHash(rules, xs) == HeadHash(rules, ys)
    ensures xs == ys
  {
    if xs != [] && ys != [] {
      var x, y := xs[|xs| - 1], ys[|ys| - 1];
      LastIsLinked(rules, xs);
      LastIsLinked(rules, ys);
      assert x == y;
      SameHeadSameChain(rules, xs[..|xs| - 1], ys[..|ys| - 1]);
      assert xs == xs[..|xs| - 1] + [x] && ys == ys[..|ys| - 1] + [y];
    }
  }

  /** The last checkpoint of an accepted chain points at the head of the accepted rest. */
  lemma LastIsLinked(rules: Rules, cs: seq<Checkpoint>)
    requires Accepted(rules, cs) && cs != []
    ensures Accepted(rules, cs[..|cs| - 1])
    ensures cs[|cs| - 1].parentHash == HeadHash(rules, cs[..|cs| - 1])
    ensures cs[|cs| - 1].chainIndex == |cs| - 1 && rules.defect(cs[|cs| - 1]).None?
  {
    AcceptedIsLinked(rules, cs);
  }

  /**
   * Replacing one checkpoint that is not the last is always detected: at its own position (where a repeated
   * index is reported as the smaller position it repeats) or by the hash link right after it.
   */
  lemma ReplacementDetected(rules: Rules, cs: seq<Checkpoint>, k: nat, c: Checkpoint)
    requires Standard(rules) && Ideal(rules.hash) && Accepted(rules, cs) && k < |cs| - 1 && c != cs[k]
    ensures var v := Judge(rules, cs[k := c]);
            || v == Broken(k + 1, ParentHashMismatch)
            || (v == Broken(c.chainIndex, DuplicateChainIndex) && 0 <= c.chainIndex < k)
            || (v.Broken? && v.index == k && v.reason != DuplicateChainIndex)
  {
    var ds := cs[k := c];
    PrefixAccepted(rules, cs, k);
    assert ds[..k] == cs[..k];
    if Diagnose(rules, cs[..k], c).Some? {
      BreakAt(rules, ds, k);
    } else {
      LinkAfter(rules, cs, k);
      AcceptOne(rules, cs[..k], c);
      assert ds[..k + 1] == cs[..k] + [c] && ds[k + 1] == cs[k + 1];
      BreakAt(rules, ds, k + 1);
    }
  }

  /** The first checkpoint that does not fit an intact chain decides the verdict. */
  lemma BreakAt(rules: Rules, cs: seq<Checkpoint>, k: nat)
    requires k < |cs| && Accepted(rules, cs[..k]) && Diagnose(rules, cs[..k], cs[k]).Some?
    ensures var found := Diagnose(rules, cs[..k], cs[k]).value; Judge(rules, cs) == Broken(found.0, found.1)
  {
    assert cs[..k + 1][..k] == cs[..k] && cs[..k + 1][k] == cs[k];
    BrokenFrom(rules, cs, k + 1);
  }

  lemma AcceptOne(rules: Rules, before: seq<Checkpoint>, c: Checkpoint)
    requires Accepted(rules, before) && Diagnose(rules, before, c) == None
    ensures Accepted(rules, before + [c])
  {
    assert (before + [c])[..|before|] == before;
  }

  lemma LinkAfter(rules: Rules, cs: seq<Checkpoint>, k: nat)
    requires Accepted(rules, cs) && k < |cs| - 1
    ensures cs[k + 1].chainIndex == k + 1 && rules.defect(cs[k + 1]) == None && cs[k + 1].parentHash == rules.hash(cs[k])
  {
    AcceptedIsLinked(rules, cs);
    assert HeadHash(rules, cs[..k + 1]) == rules.hash(cs[k]);
  }

  lemma PrefixAccepted(rules: Rules, cs: seq<Checkpoint>, k: nat)
    requires k <= |cs| && Accepted(rules, cs)
    ensures Accepted(rules, cs[..k])
  {
    if Judge(rules, cs[..k]).Broken? {
      BrokenFrom(rules, cs, k);
    }
  }

  // ---- The run tree -------------------------------------------------------------------------

  /** The run reached from `runId` after `n` parent links, if any. */
  function Ancestor(parents: map<string, Option<string>>, runId: string, n: nat): Option<string>
    decreases n
  {
    if n == 0 then Some(runId)
    else if runId !in parents || parents[runId] == None then None
    else Ancestor(parents, parents[runId].value, n - 1)
  }

  /** All checkpoints of one run declare the same parent. */
  lemma {:induction false} RunsAgreeOnParent(rules: Rules, cs: seq<Checkpoint>, i: nat)
    requires Accepted(rules, cs) && i < |cs|
    ensures cs[i].runId in Parents(cs) && Parents(cs)[cs[i].runId] == cs[i].parentRunId
  {
    var before := cs[..|cs| - 1];
    AcceptedIsLinked(rules, cs);
    if i < |before| {
      PrefixAccepted(rules, cs, |cs| - 1);
      RunsAgreeOnParent(rules, before, i);
    }
  }

  /** Every run id comes from some checkpoint. */
  lemma {:induction false} RunsComeFromCheckpoints(cs: seq<Checkpoint>, runId: string)
    requires runId in Parents(cs)
    ensures exists i :: 0 <= i < |cs| && cs[i].runId == runId
  {
    var before := cs[..|cs| - 1];
    if runId in Parents(before) {
      RunsComeFromCheckpoints(before, runId);
      var i :| 0 <= i < |before| && before[i].runId == runId;
      assert cs[i].runId == runId;
    }
  }

  ghost predicate Rooted(parents: map<string, Option<string>>, root: string, runId: string) {
    exists n: nat :: Ancestor(parents, runId, n) == Some(root)
  }

  ghost predicate Tree(parents: map<string, Option<string>>, root: string) {
    && root in parents && parents[root] == None
    && (forall r :: r in parents && parents[r] == None ==> r == root)
    && (forall r :: r in parents && parents[r].Some? ==> parents[r].value in parents)
    && (forall r :: r in parents ==> Rooted(parents, root, r))
  }

  /** Known ancestors do not change when another run is registered. */
  lemma {:induction false} AncestorStays(
      parents: map<string, Option<string>>, added: string, parent: Option<string>, runId: string, n: nat)
    requires added !in parents && runId in parents
    requires forall r :: r in parents && parents[r].Some? ==> parents[r].value in parents
    ensures Ancestor(parents[added := parent], runId, n) == Ancestor(parents, runId, n)
    decreases n
  {
    if n > 0 && parents[runId].Some? {
      AncestorStays(parents, added, parent, parents[runId].value, n - 1);
    }
  }

  lemma TreeGrows(parents: map<string, Option<string>>, root: string, added: string, parent: string)
    requires Tree(parents, root) && added !in parents && parent in parents
    ensures Tree(parents[added := Some(parent)], root)
  {
    var more := parents[added := Some(parent)];
    forall r | r in parents
      ensures Rooted(more, root, r)
    {
      var n: nat :| Ancestor(parents, r, n) == Some(root);
      AncestorStays(parents, added, Some(parent), r, n);
    }
    var n: nat :| Ancestor(more, parent, n) == Some(root);
    assert Ancestor(more, added, n + 1) == Some(root);
  }

  /**
   * The run ids of an accepted chain form a single tree: the first checkpoint's run is the only one without
   * a parent, and following parents from any run ends there.
   */
  lemma {:induction false} RunsFormATree(rules: Rules, cs: seq<Checkpoint>)
    requires Standard(rules) && Accepted(rules, cs) && cs != []
    ensures Tree(Parents(cs), cs[0].runId)
  {
    var before, c := cs[..|cs| - 1], cs[|cs| - 1];
    AcceptedIsLinked(rules, cs);
    assert cs[..|cs| - 1] == before;
    if before == [] {
      assert Parents(cs) == map[c.runId := None];
      assert Ancestor(Parents(cs), c.runId, 0) == Some(c.runId);
    } else {
      PrefixAccepted(rules, cs, |cs| - 1);
      RunsFormATree(rules, before);
      if c.runId !in Parents(before) {
        TreeGrows(Parents(before), cs[0].runId, c.runId, c.parentRunId.value);
      }
    }
  }

  // ---- Appending -----------------------------------------------------------------------------

  datatype AppendInput = AppendInput(
    jobId: string,
    detail: string,
    nextSteps: seq<string>,
    runId: string,
    parentRunId: Option<string>,
    promptTokens: int,
    completionTokens: int)

  datatype AppendError = InvalidPrevious | JobMismatch | BadSteps | InvalidCheckpoint

  function Identity(s: string): string {
    s
  }

  function SortSteps(steps: seq<string>): seq<string> {
    SortBy(Identity, steps)
  }

  /** Sorts the step ids; empty or repeated ones are refused. */
  function CanonicalizeSteps(steps: seq<string>): Result<seq<string>, AppendError> {
    if CanonicalSteps(SortSteps(steps)) then Ok(SortSteps(steps)) else Err(BadSteps)
  }

  function Append(rules: Rules, previous: Option<Checkpoint>, input: AppendInput)
    : Result<Checkpoint, AppendError>
  {
    if previous.Some? && rules.defect(previous.value).Some? then Err(InvalidPrevious)
    else if previous.Some? && previous.value.jobId != input.jobId then Err(JobMismatch)
    else
      var steps :- CanonicalizeSteps(input.nextSteps);
      Validated(rules, Checkpoint(
        input.jobId, input.detail, steps, NextParentHash(rules, previous), NextIndex(previous),
        input.runId, input.parentRunId, input.promptTokens, input.completionTokens))
  }

  function NextParentHash(rules: Rules, previous: Option<Checkpoint>): string {
    if previous.None? then ROOT_PARENT_HASH else rules.hash(previous.value)
  }

  function NextIndex(previous: Option<Checkpoint>): int {
    if previous.None? then 0 else previous.value.chainIndex + 1
  }

  function Validated(rules: Rules, c: Checkpoint): Result<Checkpoint, AppendError> {
    if rules.defect(c).Some? then Err(InvalidCheckpoint) else Ok(c)
  }

  function LastOf(cs: seq<Checkpoint>): Option<Checkpoint> {
    if cs == [] then None else Some(cs[|cs| - 1])
  }

  /** Appends the inputs one after the other, starting from no checkpoint. */
  function AppendAll(rules: Rules, inputs: seq<AppendInput>): Result<seq<Checkpoint>, AppendError> {
    if inputs == [] then Ok([])
    else
      var cs :- AppendAll(rules, inputs[..|inputs| - 1]);
      var c :- Append(rules, LastOf(cs), inputs[|inputs| - 1]);
      Ok(cs + [c])
  }

  ghost predicate RunsFit(cs: seq<Checkpoint>) {
    forall i :: 0 <= i < |cs| ==> RunFits(Parents(cs[..i]), i, cs[i])
  }

  /** An appended chain is accepted exactly when its parent run ids obey the tree rule. */
  lemma {:induction false} AppendedIsAccepted(
      rules: Rules, inputs: seq<AppendInput>, cs: seq<Checkpoint>)
    requires AppendAll(rules, inputs) == Ok(cs)
    ensures |cs| == |inputs|
    ensures Accepted(rules, cs) <==> RunsFit(cs)
    ensures Accepted(rules, cs) ==> Judge(rules, cs) == Intact(HeadHash(rules, cs), |inputs|)
  {
    AppendedLinks(rules, inputs, cs);
    AcceptedIsLinked(rules, cs);
  }

  lemma {:induction false} AppendedLinks(
      rules: Rules, inputs: seq<AppendInput>, cs: seq<Checkpoint>)
    requires AppendAll(rules, inputs) == Ok(cs)
    ensures |cs| == |inputs|
    ensures forall i :: 0 <= i < |cs| ==>
      cs[i].chainIndex == i && rules.defect(cs[i]) == None && cs[i].parentHash == HeadHash(rules, cs[..i])
  {
    if inputs != [] {
      var before := cs[..|cs| - 1];
      assert AppendAll(rules, inputs[..|inputs| - 1]) == Ok(before);
      AppendedLinks(rules, inputs[..|inputs| - 1], before);
      assert forall i :: 0 <= i < |before| ==> cs[..i] == before[..i];
    }
  }

  function InputOf(c: Checkpoint): AppendInput {
    AppendInput(c.jobId, c.detail, c.nextSteps, c.runId, c.parentRunId, c.promptTokens, c.completionTokens)
  }

  function InputsOf(cs: seq<Checkpoint>): seq<AppendInput> {
    if cs == [] then [] else InputsOf(cs[..|cs| - 1]) + [InputOf(cs[|cs| - 1])]
  }

  lemma SortedStepsStay(steps: seq<string>)
    requires CanonicalSteps(steps)
    ensures CanonicalizeSteps(steps) == Ok(steps)
  {
    SortBySorts(Identity, steps);
    SortedUnique(Identity, steps, SortBy(Identity, steps));
  }

  /** Appending a fitting checkpoint's own fields yields the checkpoint. */
  lemma FittingIsAppended(rules: Rules, before: seq<Checkpoint>, c: Checkpoint)
    requires Standard(rules) && LinkFits(rules, before, c) && (before != [] ==> before[|before| - 1].jobId == c.jobId)
    requires before != [] ==> before[|before| - 1].chainIndex == |before| - 1 && rules.defect(before[|before| - 1]).None?
    ensures Append(rules, LastOf(before), InputOf(c)) == Ok(c)
  {
    SortedStepsStay(c.nextSteps);
  }

  /** Appending an intact checkpoint's own fields to its predecessor yields the checkpoint. */
  lemma AppendReproduces(rules: Rules, before: seq<Checkpoint>, c: Checkpoint)
    requires Standard(rules) && Accepted(rules, before + [c]) && (before != [] ==> before[|before| - 1].jobId == c.jobId)
    ensures Accepted(rules, before) && Append(rules, LastOf(before), InputOf(c)) == Ok(c)
  {
    AcceptedIsLinked(rules, before + [c]);
    LinkedStep(rules, before, c);
    AcceptedIsLinked(rules, before);
    if before != [] {
      LastIsLinked(rules, before);
    }
    FittingIsAppended(rules, before, c);
  }

  /** Every accepted chain of one job is what appending its own fields rebuilds. */
  lemma {:induction false} AcceptedIsAppended(rules: Rules, cs: seq<Checkpoint>)
    requires Standard(rules) && Accepted(rules, cs)
    requires forall i, j :: 0 <= i < j < |cs| ==> cs[i].jobId == cs[j].jobId
    ensures AppendAll(rules, InputsOf(cs)) == Ok(cs)
  {
    if cs != [] {
      var before, c := cs[..|cs| - 1], cs[|cs| - 1];
      assert cs == before + [c];
      AppendReproduces(rules, before, c);
      AcceptedIsAppended(rules, before);
      assert InputsOf(cs)[..|InputsOf(cs)| - 1] == InputsOf(before);
    }
  }
}
