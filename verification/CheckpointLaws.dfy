/** What the verdict on a chain and an append mean, position by position and field by field. */
module CheckpointLaws {
  import opened Prelude
  import opened Ordering
  import opened CheckpointChain

  predicate IsZeros(h: string) {
    |h| == 64 && forall k :: 0 <= k < |h| ==> h[k] == '0'
  }

  lemma SentinelIs(h: string)
    ensures h == ROOT_PARENT_HASH <==> IsZeros(h)
  {
  }

  // ---- Acceptance ------------------------------------------------------------------------------

  /** Earlier checkpoints of the same run name the same parent. */
  ghost predicate AgreesWithRun(cs: seq<Checkpoint>, i: nat)
    requires i < |cs|
  {
    forall j :: 0 <= j < i && cs[j].runId == cs[i].runId ==> cs[j].parentRunId == cs[i].parentRunId
  }

  ghost predicate IsKnownRun(cs: seq<Checkpoint>, n: nat, runId: string)
    requires n <= |cs|
  {
    exists j :: 0 <= j < n && cs[j].runId == runId
  }

  /** A run that starts behind the root continues a run that has already started. */
  ghost predicate StartsFromKnown(cs: seq<Checkpoint>, i: nat)
    requires i < |cs|
  {
    i == 0 || IsKnownRun(cs, i, cs[i].runId) || (cs[i].parentRunId.Some? && IsKnownRun(cs, i, cs[i].parentRunId.value))
  }

  ghost predicate PointsBack(rules: Rules, cs: seq<Checkpoint>, i: nat)
    requires i < |cs|
  {
    if i == 0 then IsZeros(cs[0].parentHash) else cs[i].parentHash == rules.hash(cs[i - 1])
  }

  ghost predicate RunIsRight(cs: seq<Checkpoint>, i: nat)
    requires i < |cs|
  {
    AgreesWithRun(cs, i) && StartsFromKnown(cs, i)
  }

  ghost predicate IsInPlace(rules: Rules, cs: seq<Checkpoint>, i: nat)
    requires i < |cs|
  {
    cs[i].chainIndex == i && rules.defect(cs[i]).None? && PointsBack(rules, cs, i) && RunIsRight(cs, i)
  }

  lemma {:induction false} ParentsAre(cs: seq<Checkpoint>)
    requires forall i :: 0 <= i < |cs| ==> AgreesWithRun(cs, i)
    ensures forall r :: r in Parents(cs) <==> IsKnownRun(cs, |cs|, r)
    ensures forall j :: 0 <= j < |cs| ==> cs[j].runId in Parents(cs) && Parents(cs)[cs[j].runId] == cs[j].parentRunId
  {
    if cs != [] {
      var n := |cs| - 1;
      var before := cs[..n];
      forall i | 0 <= i < n ensures AgreesWithRun(before, i) {
        assert AgreesWithRun(cs, i);
      }
      ParentsAre(before);
      assert AgreesWithRun(cs, n);
      forall j | 0 <= j < |cs| ensures cs[j].runId in Parents(cs) && Parents(cs)[cs[j].runId] == cs[j].parentRunId {
        if j < n {
          assert before[j] == cs[j];
        } else if cs[n].runId in Parents(before) {
          assert IsKnownRun(before, n, cs[n].runId);
          var m :| 0 <= m < n && before[m].runId == cs[n].runId;
          assert cs[m].parentRunId == cs[n].parentRunId;
        }
      }
      forall r ensures r in Parents(cs) <==> IsKnownRun(cs, |cs|, r) {
        if r in Parents(before) {
          assert IsKnownRun(before, n, r);
          var m :| 0 <= m < n && before[m].runId == r;
          assert cs[m].runId == r;
        }
      }
    }
  }

  lemma RunFitsMeans(cs: seq<Checkpoint>, i: nat)
    requires i < |cs| && forall k :: 0 <= k < i ==> AgreesWithRun(cs, k)
    ensures RunFits(Parents(cs[..i]), i, cs[i]) <==> RunIsRight(cs, i)
  {
    var before := cs[..i];
    forall k | 0 <= k < i ensures AgreesWithRun(before, k) {
      assert AgreesWithRun(cs, k);
    }
    ParentsAre(before);
    forall r ensures IsKnownRun(before, i, r) <==> IsKnownRun(cs, i, r) {
      if IsKnownRun(cs, i, r) {
        var m :| 0 <= m < i && cs[m].runId == r;
        assert before[m].runId == r;
      }
    }
    if IsKnownRun(cs, i, cs[i].runId) {
      var m :| 0 <= m < i && cs[m].runId == cs[i].runId;
      assert before[m] == cs[m];
      assert Parents(before)[cs[i].runId] == cs[m].parentRunId;
      forall j | 0 <= j < i && cs[j].runId == cs[i].runId ensures cs[j].parentRunId == cs[m].parentRunId {
        assert before[j] == cs[j];
      }
    }
  }

  lemma LinkFitsMeans(rules: Rules, cs: seq<Checkpoint>, i: nat)
    requires i < |cs| && forall k :: 0 <= k < i ==> AgreesWithRun(cs, k)
    ensures LinkFits(rules, cs[..i], cs[i]) <==> IsInPlace(rules, cs, i)
  {
    RunFitsMeans(cs, i);
    SentinelIs(cs[0].parentHash);
  }

  /**
   * A chain is accepted exactly if every checkpoint carries its position, is well-formed, carries the hash of the one
   * before it, or 64 zeros, agrees with its run on the parent run and starts a new run only from a known one.
   */
  lemma AcceptedIff(rules: Rules, cs: seq<Checkpoint>)
    ensures Accepted(rules, cs) <==> forall i :: 0 <= i < |cs| ==> IsInPlace(rules, cs, i)
  {
    AcceptedIsLinked(rules, cs);
    if Accepted(rules, cs) {
      forall i | 0 <= i < |cs| ensures AgreesWithRun(cs, i) {
        RunsAgree(rules, cs, i);
      }
      forall i | 0 <= i < |cs| ensures IsInPlace(rules, cs, i) {
        LinkFitsMeans(rules, cs, i);
      }
    }
    if forall i :: 0 <= i < |cs| ==> IsInPlace(rules, cs, i) {
      forall i | 0 <= i < |cs| ensures LinkFits(rules, cs[..i], cs[i]) {
        forall k | 0 <= k < i ensures AgreesWithRun(cs, k) {
          assert IsInPlace(rules, cs, k);
        }
        LinkFitsMeans(rules, cs, i);
      }
    }
  }

  lemma RunsAgree(rules: Rules, cs: seq<Checkpoint>, i: nat)
    requires i < |cs| && Accepted(rules, cs)
    ensures AgreesWithRun(cs, i)
  {
    forall j | 0 <= j < i && cs[j].runId == cs[i].runId ensures cs[j].parentRunId == cs[i].parentRunId {
      RunsAgreeOnParent(rules, cs, i);
      RunsAgreeOnParent(rules, cs, j);
    }
  }

  /** The head of an accepted chain. */
  lemma HeadIs(rules: Rules, cs: seq<Checkpoint>)
    requires Accepted(rules, cs)
    ensures Judge(rules, cs).length == |cs|
    ensures if cs == [] then IsZeros(Judge(rules, cs).head) else Judge(rules, cs).head == rules.hash(cs[|cs| - 1])
  {
    AcceptedIsLinked(rules, cs);
  }

  /** What is reported for the first checkpoint out of place, and where. */
  lemma FirstBreak(rules: Rules, cs: seq<Checkpoint>, i: nat)
    requires i < |cs| && forall k :: 0 <= k < i ==> IsInPlace(rules, cs, k)
    ensures 0 <= cs[i].chainIndex < i ==> Judge(rules, cs) == Broken(cs[i].chainIndex, DuplicateChainIndex)
    ensures cs[i].chainIndex < 0 || i < cs[i].chainIndex ==> Judge(rules, cs) == Broken(i, ChainIndexMismatch)
    ensures cs[i].chainIndex == i && rules.defect(cs[i]).Some? ==> Judge(rules, cs) == Broken(i, rules.defect(cs[i]).value)
    ensures cs[i].chainIndex == i && rules.defect(cs[i]).None? && !PointsBack(rules, cs, i) ==>
              Judge(rules, cs) == Broken(i, if i == 0 then MissingRoot else ParentHashMismatch)
    ensures cs[i].chainIndex == i && rules.defect(cs[i]).None? && PointsBack(rules, cs, i) && !RunIsRight(cs, i) ==>
              Judge(rules, cs) == Broken(i, SchemaViolation)
  {
    var before := cs[..i];
    forall k | 0 <= k < i ensures IsInPlace(rules, before, k) && AgreesWithRun(cs, k) {
      assert IsInPlace(rules, cs, k);
      InPlaceInPrefix(rules, cs, i, k);
    }
    AcceptedIff(rules, before);
    LinkFitsMeans(rules, cs, i);
    RunFitsMeans(cs, i);
    SentinelIs(cs[0].parentHash);
    FitsIffUndiagnosed(rules, before, cs[i]);
    if Diagnose(rules, before, cs[i]).Some? {
      BreakAt(rules, cs, i);
    }
  }

  lemma InPlaceInPrefix(rules: Rules, cs: seq<Checkpoint>, n: nat, k: nat)
    requires k < n <= |cs| && IsInPlace(rules, cs, k)
    ensures IsInPlace(rules, cs[..n], k)
  {
    var before := cs[..n];
    forall r | IsKnownRun(cs, k, r) ensures IsKnownRun(before, k, r) {
      var j :| 0 <= j < k && cs[j].runId == r;
      assert before[j].runId == r;
    }
  }

  // ---- The structural check ----------------------------------------------------------------------

  predicate FormIsRight(s: Schema, c: Checkpoint) {
    && s.core(c.jobId, c.detail)
    && "" !in c.nextSteps
    && forall i :: 0 <= i < |c.nextSteps| - 1 ==> Less(c.nextSteps[i], c.nextSteps[i + 1])
  }

  predicate LinkIsRight(s: Schema, c: Checkpoint) {
    s.errorClass(c.detail) && s.isHex(c.parentHash) && 0 <= c.chainIndex && (c.chainIndex == 0 ==> IsZeros(c.parentHash))
  }

  predicate LineageIsRight(s: Schema, c: Checkpoint) {
    match c.parentRunId
    case None => s.isUuid(c.runId)
    case Some(parent) => s.isUuid(c.runId) && s.isUuid(parent) && parent != c.runId && c.chainIndex != 0
  }

  predicate UsageIsRight(c: Checkpoint) {
    0 <= c.promptTokens && 0 <= c.completionTokens
  }

  /** Which checkpoints pass the structural check, and which of the two reasons the others get. */
  lemma DefectMeans(s: Schema, c: Checkpoint)
    ensures Defect(s, c).None? <==>
              FormIsRight(s, c) && s.times(c.detail) && LinkIsRight(s, c) && LineageIsRight(s, c) && UsageIsRight(c)
    ensures Defect(s, c) == Some(SchemaInvalid) <==> !FormIsRight(s, c) || (s.times(c.detail) && !LinkIsRight(s, c))
    ensures Defect(s, c) == Some(SchemaViolation) <==>
              FormIsRight(s, c) && (!s.times(c.detail) || (LinkIsRight(s, c) && !(LineageIsRight(s, c) && UsageIsRight(c))))
  {
    SentinelIs(c.parentHash);
    StepsAre(c.nextSteps);
  }

  lemma StepsAre(steps: seq<string>)
    ensures CanonicalSteps(steps) <==> "" !in steps && forall i :: 0 <= i < |steps| - 1 ==> Less(steps[i], steps[i + 1])
  {
    if forall i :: 0 <= i < |steps| - 1 ==> Less(steps[i], steps[i + 1]) {
      forall i, j | 0 <= i < j < |steps| ensures Less(steps[i], steps[j]) {
        NeighboursSuffice(steps, i, j);
      }
    }
  }

  // ---- Appending -----------------------------------------------------------------------------------

  /** `c` takes its fields from `input` and follows `previous`. */
  ghost predicate Follows(rules: Rules, previous: Option<Checkpoint>, input: AppendInput, c: Checkpoint) {
    && c.jobId == input.jobId && c.detail == input.detail
    && c.runId == input.runId && c.parentRunId == input.parentRunId
    && c.promptTokens == input.promptTokens && c.completionTokens == input.completionTokens
    && multiset(c.nextSteps) == multiset(input.nextSteps)
    && (forall i, j :: 0 <= i < j < |c.nextSteps| ==> Leq(c.nextSteps[i], c.nextSteps[j]))
    && (if previous.None? then IsZeros(c.parentHash) && c.chainIndex == 0
        else c.parentHash == rules.hash(previous.value) && c.chainIndex == previous.value.chainIndex + 1)
  }

  ghost predicate HasBadStep(steps: seq<string>) {
    "" in steps || exists i, j :: 0 <= i < j < |steps| && steps[i] == steps[j]
  }

  /** What an append answers, and the only checkpoint it can produce. */
  lemma AppendMeans(rules: Rules, previous: Option<Checkpoint>, input: AppendInput)
    ensures previous.Some? && rules.defect(previous.value).Some? ==> Append(rules, previous, input) == Err(InvalidPrevious)
    ensures previous.Some? && rules.defect(previous.value).None? && previous.value.jobId != input.jobId ==>
              Append(rules, previous, input) == Err(JobMismatch)
    ensures (previous.None? || (rules.defect(previous.value).None? && previous.value.jobId == input.jobId)) ==>
              && (HasBadStep(input.nextSteps) ==> Append(rules, previous, input) == Err(BadSteps))
              && (!HasBadStep(input.nextSteps) ==>
                    exists c :: Follows(rules, previous, input, c) &&
                                Append(rules, previous, input) == if rules.defect(c).None? then Ok(c) else Err(InvalidCheckpoint))
  {
    BadStepsIff(input.nextSteps);
    if previous.None? || (rules.defect(previous.value).None? && previous.value.jobId == input.jobId) {
      if !HasBadStep(input.nextSteps) {
        var c := Checkpoint(
          input.jobId, input.detail, SortSteps(input.nextSteps), NextParentHash(rules, previous), NextIndex(previous),
          input.runId, input.parentRunId, input.promptTokens, input.completionTokens);
        SentinelIs(c.parentHash);
        SortedSteps(input.nextSteps);
        assert Follows(rules, previous, input, c);
      }
    }
  }

  lemma SortedSteps(steps: seq<string>)
    ensures multiset(SortSteps(steps)) == multiset(steps)
    ensures forall i, j :: 0 <= i < j < |SortSteps(steps)| ==> Leq(SortSteps(steps)[i], SortSteps(steps)[j])
  {
    SortBySorts(Identity, steps);
    forall i, j | 0 <= i < j < |SortSteps(steps)| ensures Leq(SortSteps(steps)[i], SortSteps(steps)[j]) {
      assert Leq(Identity(SortSteps(steps)[i]), Identity(SortSteps(steps)[j]));
    }
  }

  lemma BadStepsIff(steps: seq<string>)
    ensures CanonicalSteps(SortSteps(steps)) <==> !HasBadStep(steps)
  {
    var sorted := SortSteps(steps);
    SortedSteps(steps);
    SortBySorts(Identity, steps);
    assert "" in steps <==> "" in multiset(steps);
    assert "" in sorted <==> "" in multiset(sorted);
    if !HasBadStep(steps) {
      assert DistinctKeys(Identity, steps);
      DistinctKeysPermute(Identity, steps, sorted);
      forall i, j | 0 <= i < j < |sorted| ensures Less(sorted[i], sorted[j]) {
        assert Identity(sorted[i]) != Identity(sorted[j]);
      }
    }
    if CanonicalSteps(sorted) {
      forall i, j | 0 <= i < j < |sorted| ensures Identity(sorted[i]) != Identity(sorted[j]) {
        assert Less(sorted[i], sorted[j]);
      }
      DistinctKeysPermute(Identity, sorted, steps);
      forall i, j | 0 <= i < j < |steps| ensures steps[i] != steps[j] {
        assert Identity(steps[i]) != Identity(steps[j]);
      }
    }
  }

  /** The checkpoint that follows is unique. */
  lemma FollowsOnce(rules: Rules, previous: Option<Checkpoint>, input: AppendInput, c: Checkpoint, d: Checkpoint)
    requires Follows(rules, previous, input, c) && Follows(rules, previous, input, d) && !HasBadStep(input.nextSteps)
    ensures c == d
  {
    SentinelIs(c.parentHash);
    SentinelIs(d.parentHash);
    assert DistinctKeys(Identity, input.nextSteps);
    DistinctKeysPermute(Identity, input.nextSteps, c.nextSteps);
    SortedUnique(Identity, c.nextSteps, d.nextSteps);
  }
}
