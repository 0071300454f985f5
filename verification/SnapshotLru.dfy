/** The cache-break detector: a bounded store of prompt snapshots and one-shot suppressions. */
module SnapshotLru {
  import opened Prelude

  datatype Message = Message(role: string, content: string)

  datatype Prompt = Prompt(
    jobId: string,
    roleStepId: string,
    messages: seq<Message>,
    systemPrompt: string,
    toolsHash: string,
    ts: real,
    querySource: string,
    expectedCacheReadTokens: real,
    parentHash: string)

  datatype Snapshot = Snapshot(prompt: Prompt, messagesHash: string, systemPromptHash: string)

  datatype Hashes = Hashes(messages: seq<Message> -> string, text: string -> string)

  predicate PromptOk(p: Prompt) {
    && p.jobId != "" && p.roleStepId != "" && p.querySource != "" && p.parentHash != "" && p.toolsHash != ""
    && p.expectedCacheReadTokens >= 0.0
  }

  function SnapshotOf(h: Hashes, p: Prompt): Snapshot {
    Snapshot(p, h.messages(p.messages), h.text(p.systemPrompt))
  }

  function Source(s: Snapshot): string {
    s.prompt.querySource
  }

  // ---- An insertion-ordered map from sources to snapshots, oldest entry first ------------------

  function Find(xs: seq<Snapshot>, source: string): Option<Snapshot> {
    if xs == [] then None
    else if Source(xs[0]) == source then Some(xs[0])
    else Find(xs[1..], source)
  }

  function Without(xs: seq<Snapshot>, source: string): seq<Snapshot> {
    if xs == [] then []
    else if Source(xs[0]) == source then Without(xs[1..], source)
    else [xs[0]] + Without(xs[1..], source)
  }

  function Sources(xs: seq<Snapshot>): set<string> {
    set x | x in xs :: Source(x)
  }

  predicate Distinct(xs: seq<Snapshot>) {
    forall i, j :: 0 <= i < j < |xs| ==> Source(xs[i]) != Source(xs[j])
  }

  // ---- The unbounded log ------------------------------------------------------------------------

  /** The latest snapshot of every source, least recently recorded source first. */
  function Latest(log: seq<Snapshot>): seq<Snapshot> {
    if log == [] then []
    else if Source(log[0]) in Sources(log[1..]) then Latest(log[1..])
    else [log[0]] + Latest(log[1..])
  }

  function Newest(max: nat, xs: seq<Snapshot>): seq<Snapshot> {
    if |xs| <= max then xs else xs[|xs| - max..]
  }

  predicate IsLastOf(log: seq<Snapshot>, i: int, source: string) {
    0 <= i < |log| && Source(log[i]) == source && forall j :: i < j < |log| ==> Source(log[j]) != source
  }

  /** Fewer than `max` other sources have been recorded since position `i`. */
  predicate Recent(max: nat, log: seq<Snapshot>, i: int)
    requires 0 <= i < |log|
  {
    |Sources(log[i + 1..])| < max
  }

  // ---- What recording does to the latest snapshots ---------------------------------------------

  lemma {:induction false} WithoutOthers(xs: seq<Snapshot>, source: string)
    requires source !in Sources(xs)
    ensures Without(xs, source) == xs
  {
    if xs != [] {
      WithoutOthers(xs[1..], source);
    }
  }

  lemma {:induction false} WithoutDistributes(xs: seq<Snapshot>, ys: seq<Snapshot>, source: string)
    ensures Without(xs + ys, source) == Without(xs, source) + Without(ys, source)
  {
    if xs == [] {
      assert xs + ys == ys;
    } else {
      assert (xs + ys)[1..] == xs[1..] + ys;
      WithoutDistributes(xs[1..], ys, source);
    }
  }

  lemma SourcesOfConcat(xs: seq<Snapshot>, ys: seq<Snapshot>)
    ensures Sources(xs + ys) == Sources(xs) + Sources(ys)
  {
  }

  lemma SourcesOfOne(x: Snapshot)
    ensures Sources([x]) == {Source(x)}
  {
    assert x in [x];
  }

  lemma DistinctCons(x: Snapshot, xs: seq<Snapshot>)
    requires Distinct(xs) && Source(x) !in Sources(xs)
    ensures Distinct([x] + xs)
  {
    assert forall y :: y in xs ==> Source(y) in Sources(xs);
  }

  lemma {:induction false} LatestHasEverySource(log: seq<Snapshot>)
    ensures Sources(Latest(log)) == Sources(log) && Distinct(Latest(log))
    ensures |Latest(log)| == |Sources(log)|
  {
    if log != [] {
      var rest := log[1..];
      LatestHasEverySource(rest);
      assert log == [log[0]] + rest;
      SourcesOfOne(log[0]);
      SourcesOfConcat([log[0]], rest);
      if Source(log[0]) in Sources(rest) {
        assert Sources(log) == Sources(rest);
      } else {
        SourcesOfConcat([log[0]], Latest(rest));
        DistinctCons(log[0], Latest(rest));
      }
    }
  }

  lemma LatestCons(x: Snapshot, rest: seq<Snapshot>)
    ensures Latest([x] + rest) == if Source(x) in Sources(rest) then Latest(rest) else [x] + Latest(rest)
  {
    assert ([x] + rest)[1..] == rest;
  }

  lemma WithoutCons(x: Snapshot, rest: seq<Snapshot>, source: string)
    ensures Without([x] + rest, source) == if Source(x) == source then Without(rest, source) else [x] + Without(rest, source)
  {
    assert ([x] + rest)[1..] == rest;
  }

  lemma SourceInAppend(rest: seq<Snapshot>, s: Snapshot, source: string)
    ensures source in Sources(rest + [s]) <==> source in Sources(rest) || source == Source(s)
  {
    SourcesOfOne(s);
    SourcesOfConcat(rest, [s]);
  }

  /** Recording moves its source to the recent end. */
  lemma {:induction false} LatestAfterRecord(log: seq<Snapshot>, s: Snapshot)
    ensures Latest(log + [s]) == Without(Latest(log), Source(s)) + [s]
  {
    if log == [] {
      assert log + [s] == [s] && Latest([s]) == [s];
    } else {
      var x, rest := log[0], log[1..];
      LatestAfterRecord(rest, s);
      LatestStep(x, rest, s);
      assert log == [x] + rest;
    }
  }

  lemma LatestStep(x: Snapshot, rest: seq<Snapshot>, s: Snapshot)
    requires Latest(rest + [s]) == Without(Latest(rest), Source(s)) + [s]
    ensures Latest([x] + rest + [s]) == Without(Latest([x] + rest), Source(s)) + [s]
  {
    assert [x] + rest + [s] == [x] + (rest + [s]);
    LatestCons(x, rest + [s]);
    LatestCons(x, rest);
    SourceInAppend(rest, s, Source(x));
    WithoutCons(x, Latest(rest), Source(s));
  }

  lemma {:induction false} WithoutLength(xs: seq<Snapshot>, source: string)
    requires Distinct(xs)
    ensures |Without(xs, source)| == |xs| - (if Find(xs, source).Some? then 1 else 0)
  {
    if xs != [] {
      WithoutLength(xs[1..], source);
      if Source(xs[0]) == source {
        WithoutOthers(xs[1..], source);
        assert Find(xs[1..], source).None? by { FindMeans(xs[1..], source); }
      }
    }
  }

  lemma {:induction false} FindMeans(xs: seq<Snapshot>, source: string)
    ensures Find(xs, source).Some? <==> source in Sources(xs)
  {
    if xs != [] {
      FindMeans(xs[1..], source);
      assert Sources(xs) == {Source(xs[0])} + Sources(xs[1..]);
    }
  }

  /** Dropping the oldest entries before or after a recording makes no difference. */
  lemma NewestAfterRecord(max: nat, xs: seq<Snapshot>, s: Snapshot)
    requires max > 0 && Distinct(xs)
    ensures Newest(max, Without(xs, Source(s)) + [s]) == Newest(max, Without(Newest(max, xs), Source(s)) + [s])
  {
    if |xs| > max {
      var early, late := xs[..|xs| - max], Newest(max, xs);
      assert xs == early + late;
      WithoutDistributes(early, late, Source(s));
      WithoutLength(late, Source(s));
      FindMeans(late, Source(s));
      if Source(s) in Sources(late) {
        var x :| x in late && Source(x) == Source(s);
        assert Source(s) !in Sources(early);
        WithoutOthers(early, Source(s));
      }
      assert Without(xs, Source(s)) + [s] == Without(early, Source(s)) + (Without(late, Source(s)) + [s]);
    }
  }

  // ---- What the bounded store remembers -----------------------------------------------------------

  lemma {:induction false} SourcesMeans(log: seq<Snapshot>, source: string)
    ensures source in Sources(log) <==> exists i :: IsLastOf(log, i, source)
  {
    if log != [] {
      var rest := log[1..];
      SourcesMeans(rest, source);
      assert Sources(log) == {Source(log[0])} + Sources(rest);
      if source in Sources(rest) {
        var i :| IsLastOf(rest, i, source);
        assert IsLastOf(log, i + 1, source);
      } else {
        assert forall x :: x in rest ==> Source(x) != source;
        if Source(log[0]) == source {
          assert IsLastOf(log, 0, source);
        }
      }
    }
  }

  lemma StoreFindsFirst(max: nat, log: seq<Snapshot>, source: string)
    requires IsLastOf(log, 0, source)
    ensures Find(Newest(max, Latest(log)), source) == if Recent(max, log, 0) then Some(log[0]) else None
  {
    var rest := log[1..];
    LatestHasEverySource(rest);
    assert forall x :: x in rest ==> Source(x) != source;
    FindMeans(Newest(max, Latest(rest)), source);
    assert forall x :: x in Latest(rest) ==> Source(x) in Sources(Latest(rest));
    NewestOfCons(max, log[0], Latest(rest));
  }

  /** The store finds the last snapshot of a source exactly while that source is among the `max` most recent. */
  lemma {:induction false} StoreFinds(max: nat, log: seq<Snapshot>, source: string, i: nat)
    requires IsLastOf(log, i, source)
    ensures Find(Newest(max, Latest(log)), source) == if Recent(max, log, i) then Some(log[i]) else None
  {
    if i == 0 {
      StoreFindsFirst(max, log, source);
    } else {
      var rest := log[1..];
      assert rest[i - 1] == log[i] && IsLastOf(rest, i - 1, source) && rest[i - 1 + 1..] == log[i + 1..];
      StoreFinds(max, rest, source, i - 1);
      LatestHasEverySource(rest);
      NewestOfCons(max, log[0], Latest(rest));
      assert log[i] in rest;
    }
  }

  lemma NewestOfCons(max: nat, x: Snapshot, xs: seq<Snapshot>)
    ensures Newest(max, [x] + xs) == if |xs| < max then [x] + Newest(max, xs) else Newest(max, xs)
  {
    assert |xs| == max > 0 ==> ([x] + xs)[1..] == xs;
  }

  /** What is remembered for a source, said of the log alone. */
  ghost predicate Remembers(max: nat, log: seq<Snapshot>, source: string, found: Option<Snapshot>) {
    match found
    case Some(s) => exists i :: IsLastOf(log, i, source) && Recent(max, log, i) && s == log[i]
    case None => forall i :: IsLastOf(log, i, source) ==> !Recent(max, log, i)
  }

  lemma StoreRemembers(max: nat, log: seq<Snapshot>, source: string)
    ensures Remembers(max, log, source, Find(Newest(max, Latest(log)), source))
  {
    if i :| IsLastOf(log, i, source) {
      StoreFinds(max, log, source, i);
    } else {
      SourcesMeans(log, source);
      LatestHasEverySource(log);
      FindMeans(Newest(max, Latest(log)), source);
      assert forall x :: x in Latest(log) ==> Source(x) in Sources(Latest(log));
    }
  }

  // ---- Suppressions --------------------------------------------------------------------------------

  datatype Reason = Compaction | CacheDeletion

  /** What can bear on whether a break is reported. */
  datatype Incident = Notice(job: string, reason: Reason) | Break(job: string)

  /** The incident that decides whether the next break of `job` is suppressed: its latest one. */
  predicate IsLatest(history: seq<Incident>, i: int, job: string) {
    0 <= i < |history| && history[i].job == job && forall j :: i < j < |history| ==> history[j].job != job
  }

  /** A suppression is pending exactly if the job's latest incident is a notice, and it is that notice's. */
  ghost predicate PendingFits(history: seq<Incident>, pending: map<string, Reason>) {
    forall job ::
      && (job in pending ==> exists i :: IsLatest(history, i, job) && history[i] == Notice(job, pending[job]))
      && (forall i :: IsLatest(history, i, job) && history[i].Notice? ==> job in pending)
  }

  lemma PendingAfter(history: seq<Incident>, pending: map<string, Reason>, next: Incident, then_: map<string, Reason>)
    requires PendingFits(history, pending)
    requires then_ == if next.Notice? then pending[next.job := next.reason] else pending - {next.job}
    ensures PendingFits(history + [next], then_)
  {
    var more := history + [next];
    assert IsLatest(more, |history|, next.job);
    forall job
      ensures job in then_ ==> exists i :: IsLatest(more, i, job) && more[i] == Notice(job, then_[job])
      ensures forall i :: IsLatest(more, i, job) && more[i].Notice? ==> job in then_
    {
      if job != next.job {
        assert forall i :: IsLatest(more, i, job) ==> IsLatest(history, i, job) && more[i] == history[i];
        if job in then_ {
          var i :| IsLatest(history, i, job) && history[i] == Notice(job, pending[job]);
          assert IsLatest(more, i, job) && more[i] == history[i];
        }
      } else {
        assert job in then_ ==> more[|history|] == Notice(job, then_[job]);
        assert forall i :: IsLatest(more, i, job) ==> i == |history|;
      }
    }
  }

  const READ_RATIO_THRESHOLD := 0.05
  const MIN_CREATION_TOKENS := 2000.0
  const MAX_SNAPSHOTS := 10

  /** The response looks like an unexpected cache invalidation. */
  predicate IsBreak(read: real, creation: real, previous: Option<Snapshot>, current: Snapshot) {
    && previous.Some? && current.prompt.expectedCacheReadTokens > 0.0
    && read < READ_RATIO_THRESHOLD * current.prompt.expectedCacheReadTokens && creation > MIN_CREATION_TOKENS
  }

  /** A break is less than a twentieth of the expected reads, and more than 2000 tokens written anew. */
  lemma BreakMeans(read: real, creation: real, previous: Option<Snapshot>, current: Snapshot)
    ensures IsBreak(read, creation, previous, current) <==>
              && previous.Some? && 0.0 < current.prompt.expectedCacheReadTokens
              && 20.0 * read < current.prompt.expectedCacheReadTokens && 2000.0 < creation
  {
  }

  /** A prompt is rejected for an empty name or a negative expectation; its snapshot carries its own hashes. */
  lemma PromptMeans(h: Hashes, p: Prompt)
    ensures PromptOk(p) <==>
              "" !in [p.jobId, p.roleStepId, p.querySource, p.parentHash, p.toolsHash] && !(p.expectedCacheReadTokens < 0.0)
    ensures SnapshotOf(h, p).prompt == p && Source(SnapshotOf(h, p)) == p.querySource
    ensures SnapshotOf(h, p).messagesHash == h.messages(p.messages) && SnapshotOf(h, p).systemPromptHash == h.text(p.systemPrompt)
    ensures MAX_SNAPSHOTS == 10
  {
  }

  datatype CheckOutcome = Quiet | Suppressed(reason: Reason) | Fired

  // ---- The detector ------------------------------------------------------------------------------------

  class Detector {
    const max: nat
    const hashes: Hashes
    var snapshots: seq<Snapshot>
    var pending: map<string, Reason>
    ghost var log: seq<Snapshot>
    ghost var history: seq<Incident>

    ghost predicate Valid()
      reads this
    {
      max > 0 && snapshots == Newest(max, Latest(log)) && PendingFits(history, pending)
    }

    constructor (hashes: Hashes, max: nat)
      requires max > 0
      ensures Valid() && this.max == max && this.hashes == hashes && log == [] && history == []
    {
      this.max := max;
      this.hashes := hashes;
      snapshots := [];
      pending := map[];
      log := [];
      history := [];
    }

    /** Moves `s` to the recent end and evicts the oldest entries. */
    method Touch(s: Snapshot)
      requires max > 0
      modifies this`snapshots
      ensures snapshots == Newest(max, Without(old(snapshots), Source(s)) + [s])
    {
      snapshots := Without(snapshots, Source(s));
      snapshots := snapshots + [s];
      ghost var all := snapshots;
      while |snapshots| > max
        invariant |snapshots| <= |all| && snapshots == all[|all| - |snapshots|..]
        invariant |snapshots| >= Min(max, |all|)
      {
        snapshots := snapshots[1..];
      }
    }

    /** Stores the snapshot and returns the last one of its source, if still remembered; raises on a malformed prompt. */
    method RecordPromptState(p: Prompt) returns (r: Result<(Snapshot, Option<Snapshot>), ()>)
      requires Valid()
      modifies this`snapshots, this`log
      ensures Valid()
      ensures r.Ok? <==> PromptOk(p)
      ensures r.Ok? ==>
                && r.value.0 == SnapshotOf(hashes, p) && log == old(log) + [r.value.0]
                && Remembers(max, old(log), p.querySource, r.value.1)
      ensures r.Err? ==> log == old(log) && snapshots == old(snapshots)
    {
      if !PromptOk(p) {
        return Err(());
      }
      var previous := Find(snapshots, p.querySource);
      StoreRemembers(max, log, p.querySource);
      LatestHasEverySource(log);
      WithoutLength(snapshots, p.querySource);
      if previous.Some? {
        WithoutTwice(snapshots, p.querySource);
        snapshots := Without(snapshots, p.querySource);
      } else {
        FindMeans(snapshots, p.querySource);
        WithoutOthers(snapshots, p.querySource);
      }
      var s := SnapshotOf(hashes, p);
      WithoutTwice(snapshots, p.querySource);
      Touch(s);
      NewestAfterRecord(max, Latest(log), s);
      LatestAfterRecord(log, s);
      log := log + [s];
      return Ok((s, previous));
    }

    /** A break is reported unless the latest incident of its job is a notice; either way it uses the notice up. */
    method CheckResponse(read: real, creation: real, previous: Option<Snapshot>, current: Snapshot)
      returns (r: Result<CheckOutcome, ()>)
      requires Valid()
      modifies this`pending, this`history
      ensures Valid()
      ensures r.Err? <==> read < 0.0 || creation < 0.0
      ensures var job := current.prompt.jobId;
              if r.Err? || !IsBreak(read, creation, previous, current) then
                history == old(history) && pending == old(pending) && (r.Ok? ==> r.value == Quiet)
              else
                && history == old(history) + [Break(job)]
                && (forall reason :: r.value == Suppressed(reason) <==>
                                     exists i :: IsLatest(old(history), i, job) && old(history)[i] == Notice(job, reason))
                && r.value != Quiet
    {
      if read < 0.0 || creation < 0.0 {
        return Err(());
      }
      if previous.None? {
        return Ok(Quiet);
      }
      var expected := current.prompt.expectedCacheReadTokens;
      if expected <= 0.0 {
        return Ok(Quiet);
      }
      var fired := read < READ_RATIO_THRESHOLD * expected && creation > MIN_CREATION_TOKENS;
      if !fired {
        return Ok(Quiet);
      }
      var job := current.prompt.jobId;
      PendingAfter(history, pending, Break(job), pending - {job});
      history := history + [Break(job)];
      if job in pending {
        var reason := pending[job];
        pending := pending - {job};
        return Ok(Suppressed(reason));
      }
      assert pending == pending - {job};
      return Ok(Fired);
    }

    /** `notifyCompaction` and `notifyCacheDeletion`: the later notice replaces an earlier one. */
    method Notify(job: string, text: string, reason: Reason) returns (ok: bool)
      requires Valid()
      modifies this`pending, this`history
      ensures Valid()
      ensures ok <==> job != "" && text != ""
      ensures history == if ok then old(history) + [Notice(job, reason)] else old(history)
    {
      ok := job != "" && text != "";
      if ok {
        PendingAfter(history, pending, Notice(job, reason), pending[job := reason]);
        pending := pending[job := reason];
        history := history + [Notice(job, reason)];
      }
    }
  }

  /** A detector for a positive number of snapshots; raises otherwise. */
  method CreateDetector(hashes: Hashes, runDir: string, max: int := MAX_SNAPSHOTS) returns (r: Result<Detector, ()>)
    ensures r.Ok? <==> max > 0 && runDir != ""
    ensures r.Ok? ==> fresh(r.value) && r.value.Valid() && r.value.max == max && r.value.log == [] && r.value.history == []
  {
    if max <= 0 {
      return Err(());
    }
    if runDir == "" {
      return Err(());
    }
    var detector := new Detector(hashes, max);
    return Ok(detector);
  }

  function Min(a: nat, b: nat): nat {
    if a <= b then a else b
  }

  lemma {:induction false} WithoutTwice(xs: seq<Snapshot>, source: string)
    ensures Without(Without(xs, source), source) == Without(xs, source)
  {
    if xs != [] {
      WithoutTwice(xs[1..], source);
    }
  }
}
