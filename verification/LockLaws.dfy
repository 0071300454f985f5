/** What each lock call does, said of the directory before and after it, and what every logged event stands for. */
module LockLaws {
  import opened Prelude
  import opened ConsolidationLock

  // ---- Acquiring -----------------------------------------------------------------------------

  predicate IsNamed(h: Holder) {
    h.id != "" && 1 <= h.pid && h.host != ""
  }

  /** The claim and the clock of an acquire are fit to be recorded. */
  predicate Recordable(claim: Holder, now: int) {
    IsNamed(claim) && 0 <= now
  }

  /** The holder's process is gone, or it has had the lock for more than an hour. */
  predicate GaveUp(b: Body, now: int, alive: bool) {
    !alive || now - b.acquiredAt > 60 * 60 * 1000
  }

  ghost predicate Says(e: Event, kind: EventKind, holder: Holder, prior: Option<Prior>, at: int) {
    e.kind == kind && e.holder == holder && e.prior == prior && e.occurredAt == at
  }

  /** The log gained exactly one event. */
  ghost predicate Gained(before: seq<Event>, after: seq<Event>, kind: EventKind, holder: Holder, at: int) {
    && |after| == |before| + 1 && after[..|before|] == before
    && Says(after[|before|], kind, holder, None, at)
  }

  /** The log gained a takeover from `prior` and the taker's acquire. */
  ghost predicate GainedTakeover(before: seq<Event>, after: seq<Event>, holder: Holder, prior: Prior, at: int) {
    && |after| == |before| + 2 && after[..|before|] == before
    && Says(after[|before|], Takeover, holder, Some(prior), at) && Says(after[|before| + 1], Acquired, holder, None, at)
  }

  /** A held lock is refused exactly while its holder is alive and has had it for at most an hour. */
  lemma HeldIsRefusedIff(d: Digests, s: Dir, claim: Holder, now: int, created: int, alive: bool)
    requires Proper(d) && Consistent(d, s) && s.lock.Some? && s.lock.value.body.held && claim.id != ""
    ensures var b := s.lock.value.body;
            var (t, outcome) := Do(d, s, Acquire(claim, now, created, alive));
            && (outcome.Refused? <==> alive && now - b.acquiredAt <= 3600000)
            && (outcome.Refused? ==> outcome == Refused(b.holder, now - b.acquiredAt) && t == s)
  {
    RecordNeverRefuses(d, s, Acquire(claim, now, created, alive));
  }

  /** Otherwise the lock is taken over, with its modification time kept and the displaced holder named in the log. */
  lemma HeldIsTakenOver(d: Digests, s: Dir, claim: Holder, now: int, created: int, alive: bool)
    requires Proper(d) && Consistent(d, s) && s.lock.Some? && s.lock.value.body.held && Recordable(claim, now)
    ensures var f := s.lock.value;
            var (t, outcome) := Do(d, s, Acquire(claim, now, created, alive));
            && (outcome.Done? <==> GaveUp(f.body, now, alive))
            && (outcome.Done? ==>
                  && outcome == Done(f.mtime, true) && t.lock == Some(LockFile(Body(true, claim, now), f.mtime))
                  && GainedTakeover(s.events, t.events, claim, Prior(f.body.holder, f.body.acquiredAt), now))
  {
    var f := s.lock.value;
    RecordTakeover(d, LockFile(Body(true, claim, now), f.mtime), s.events, claim, Prior(f.body.holder, f.body.acquiredAt), now,
                   Done(f.mtime, true));
  }

  /** A lock that nobody holds is given to every recordable claim; a new file has no earlier modification time. */
  lemma FreeIsGiven(d: Digests, s: Dir, claim: Holder, now: int, created: int, alive: bool)
    requires Proper(d) && Consistent(d, s) && (s.lock.Some? ==> !s.lock.value.body.held)
    ensures var prior, mtime := if s.lock.Some? then s.lock.value.mtime else 0, if s.lock.Some? then s.lock.value.mtime else created;
            var (t, outcome) := Do(d, s, Acquire(claim, now, created, alive));
            && (outcome.Done? <==> Recordable(claim, now)) && (!outcome.Done? ==> outcome == Threw)
            && (outcome.Done? ==>
                  && outcome == Done(prior, false) && t.lock == Some(LockFile(Body(true, claim, now), mtime))
                  && Gained(s.events, t.events, Acquired, claim, now))
  {
    var mtime := if s.lock.Some? then s.lock.value.mtime else created;
    var prior := if s.lock.Some? then s.lock.value.mtime else 0;
    RecordOne(d, LockFile(Body(true, claim, now), mtime), s.events, AcquireSeed(claim, now), Done(prior, false));
  }

  // ---- Releasing and rolling back ------------------------------------------------------------

  /** Only the present holder can release; that advances the modification time to the release. */
  lemma ReleaseMeans(d: Digests, s: Dir, id: string, now: int)
    requires Proper(d) && Consistent(d, s) && now >= 0
    ensures var (t, outcome) := Do(d, s, Release(id, now));
            && (outcome.Done? <==> s.lock.Some? && s.lock.value.body.held && s.lock.value.body.holder.id == id)
            && (!outcome.Done? ==> outcome == Declined && t == s)
            && (outcome.Done? ==>
                  var b := s.lock.value.body;
                  && t.lock == Some(LockFile(Body(false, b.holder, b.acquiredAt), now))
                  && Gained(s.events, t.events, Released, b.holder, now))
  {
    if s.lock.Some? {
      var f := s.lock.value;
      RecordOne(d, LockFile(f.body.(held := false), now), s.events, Seed(Released, f.body.holder, None, now), Done(f.mtime, false));
    }
  }

  /** The last holder can roll back, held or not; that sets the modification time to the value it gives. */
  lemma RollbackMeans(d: Digests, s: Dir, id: string, prior: int, now: int)
    requires Proper(d) && Consistent(d, s) && now >= 0
    ensures var (t, outcome) := Do(d, s, Rollback(id, prior, now));
            && (outcome.Done? <==> s.lock.Some? && s.lock.value.body.holder.id == id)
            && (!outcome.Done? ==> outcome == Declined && t == s)
            && (outcome.Done? ==>
                  var b := s.lock.value.body;
                  && t.lock == Some(LockFile(Body(false, b.holder, b.acquiredAt), prior))
                  && Gained(s.events, t.events, RolledBack, b.holder, now))
  {
    if s.lock.Some? {
      var f := s.lock.value;
      RecordOne(d, LockFile(f.body.(held := false), prior), s.events, Seed(RolledBack, f.body.holder, None, now),
                Done(f.mtime, false));
    }
  }

  // ---- What a log stands for -----------------------------------------------------------------

  /** The state in which call `j` is made. */
  function Before(d: Digests, calls: seq<Call>, j: nat): Dir
    requires j <= |calls|
  {
    Run(d, calls[..j])
  }

  /** Call `j` recorded `e`; a takeover is recorded only against a holder that gave up. */
  ghost predicate Explains(d: Digests, calls: seq<Call>, j: nat, e: Event) {
    && j < |calls| && calls[j].now == e.occurredAt
    && match e.kind
       case Acquired => calls[j].Acquire? && calls[j].claim == e.holder
       case Released => calls[j].Release? && calls[j].id == e.holder.id
       case RolledBack => calls[j].Rollback? && calls[j].id == e.holder.id
       case Takeover =>
         && calls[j].Acquire? && calls[j].claim == e.holder
         && Before(d, calls, j).lock.Some?
         && var b := Before(d, calls, j).lock.value.body;
            b.held && e.prior == Some(Prior(b.holder, b.acquiredAt)) && GaveUp(b, calls[j].now, calls[j].alive)
  }

  /** One call keeps the log and explains every event it adds. */
  lemma CallExplains(d: Digests, calls: seq<Call>, j: nat, i: nat)
    requires Proper(d) && j < |calls| && Consistent(d, Before(d, calls, j)) && ValidCall(calls[j])
    ensures var s := Before(d, calls, j); var t := Do(d, s, calls[j]).0;
            && |s.events| <= |t.events| && t.events[..|s.events|] == s.events
            && (|s.events| <= i < |t.events| ==> Explains(d, calls, j, t.events[i]))
  {
    var s := Before(d, calls, j);
    match calls[j]
    case Acquire(claim, now, created, alive) =>
      if s.lock.Some? && s.lock.value.body.held {
        HeldIsRefusedIff(d, s, claim, now, created, alive);
        HeldIsTakenOver(d, s, claim, now, created, alive);
      } else {
        FreeIsGiven(d, s, claim, now, created, alive);
      }
    case Release(id, now) => ReleaseMeans(d, s, id, now);
    case Rollback(id, prior, now) => RollbackMeans(d, s, id, prior, now);
  }

  lemma StillExplains(d: Digests, calls: seq<Call>, n: nat, j: nat, e: Event)
    requires n <= |calls| && Explains(d, calls[..n], j, e)
    ensures Explains(d, calls, j, e)
  {
    assert calls[..n][..j] == calls[..j];
  }

  /** Every event in the log of a run was recorded by one of its calls. */
  lemma {:induction false} LogIsExplained(d: Digests, calls: seq<Call>, i: nat) returns (j: nat)
    requires Proper(d) && (forall c :: c in calls ==> ValidCall(c)) && i < |Run(d, calls).events|
    ensures Explains(d, calls, j, Run(d, calls).events[i])
    decreases |calls|
  {
    var last := |calls| - 1;
    EveryRunIsConsistent(d, calls[..last]);
    CallExplains(d, calls, last, i);
    var before := Run(d, calls[..last]);
    if i < |before.events| {
      j := LogIsExplained(d, calls[..last], i);
      assert Run(d, calls).events[i] == Run(d, calls).events[..|before.events|][i];
      StillExplains(d, calls, last, j, before.events[i]);
    } else {
      j := last;
    }
  }

  // ---- What the log verifier accepts and reports ----------------------------------------------

  /** The event is well-formed, whatever comes before it. */
  predicate IsEvent(d: Digests, e: Event) {
    && IsNamed(e.holder) && 0 <= e.occurredAt && d.isHex(e.parentHash) && 0 <= e.chainIndex
    && (e.chainIndex == 0 ==> e.parentHash == d.root)
    && (e.kind == Takeover ==> e.prior.Some? && IsNamed(e.prior.value.holder))
  }

  ghost predicate LinksBack(d: Digests, events: seq<Event>, i: nat)
    requires i < |events|
  {
    if i == 0 then events[0].parentHash == d.root else events[i].parentHash == d.hash(events[i - 1])
  }

  ghost predicate InPlace(d: Digests, events: seq<Event>, i: nat)
    requires i < |events|
  {
    events[i].chainIndex == i && IsEvent(d, events[i]) && LinksBack(d, events, i)
  }

  /** A log is intact exactly if every event carries its position, is well-formed and carries the hash of the one before. */
  lemma {:induction false} ChainedIff(d: Digests, events: seq<Event>)
    ensures Chained(d, events) <==> forall i :: 0 <= i < |events| ==> InPlace(d, events, i)
  {
    if events != [] {
      var n := |events| - 1;
      ChainedIff(d, events[..n]);
      assert forall i :: 0 <= i < n ==> (InPlace(d, events[..n], i) <==> InPlace(d, events, i));
      assert Fits(d, events[..n], events[n]) <==> InPlace(d, events, n);
      assert Chained(d, events) <==> Chained(d, events[..n]) && InPlace(d, events, n);
    }
  }

  /** What is reported of a log that is not intact: its first event out of place, and why. */
  lemma ReportMeans(d: Digests, events: seq<Event>, i: nat, r: Verdict)
    requires FirstBreak(d, events, i, r)
    ensures (forall k :: 0 <= k < i ==> InPlace(d, events, k)) && !InPlace(d, events, i)
    ensures var e := events[i];
            && (0 <= e.chainIndex < i ==> r == Broken(e.chainIndex, DuplicateChainIndex))
            && (e.chainIndex < 0 || i < e.chainIndex ==> r == Broken(i, ChainIndexMismatch))
            && (e.chainIndex == i && !IsEvent(d, e) ==> r == Broken(i, SchemaInvalid))
            && (e.chainIndex == i && IsEvent(d, e) ==> 0 < i && r == Broken(i, ParentHashMismatch))
  {
    ChainedIff(d, events[..i]);
    assert forall k :: 0 <= k < i ==> (InPlace(d, events[..i], k) <==> InPlace(d, events, k));
  }
}
