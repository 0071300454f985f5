/** The consolidation lock: whole acquire, release and rollback calls over one lock file and its event log. */
module ConsolidationLock {
  import opened Prelude

  datatype Holder = Holder(id: string, pid: int, host: string)

  /** The lock file's content. */
  datatype Body = Body(held: bool, holder: Holder, acquiredAt: int)

  /** `mtime` is the consolidation cursor. */
  datatype LockFile = LockFile(body: Body, mtime: int)

  datatype EventKind = Acquired | Released | RolledBack | Takeover

  datatype Prior = Prior(holder: Holder, acquiredAt: int)

  datatype Event = Event(
    kind: EventKind,
    holder: Holder,
    prior: Option<Prior>,
    occurredAt: int,
    parentHash: string,
    chainIndex: int)

  /** One hour. */
  const HOLDER_TIMEOUT := 3600000

  datatype Digests = Digests(hash: Event -> string, isHex: string -> bool, root: string)

  ghost predicate Proper(d: Digests) {
    d.isHex(d.root) && forall e :: d.isHex(d.hash(e))
  }

  // ---- Validity of records --------------------------------------------------------

  predicate HolderOk(h: Holder) {
    h.id != "" && h.pid >= 1 && h.host != ""
  }

  predicate BodyOk(b: Body) {
    HolderOk(b.holder) && b.acquiredAt >= 0
  }

  predicate EventOk(d: Digests, e: Event) {
    && HolderOk(e.holder) && e.occurredAt >= 0
    && d.isHex(e.parentHash) && e.chainIndex >= 0
    && (e.chainIndex == 0 ==> e.parentHash == d.root)
    && (e.kind == Takeover ==> e.prior.Some? && HolderOk(e.prior.value.holder))
  }

  // ---- The event log -----------------------------------------------------------------

  function HeadHash(d: Digests, events: seq<Event>): string {
    if events == [] then d.root else d.hash(events[|events| - 1])
  }

  predicate Fits(d: Digests, before: seq<Event>, e: Event) {
    e.chainIndex == |before| && EventOk(d, e) && e.parentHash == HeadHash(d, before)
  }

  /** Every event is valid, numbered by its position and linked to its predecessor. */
  predicate Chained(d: Digests, events: seq<Event>) {
    events == [] || (Chained(d, events[..|events| - 1]) && Fits(d, events[..|events| - 1], events[|events| - 1]))
  }

  datatype BreakReason = ChainIndexMismatch | DuplicateChainIndex | MissingRoot | ParentHashMismatch | SchemaInvalid

  datatype Verdict = Intact(head: string, length: nat) | Broken(index: int, reason: BreakReason)

  /** What is reported for `e` after an intact log `before`. */
  function Diagnose(d: Digests, before: seq<Event>, e: Event): Option<Verdict> {
    if 0 <= e.chainIndex < |before| then Some(Broken(e.chainIndex, DuplicateChainIndex))
    else if e.chainIndex != |before| then Some(Broken(|before|, ChainIndexMismatch))
    else if !EventOk(d, e) then Some(Broken(|before|, SchemaInvalid))
    else if before == [] && e.parentHash != d.root then Some(Broken(0, MissingRoot))
    else if before != [] && e.parentHash != HeadHash(d, before) then Some(Broken(|before|, ParentHashMismatch))
    else None
  }

  /** Event `i` is the first that does not fit, and `r` is what is reported for it. */
  predicate FirstBreak(d: Digests, events: seq<Event>, i: int, r: Verdict) {
    0 <= i < |events| && Chained(d, events[..i]) && Diagnose(d, events[..i], events[i]) == Some(r)
  }

  lemma {:induction false} ChainedPrefix(d: Digests, events: seq<Event>, n: nat)
    requires n <= |events| && Chained(d, events)
    ensures Chained(d, events[..n])
    decreases |events|
  {
    if n < |events| {
      assert events[..|events| - 1][..n] == events[..n];
      ChainedPrefix(d, events[..|events| - 1], n);
    } else {
      assert events[..n] == events;
    }
  }

  /** Accepts exactly the chained logs; otherwise diagnoses the first event that does not fit. */
  method VerifyEventChain(d: Digests, events: seq<Event>) returns (r: Verdict)
    ensures Chained(d, events) <==> r == Intact(HeadHash(d, events), |events|)
    ensures !Chained(d, events) ==> (exists i :: FirstBreak(d, events, i, r))
  {
    var seen: set<int> := {};
    var previousHash := d.root;
    var i := 0;
    while i < |events|
      invariant i <= |events| && Chained(d, events[..i]) && previousHash == HeadHash(d, events[..i])
      invariant forall n :: n in seen <==> 0 <= n < i
    {
      var e := events[i];
      assert events[..i + 1][..i] == events[..i] && events[..i + 1][i] == e;
      if Diagnose(d, events[..i], e).Some? && Chained(d, events) {
        ChainedPrefix(d, events, i + 1);
      }
      assert forall r :: Diagnose(d, events[..i], e) == Some(r) ==> FirstBreak(d, events, i, r);
      if e.chainIndex in seen {
        return Broken(e.chainIndex, DuplicateChainIndex);
      }
      seen := seen + {e.chainIndex};
      if e.chainIndex != i {
        return Broken(i, ChainIndexMismatch);
      }
      if !EventOk(d, e) {
        return Broken(i, SchemaInvalid);
      }
      if i == 0 {
        if e.parentHash != d.root {
          return Broken(0, MissingRoot);
        }
      } else if e.parentHash != previousHash {
        return Broken(i, ParentHashMismatch);
      }
      previousHash := d.hash(e);
      i := i + 1;
    }
    assert events[..i] == events;
    return Intact(previousHash, |events|);
  }

  /** What an event says, before it is linked to the log. */
  datatype Seed = Seed(kind: EventKind, holder: Holder, prior: Option<Prior>, occurredAt: int)

  function Stamp(d: Digests, events: seq<Event>, s: Seed): Event {
    Event(s.kind, s.holder, s.prior, s.occurredAt, HeadHash(d, events),
          if events == [] then 0 else events[|events| - 1].chainIndex + 1)
  }

  /** The log after appending, or `None` when the stamped event is invalid and nothing is written. */
  function AppendEvent(d: Digests, events: seq<Event>, s: Seed): Option<seq<Event>> {
    if EventOk(d, Stamp(d, events, s)) then Some(events + [Stamp(d, events, s)]) else None
  }

  predicate SeedOk(s: Seed) {
    && HolderOk(s.holder) && s.occurredAt >= 0
    && (s.kind == Takeover ==> s.prior.Some? && HolderOk(s.prior.value.holder))
  }

  lemma AppendKeepsChain(d: Digests, events: seq<Event>, s: Seed)
    requires Proper(d) && Chained(d, events)
    ensures AppendEvent(d, events, s).Some? <==> SeedOk(s)
    ensures SeedOk(s) ==> Chained(d, AppendEvent(d, events, s).value)
  {
    var more := events + [Stamp(d, events, s)];
    assert more[..|more| - 1] == events;
    assert events != [] ==> events[|events| - 1].chainIndex == |events| - 1;
  }

  // ---- Whole calls -------------------------------------------------------------------------

  /** The lessons directory as far as the lock is concerned. */
  datatype Dir = Dir(lock: Option<LockFile>, events: seq<Event>)

  const EMPTY := Dir(None, [])

  datatype Outcome = Done(priorMtime: int, tookOver: bool) | Refused(holder: Holder, age: int) | Declined | Threw

  /**
   * `created` is the time the file system gives a new lock file, `alive` the liveness of the current holder's
   * process.
   */
  datatype Call =
    | Acquire(claim: Holder, now: int, created: int, alive: bool)
    | Release(id: string, now: int)
    | Rollback(id: string, prior: int, now: int)

  /** Appends events one by one; an invalid one raises after the lock file has already been written. */
  function Record(d: Digests, lock: LockFile, events: seq<Event>, seeds: seq<Seed>, outcome: Outcome): (Dir, Outcome)
    decreases |seeds|
  {
    if seeds == [] then (Dir(Some(lock), events), outcome)
    else
      match AppendEvent(d, events, seeds[0])
      case Some(more) => Record(d, lock, more, seeds[1..], outcome)
      case None => (Dir(Some(lock), events), Threw)
  }

  function AcquireSeed(claim: Holder, now: int): Seed {
    Seed(Acquired, claim, None, now)
  }

  function Stale(b: Body, now: int, alive: bool): bool {
    now - b.acquiredAt > HOLDER_TIMEOUT || !alive
  }

  function DoAcquire(d: Digests, s: Dir, claim: Holder, now: int, created: int, alive: bool): (Dir, Outcome) {
    var body := Body(true, claim, now);
    if claim.id == "" then (s, Threw)
    else
      match s.lock
      case None => Record(d, LockFile(body, created), s.events, [AcquireSeed(claim, now)], Done(0, false))
      case Some(f) =>
        if !BodyOk(f.body) then (s, Threw)
        else if !f.body.held then
          Record(d, LockFile(body, f.mtime), s.events, [AcquireSeed(claim, now)], Done(f.mtime, false))
        else if !Stale(f.body, now, alive) then (s, Refused(f.body.holder, now - f.body.acquiredAt))
        else
          Record(d, LockFile(body, f.mtime), s.events,
                 [Seed(Takeover, claim, Some(Prior(f.body.holder, f.body.acquiredAt)), now), AcquireSeed(claim, now)],
                 Done(f.mtime, true))
  }

  function DoRelease(d: Digests, s: Dir, id: string, now: int): (Dir, Outcome) {
    match s.lock
    case None => (s, Declined)
    case Some(f) =>
      if !BodyOk(f.body) then (s, Threw)
      else if f.body.holder.id != id || !f.body.held then (s, Declined)
      else Record(d, LockFile(f.body.(held := false), now), s.events,
                  [Seed(Released, f.body.holder, None, now)], Done(f.mtime, false))
  }

  /** Unlike a release, a rollback does not ask whether the lock is still held. */
  function DoRollback(d: Digests, s: Dir, id: string, prior: int, now: int): (Dir, Outcome) {
    match s.lock
    case None => (s, Declined)
    case Some(f) =>
      if !BodyOk(f.body) then (s, Threw)
      else if f.body.holder.id != id then (s, Declined)
      else Record(d, LockFile(f.body.(held := false), prior), s.events,
                  [Seed(RolledBack, f.body.holder, None, now)], Done(f.mtime, false))
  }

  function Do(d: Digests, s: Dir, c: Call): (Dir, Outcome) {
    match c
    case Acquire(claim, now, created, alive) => DoAcquire(d, s, claim, now, created, alive)
    case Release(id, now) => DoRelease(d, s, id, now)
    case Rollback(id, prior, now) => DoRollback(d, s, id, prior, now)
  }

  function Run(d: Digests, calls: seq<Call>): Dir {
    if calls == [] then EMPTY else Do(d, Run(d, calls[..|calls| - 1]), calls[|calls| - 1]).0
  }

  /** Calls a well-behaved process makes: real holder data and a clock that is not negative. */
  predicate ValidCall(c: Call) {
    c.now >= 0 && (c.Acquire? ==> HolderOk(c.claim))
  }

  // ---- The log determines the lock -----------------------------------------------------------

  /** What the log says about the lock. `Claimed` is a takeover whose acquire is still to come. */
  datatype Story =
    | Never
    | HeldBy(holder: Holder, since: int)
    | FreedBy(holder: Holder, since: int)
    | Claimed(holder: Holder, since: int)
    | Nonsense

  function Tell(s: Story, e: Event): Story {
    match (s, e.kind)
    case (Never, Acquired) => HeldBy(e.holder, e.occurredAt)
    case (FreedBy(_, _), Acquired) => HeldBy(e.holder, e.occurredAt)
    case (Claimed(h, t), Acquired) => if e.holder == h && e.occurredAt == t then HeldBy(h, t) else Nonsense
    case (HeldBy(h, t), Released) => if e.holder == h then FreedBy(h, t) else Nonsense
    case (HeldBy(h, t), RolledBack) => if e.holder == h then FreedBy(h, t) else Nonsense
    case (FreedBy(h, t), RolledBack) => if e.holder == h then FreedBy(h, t) else Nonsense
    case (HeldBy(h, t), Takeover) => if e.prior == Some(Prior(h, t)) then Claimed(e.holder, e.occurredAt) else Nonsense
    case _ => Nonsense
  }

  function Replay(events: seq<Event>): Story {
    if events == [] then Never else Tell(Replay(events[..|events| - 1]), events[|events| - 1])
  }

  function StoryOf(lock: Option<LockFile>): Story {
    match lock
    case None => Never
    case Some(f) =>
      if f.body.held then HeldBy(f.body.holder, f.body.acquiredAt) else FreedBy(f.body.holder, f.body.acquiredAt)
  }

  /** The log verifies, and replaying it gives exactly the content of the lock file. */
  ghost predicate Consistent(d: Digests, s: Dir) {
    && Chained(d, s.events)
    && Replay(s.events) == StoryOf(s.lock)
    && (s.lock.Some? ==> BodyOk(s.lock.value.body))
  }

  lemma ReplayAppend(d: Digests, events: seq<Event>, s: Seed)
    ensures Replay(events + [Stamp(d, events, s)]) == Tell(Replay(events), Stamp(d, events, s))
  {
    var more := events + [Stamp(d, events, s)];
    assert more[..|more| - 1] == events;
  }

  /** One recorded event. */
  lemma RecordOne(d: Digests, lock: LockFile, events: seq<Event>, s: Seed, outcome: Outcome)
    requires Proper(d) && Chained(d, events)
    ensures var r := Record(d, lock, events, [s], outcome);
            if SeedOk(s) then
              && r == (Dir(Some(lock), events + [Stamp(d, events, s)]), outcome)
              && Chained(d, r.0.events)
              && Replay(r.0.events) == Tell(Replay(events), Stamp(d, events, s))
            else r == (Dir(Some(lock), events), Threw)
  {
    AppendKeepsChain(d, events, s);
    ReplayAppend(d, events, s);
    assert [s][1..] == [];
    assert forall more :: Record(d, lock, more, [], outcome) == (Dir(Some(lock), more), outcome);
  }

  /** A takeover followed by its acquire. */
  lemma RecordTakeover(d: Digests, lock: LockFile, events: seq<Event>, claim: Holder, prior: Prior, now: int, outcome: Outcome)
    requires Proper(d) && Chained(d, events) && HolderOk(prior.holder)
    ensures var takeover := Seed(Takeover, claim, Some(prior), now);
            var r := Record(d, lock, events, [takeover, AcquireSeed(claim, now)], outcome);
            if HolderOk(claim) && now >= 0 then
              && r.1 == outcome && r.0.lock == Some(lock) && Chained(d, r.0.events)
              && r.0.events == events + [Stamp(d, events, takeover)] +
                               [Stamp(d, events + [Stamp(d, events, takeover)], AcquireSeed(claim, now))]
              && Replay(r.0.events) == Tell(Tell(Replay(events), Stamp(d, events, takeover)),
                                            Stamp(d, events + [Stamp(d, events, takeover)], AcquireSeed(claim, now)))
            else r == (Dir(Some(lock), events), Threw)
  {
    var takeover := Seed(Takeover, claim, Some(prior), now);
    AppendKeepsChain(d, events, takeover);
    ReplayAppend(d, events, takeover);
    assert [takeover, AcquireSeed(claim, now)][1..] == [AcquireSeed(claim, now)];
    if SeedOk(takeover) {
      RecordOne(d, lock, events + [Stamp(d, events, takeover)], AcquireSeed(claim, now), outcome);
    }
  }

  lemma FreshAcquire(d: Digests, s: Dir, claim: Holder, now: int, mtime: int, outcome: Outcome)
    requires Proper(d) && Consistent(d, s) && HolderOk(claim) && now >= 0
    requires s.lock.Some? ==> !s.lock.value.body.held
    ensures var r := Record(d, LockFile(Body(true, claim, now), mtime), s.events, [AcquireSeed(claim, now)], outcome);
            Consistent(d, r.0) && r.1 == outcome
  {
    RecordOne(d, LockFile(Body(true, claim, now), mtime), s.events, AcquireSeed(claim, now), outcome);
  }

  lemma TakenOver(d: Digests, s: Dir, claim: Holder, now: int, outcome: Outcome)
    requires Proper(d) && Consistent(d, s) && HolderOk(claim) && now >= 0 && s.lock.Some? && s.lock.value.body.held
    ensures var f := s.lock.value;
            var takeover := Seed(Takeover, claim, Some(Prior(f.body.holder, f.body.acquiredAt)), now);
            var r := Record(d, LockFile(Body(true, claim, now), f.mtime), s.events, [takeover, AcquireSeed(claim, now)], outcome);
            Consistent(d, r.0) && r.1 == outcome
  {
    var f := s.lock.value;
    RecordTakeover(d, LockFile(Body(true, claim, now), f.mtime), s.events, claim, Prior(f.body.holder, f.body.acquiredAt), now, outcome);
  }

  lemma AcquireKeepsConsistent(d: Digests, s: Dir, claim: Holder, now: int, created: int, alive: bool)
    requires Proper(d) && Consistent(d, s) && HolderOk(claim) && now >= 0
    ensures var r := DoAcquire(d, s, claim, now, created, alive);
            Consistent(d, r.0) && r.1 != Threw
  {
    if s.lock.None? {
      FreshAcquire(d, s, claim, now, created, Done(0, false));
    } else if s.lock.value.body.held {
      TakenOver(d, s, claim, now, Done(s.lock.value.mtime, true));
    } else {
      FreshAcquire(d, s, claim, now, s.lock.value.mtime, Done(s.lock.value.mtime, false));
    }
  }

  /** Freeing an existing lock with the event that says so. */
  lemma FreeKeepsConsistent(d: Digests, s: Dir, kind: EventKind, mtime: int, now: int)
    requires Proper(d) && Consistent(d, s) && s.lock.Some? && now >= 0
    requires kind == RolledBack || (kind == Released && s.lock.value.body.held)
    ensures var f := s.lock.value;
            var free := LockFile(f.body.(held := false), mtime);
            var r := Record(d, free, s.events, [Seed(kind, f.body.holder, None, now)], Done(f.mtime, false));
            Consistent(d, r.0) && r.0.lock == Some(free) && r.1 == Done(f.mtime, false)
  {
    var f := s.lock.value;
    RecordOne(d, LockFile(f.body.(held := false), mtime), s.events, Seed(kind, f.body.holder, None, now), Done(f.mtime, false));
  }

  /** A valid call keeps log and lock consistent and never raises. */
  lemma CallKeepsConsistent(d: Digests, s: Dir, c: Call)
    requires Proper(d) && Consistent(d, s) && ValidCall(c)
    ensures Consistent(d, Do(d, s, c).0) && Do(d, s, c).1 != Threw
  {
    match c
    case Acquire(claim, now, created, alive) => AcquireKeepsConsistent(d, s, claim, now, created, alive);
    case Release(id, now) =>
      if s.lock.Some? && s.lock.value.body.held {
        FreeKeepsConsistent(d, s, Released, now, now);
      }
    case Rollback(id, prior, now) =>
      if s.lock.Some? {
        FreeKeepsConsistent(d, s, RolledBack, prior, now);
      }
  }

  /** After every run of valid calls the log verifies and replays to the lock file's content. */
  lemma {:induction false} EveryRunIsConsistent(d: Digests, calls: seq<Call>)
    requires Proper(d) && forall c :: c in calls ==> ValidCall(c)
    ensures Consistent(d, Run(d, calls))
  {
    if calls != [] {
      EveryRunIsConsistent(d, calls[..|calls| - 1]);
      CallKeepsConsistent(d, Run(d, calls[..|calls| - 1]), calls[|calls| - 1]);
    }
  }

  // ---- Consequences ------------------------------------------------------------------------------

  /** The lock is held by `h` exactly when the last event is an acquire by `h`. */
  lemma HeldIffLastAcquired(d: Digests, s: Dir, h: Holder)
    requires Consistent(d, s)
    ensures (s.lock.Some? && s.lock.value.body.held && s.lock.value.body.holder == h) <==>
            (s.events != [] && s.events[|s.events| - 1].kind == Acquired && s.events[|s.events| - 1].holder == h)
  {
  }

  lemma {:induction false} PrefixMakesSense(events: seq<Event>, n: nat)
    requires n <= |events| && Replay(events) != Nonsense
    ensures Replay(events[..n]) != Nonsense
    decreases |events|
  {
    if n < |events| {
      assert events[..|events| - 1][..n] == events[..n];
      PrefixMakesSense(events[..|events| - 1], n);
    } else {
      assert events[..n] == events;
    }
  }

  /** Every takeover displaces the holder of the acquire right before it and is followed by its taker's acquire. */
  lemma TakeoverIsFramed(d: Digests, s: Dir, i: nat)
    requires Consistent(d, s) && i < |s.events| && s.events[i].kind == Takeover
    ensures i + 1 < |s.events| && s.events[i + 1].kind == Acquired && s.events[i + 1].holder == s.events[i].holder
    ensures i > 0 && s.events[i - 1].kind == Acquired
    ensures s.events[i].prior == Some(Prior(s.events[i - 1].holder, s.events[i - 1].occurredAt))
  {
    var es := s.events;
    PrefixMakesSense(es, i + 1);
    assert es[..i + 1][..i] == es[..i] && es[..i + 1][i] == es[i];
    assert i > 0 ==> es[..i][..i - 1] == es[..i - 1] && es[..i][i - 1] == es[i - 1];
    assert Replay(es[..i + 1]).Claimed?;
    assert es[..|es|] == es;
    if i + 1 < |es| {
      PrefixMakesSense(es, i + 2);
      assert es[..i + 2][..i + 1] == es[..i + 1] && es[..i + 2][i + 1] == es[i + 1];
    }
  }

  /** Refused and declined calls, among them every call of a holder that was displaced, change nothing. */
  lemma RefusedChangesNothing(d: Digests, s: Dir, c: Call)
    requires Do(d, s, c).1.Refused? || Do(d, s, c).1.Declined?
    ensures Do(d, s, c).0 == s
  {
    RecordNeverRefuses(d, s, c);
  }

  lemma {:induction false} RecordKeepsOutcome(d: Digests, lock: LockFile, events: seq<Event>, seeds: seq<Seed>, outcome: Outcome)
    ensures Record(d, lock, events, seeds, outcome).1 in {outcome, Threw}
    decreases |seeds|
  {
    if seeds != [] && AppendEvent(d, events, seeds[0]).Some? {
      RecordKeepsOutcome(d, lock, AppendEvent(d, events, seeds[0]).value, seeds[1..], outcome);
    }
  }

  lemma RecordNeverRefuses(d: Digests, s: Dir, c: Call)
    ensures forall lock, seeds, p, t :: !Record(d, lock, s.events, seeds, Done(p, t)).1.Refused?
    ensures forall lock, seeds, p, t :: !Record(d, lock, s.events, seeds, Done(p, t)).1.Declined?
  {
    forall lock, seeds, p, t
      ensures Record(d, lock, s.events, seeds, Done(p, t)).1 in {Done(p, t), Threw}
    {
      RecordKeepsOutcome(d, lock, s.events, seeds, Done(p, t));
    }
  }

  lemma OthersAreDeclined(d: Digests, s: Dir, id: string, prior: int, now: int)
    requires s.lock.Some? && BodyOk(s.lock.value.body) && s.lock.value.body.holder.id != id
    ensures Do(d, s, Release(id, now)) == (s, Declined)
    ensures Do(d, s, Rollback(id, prior, now)) == (s, Declined)
  {
  }

  /** Event `i` is the last acquire of the log. */
  predicate IsLastAcquire(events: seq<Event>, i: nat) {
    i < |events| && events[i].kind == Acquired && forall j :: i < j < |events| ==> events[j].kind != Acquired
  }

  /** Whoever a log says holds or last held the lock made its last acquire. */
  lemma {:induction false} HolderMadeLastAcquire(events: seq<Event>) returns (i: nat)
    requires Replay(events).HeldBy? || Replay(events).FreedBy?
    ensures IsLastAcquire(events, i) && events[i].holder == Replay(events).holder
    decreases |events|
  {
    var init, last := events[..|events| - 1], events[|events| - 1];
    if last.kind == Acquired {
      i := |events| - 1;
    } else {
      i := HolderMadeLastAcquire(init);
      forall j | i < j < |events| ensures events[j].kind != Acquired {
        assert j < |init| ==> init[j] == events[j];
      }
    }
  }

  /**
   * A holder displaced by a takeover that has not acquired the lock again since: its late releases and
   * rollbacks are declined, whatever happened in between.
   */
  lemma DisplacedHolderIsPowerless(d: Digests, s: Dir, i: nat, id: string, prior: int, now: int)
    requires Consistent(d, s) && i < |s.events| && s.events[i].kind == Takeover
    requires s.events[i].prior.Some? && s.events[i].prior.value.holder.id == id
    requires forall j :: i < j < |s.events| && s.events[j].kind == Acquired ==> s.events[j].holder.id != id
    ensures Do(d, s, Release(id, now)) == (s, Declined)
    ensures Do(d, s, Rollback(id, prior, now)) == (s, Declined)
  {
    TakeoverIsFramed(d, s, i);
    var j := HolderMadeLastAcquire(s.events);
    assert j >= i + 1;
    OthersAreDeclined(d, s, id, prior, now);
  }

  lemma {:induction false} RecordKeepsLock(d: Digests, lock: LockFile, events: seq<Event>, seeds: seq<Seed>, outcome: Outcome)
    ensures Record(d, lock, events, seeds, outcome).0.lock == Some(lock)
    decreases |seeds|
  {
    if seeds != [] && AppendEvent(d, events, seeds[0]).Some? {
      RecordKeepsLock(d, lock, AppendEvent(d, events, seeds[0]).value, seeds[1..], outcome);
    }
  }

  /**
   * Exactly when a rollback takes effect, and exactly when it leaves the consolidation cursor alone: whether the
   * lock is still held plays no part.
   */
  lemma RollbackMovesCursorIff(d: Digests, s: Dir, id: string, prior: int, now: int)
    requires Consistent(d, s)
    ensures var (t, outcome) := Do(d, s, Rollback(id, prior, now));
            && (outcome == Declined <==> s.lock.None? || s.lock.value.body.holder.id != id)
            && (s.lock.None? ==> t == s)
            && (s.lock.Some? ==>
                  && t.lock.Some?
                  && (t.lock.value.mtime == s.lock.value.mtime <==>
                      s.lock.value.body.holder.id != id || prior == s.lock.value.mtime))
  {
    if s.lock.Some? {
      var f := s.lock.value;
      var free, seeds := LockFile(f.body.(held := false), prior), [Seed(RolledBack, f.body.holder, None, now)];
      RecordKeepsLock(d, free, s.events, seeds, Done(f.mtime, false));
      RecordKeepsOutcome(d, free, s.events, seeds, Done(f.mtime, false));
    }
  }

  /** A first acquire reports 0 as the earlier cursor, and rolling it back sets the new file's cursor to 0. */
  lemma FirstRollbackZeroesCursor(d: Digests, s: Dir, claim: Holder, now: int, created: int, alive: bool, later: int)
    requires Proper(d) && Consistent(d, s) && s.lock.None? && HolderOk(claim) && now >= 0 && later >= 0
    ensures var a := Do(d, s, Acquire(claim, now, created, alive));
            var b := Do(d, a.0, Rollback(claim.id, 0, later));
            && a.1 == Done(0, false) && a.0.lock == Some(LockFile(Body(true, claim, now), created))
            && b.1.Done? && b.0.lock == Some(LockFile(Body(false, claim, now), 0))
  {
    FreshAcquire(d, s, claim, now, created, Done(0, false));
    RecordOne(d, LockFile(Body(true, claim, now), created), s.events, AcquireSeed(claim, now), Done(0, false));
    FreeKeepsConsistent(d, Do(d, s, Acquire(claim, now, created, alive)).0, RolledBack, 0, later);
  }

  /** Acquiring an existing lock and rolling back restores the consolidation cursor. */
  lemma RollbackRestoresCursor(d: Digests, s: Dir, claim: Holder, now: int, created: int, alive: bool, later: int)
    requires Proper(d) && Consistent(d, s) && s.lock.Some? && HolderOk(claim) && now >= 0 && later >= 0
    requires var a := Do(d, s, Acquire(claim, now, created, alive)); a.1.Done?
    ensures var a := Do(d, s, Acquire(claim, now, created, alive));
            var b := Do(d, a.0, Rollback(claim.id, a.1.priorMtime, later));
            && a.1.priorMtime == s.lock.value.mtime
            && a.0.lock.Some? && a.0.lock.value.mtime == s.lock.value.mtime
            && b.1.Done? && b.0.lock.Some? && !b.0.lock.value.body.held
            && b.0.lock.value.mtime == s.lock.value.mtime
  {
    var f := s.lock.value;
    var lock := LockFile(Body(true, claim, now), f.mtime);
    RecordOne(d, lock, s.events, AcquireSeed(claim, now), Done(f.mtime, false));
    RecordTakeover(d, lock, s.events, claim, Prior(f.body.holder, f.body.acquiredAt), now, Done(f.mtime, true));
    var a := Do(d, s, Acquire(claim, now, created, alive)).0;
    AcquireKeepsConsistent(d, s, claim, now, created, alive);
    FreeKeepsConsistent(d, a, RolledBack, f.mtime, later);
  }

  /** But a rollback after a successful release is not declined: it moves the cursor back again. */
  lemma RollbackAfterReleaseRewinds(d: Digests, s: Dir, prior: int, released: int, later: int)
    requires Proper(d) && Consistent(d, s) && s.lock.Some? && s.lock.value.body.held && released >= 0 && later >= 0
    ensures var id := s.lock.value.body.holder.id;
            var a := Do(d, s, Release(id, released)).0;
            var b := Do(d, a, Rollback(id, prior, later));
            && a.lock.Some? && a.lock.value.mtime == released
            && b.1.Done? && b.0.lock.Some? && b.0.lock.value.mtime == prior
  {
    FreeKeepsConsistent(d, s, Released, released, released);
    FreeKeepsConsistent(d, Do(d, s, Release(s.lock.value.body.holder.id, released)).0, RolledBack, prior, later);
  }

  /** The call passes every check that comes before the lock file is written. */
  predicate TakesEffect(s: Dir, c: Call) {
    match c
    case Acquire(claim, now, _, alive) =>
      claim.id != "" && (s.lock.None? || !s.lock.value.body.held || Stale(s.lock.value.body, now, alive))
    case Release(id, _) => s.lock.Some? && s.lock.value.body.holder.id == id && s.lock.value.body.held
    case Rollback(id, _, _) => s.lock.Some? && s.lock.value.body.holder.id == id
  }

  /** Rolling back a released lock leaves its body as it was. */
  predicate KeepsBody(s: Dir, c: Call) {
    c.Rollback? && s.lock.Some? && !s.lock.value.body.held
  }

  lemma IneffectiveChangesNothing(d: Digests, s: Dir, c: Call)
    requires Consistent(d, s) && !TakesEffect(s, c)
    ensures Do(d, s, c).0 == s
  {
  }

  /**
   * The lock file is written before the event is validated. So a call leaves a lock that the log does not
   * account for exactly if it takes effect with invalid data and changes the lock file's body.
   */
  lemma ConsistentIffValid(d: Digests, s: Dir, c: Call)
    requires Proper(d) && Consistent(d, s)
    ensures Consistent(d, Do(d, s, c).0) <==> ValidCall(c) || !TakesEffect(s, c) || KeepsBody(s, c)
  {
    if ValidCall(c) {
      CallKeepsConsistent(d, s, c);
    } else if !TakesEffect(s, c) {
      IneffectiveChangesNothing(d, s, c);
    } else {
      match c
      case Acquire(claim, now, created, alive) => InvalidAcquire(d, s, claim, now, created, alive);
      case Release(id, now) => InvalidFree(d, s, Released, now, now);
      case Rollback(id, prior, now) => InvalidFree(d, s, RolledBack, prior, now);
    }
  }

  lemma InvalidFree(d: Digests, s: Dir, kind: EventKind, mtime: int, now: int)
    requires Proper(d) && Consistent(d, s) && s.lock.Some? && now < 0
    ensures var f := s.lock.value;
            var free := LockFile(f.body.(held := false), mtime);
            var r := Record(d, free, s.events, [Seed(kind, f.body.holder, None, now)], Done(f.mtime, false));
            Consistent(d, r.0) <==> !f.body.held
  {
    var f := s.lock.value;
    RecordOne(d, LockFile(f.body.(held := false), mtime), s.events, Seed(kind, f.body.holder, None, now), Done(f.mtime, false));
  }

  lemma InvalidAcquire(d: Digests, s: Dir, claim: Holder, now: int, created: int, alive: bool)
    requires Proper(d) && Consistent(d, s) && claim.id != "" && !(HolderOk(claim) && now >= 0)
    requires !DoAcquire(d, s, claim, now, created, alive).1.Refused?
    ensures !Consistent(d, DoAcquire(d, s, claim, now, created, alive).0)
    ensures DoAcquire(d, s, claim, now, created, alive).1 == Threw
    ensures var left := DoAcquire(d, s, claim, now, created, alive).0;
            forall c :: Do(d, left, c) == (left, Threw)
  {
    if s.lock.None? {
      RecordOne(d, LockFile(Body(true, claim, now), created), s.events, AcquireSeed(claim, now), Done(0, false));
    } else {
      var f := s.lock.value;
      var lock := LockFile(Body(true, claim, now), f.mtime);
      RecordOne(d, lock, s.events, AcquireSeed(claim, now), Done(f.mtime, false));
      RecordTakeover(d, lock, s.events, claim, Prior(f.body.holder, f.body.acquiredAt), now, Done(f.mtime, true));
    }
  }

  // ---- The calls as they change the directory ----------------------------------------------------

  /** The lock file and the event log on disk, changed in place. */
  class LockDirectory {
    const d: Digests
    var lock: Option<LockFile>
    var events: seq<Event>

    ghost function State(): Dir
      reads this
    {
      Dir(lock, events)
    }

    constructor (d: Digests)
      ensures this.d == d && State() == EMPTY
    {
      this.d := d;
      lock := None;
      events := [];
    }

    /** Appends one stamped event, or changes nothing and reports failure. */
    method AppendLockEvent(s: Seed) returns (ok: bool)
      modifies this`events
      ensures ok <==> AppendEvent(d, old(events), s).Some?
      ensures events == if ok then AppendEvent(d, old(events), s).value else old(events)
    {
      var parent, index := d.root, 0;
      if events != [] {
        var last := events[|events| - 1];
        parent, index := d.hash(last), last.chainIndex + 1;
      }
      var e := Event(s.kind, s.holder, s.prior, s.occurredAt, parent, index);
      ok := EventOk(d, e);
      if ok {
        events := events + [e];
      }
    }

    /** Replaces the body; a new file gets the time `created`, an existing one the time `mtime` restored to it. */
    method WriteBody(body: Body, mtime: int)
      modifies this`lock
      ensures lock == Some(LockFile(body, mtime))
    {
      lock := Some(LockFile(body, mtime));
    }

    method TryAcquire(claim: Holder, now: int, created: int, alive: bool) returns (r: Outcome)
      modifies this
      ensures (State(), r) == DoAcquire(d, old(State()), claim, now, created, alive)
    {
      if claim.id == "" {
        return Threw;
      }
      var existing := lock;
      var body := Body(true, claim, now);
      var priorMtime, takeover := 0, None;
      if existing.None? {
        WriteBody(body, created);
      } else if !BodyOk(existing.value.body) {
        return Threw;
      } else if !existing.value.body.held {
        priorMtime := existing.value.mtime;
        WriteBody(body, priorMtime);
      } else {
        var holder, since := existing.value.body.holder, existing.value.body.acquiredAt;
        if !(now - since > HOLDER_TIMEOUT || !alive) {
          return Refused(holder, now - since);
        }
        priorMtime := existing.value.mtime;
        WriteBody(body, priorMtime);
        takeover := Some(Seed(Takeover, claim, Some(Prior(holder, since)), now));
      }
      RecordUnfolds(d, lock.value, events, AcquireSeed(claim, now), Done(priorMtime, takeover.Some?));
      if takeover.Some? {
        RecordUnfoldsTwice(d, lock.value, events, takeover.value, AcquireSeed(claim, now), Done(priorMtime, true));
        var ok := AppendLockEvent(takeover.value);
        if !ok {
          return Threw;
        }
      }
      var ok := AppendLockEvent(AcquireSeed(claim, now));
      if !ok {
        return Threw;
      }
      return Done(priorMtime, takeover.Some?);
    }

    method Release(id: string, now: int) returns (r: Outcome)
      modifies this
      ensures (State(), r) == DoRelease(d, old(State()), id, now)
    {
      if lock.None? {
        return Declined;
      }
      var f := lock.value;
      if !BodyOk(f.body) {
        return Threw;
      }
      if f.body.holder.id != id {
        return Declined;
      }
      if !f.body.held {
        return Declined;
      }
      WriteBody(f.body.(held := false), now);
      RecordUnfolds(d, lock.value, events, Seed(Released, f.body.holder, None, now), Done(f.mtime, false));
      var ok := AppendLockEvent(Seed(Released, f.body.holder, None, now));
      return if ok then Done(f.mtime, false) else Threw;
    }

    method Rollback(id: string, prior: int, now: int) returns (r: Outcome)
      modifies this
      ensures (State(), r) == DoRollback(d, old(State()), id, prior, now)
    {
      if lock.None? {
        return Declined;
      }
      var f := lock.value;
      if !BodyOk(f.body) {
        return Threw;
      }
      if f.body.holder.id != id {
        return Declined;
      }
      WriteBody(f.body.(held := false), prior);
      RecordUnfolds(d, lock.value, events, Seed(RolledBack, f.body.holder, None, now), Done(f.mtime, false));
      var ok := AppendLockEvent(Seed(RolledBack, f.body.holder, None, now));
      return if ok then Done(f.mtime, false) else Threw;
    }
  }

  lemma RecordUnfolds(d: Digests, lock: LockFile, events: seq<Event>, s: Seed, outcome: Outcome)
    ensures Record(d, lock, events, [s], outcome) ==
            match AppendEvent(d, events, s)
            case Some(more) => (Dir(Some(lock), more), outcome)
            case None => (Dir(Some(lock), events), Threw)
  {
    assert [s][1..] == [];
    assert forall more :: Record(d, lock, more, [], outcome) == (Dir(Some(lock), more), outcome);
  }

  lemma RecordUnfoldsTwice(d: Digests, lock: LockFile, events: seq<Event>, s: Seed, t: Seed, outcome: Outcome)
    ensures Record(d, lock, events, [s, t], outcome) ==
            match AppendEvent(d, events, s)
            case Some(more) => Record(d, lock, more, [t], outcome)
            case None => (Dir(Some(lock), events), Threw)
    ensures forall more :: Record(d, lock, more, [t], outcome) ==
                           match AppendEvent(d, more, t)
                           case Some(all) => (Dir(Some(lock), all), outcome)
                           case None => (Dir(Some(lock), more), Threw)
  {
    assert [s, t][1..] == [t];
    forall more ensures Record(d, lock, more, [t], outcome) ==
                        match AppendEvent(d, more, t)
                        case Some(all) => (Dir(Some(lock), all), outcome)
                        case None => (Dir(Some(lock), more), Threw)
    {
      RecordUnfolds(d, lock, more, t, outcome);
    }
  }
}
