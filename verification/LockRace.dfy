/** The first acquire: contenders interleaved at single file operations, starting without a lock file. */
module LockRace {
  import opened Prelude
  import opened ConsolidationLock

  datatype Claim = Claim(holder: Holder, now: int)

  /** `text` and `parse` write and read the JSON of a body; `alive` is the liveness probe. */
  datatype Race = Race(
    claims: seq<Claim>,
    alive: Holder -> bool,
    text: Body -> string,
    parse: string -> Option<Body>,
    d: Digests)

  function BodyOf(c: Claim): Body {
    Body(true, c.holder, c.now)
  }

  /** Well-formed contenders whose processes stay alive, and whose clocks are at most an hour apart. */
  ghost predicate Fair(w: Race) {
    && Proper(w.d)
    && (forall b :: w.text(b) != "" && w.parse(w.text(b)) == Some(b))
    && (forall i :: 0 <= i < |w.claims| ==> HolderOk(w.claims[i].holder) && w.claims[i].now >= 0)
    && (forall i :: 0 <= i < |w.claims| ==> w.alive(w.claims[i].holder))
    && (forall i, j :: 0 <= i < |w.claims| && 0 <= j < |w.claims| ==> w.claims[j].now - w.claims[i].now <= 3600000)
  }

  /**
   * The next file operation of a contender. `file` numbers the file behind its temporary name. `Beyond` is
   * reached by a contender that finds a released or stale lock, `Raised` by one that throws.
   */
  datatype Pc =
    | Reading
    | Creating
    | Writing(file: nat)
    | Linking(file: nat)
    | Unlinking(file: nat, created: bool)
    | ReadingLog
    | Publishing(event: Event)
    | Won
    | Refused
    | Beyond
    | Raised

  /**
   * `files` holds the content of every file ever created, `temps` those that still have a temporary name, and
   * `lock` the file that the lock's name leads to. A hard link leads to the file the temporary name leads to.
   */
  datatype State = State(
    files: seq<string>,
    temps: set<nat>,
    lock: Option<nat>,
    log: seq<Event>,
    pcs: seq<Pc>,
    retries: seq<nat>)

  function Start(w: Race): State {
    State([], {}, None, [], seq(|w.claims|, i => Reading), seq(|w.claims|, i => 0))
  }

  predicate Shaped(w: Race, s: State) {
    && |s.pcs| == |s.retries| == |w.claims|
    && (s.lock.Some? ==> s.lock.value < |s.files|)
    && (forall i :: 0 <= i < |s.pcs| && s.pcs[i].Writing? ==> s.pcs[i].file < |s.files|)
  }

  /** What a contender does after reading the text behind the lock's name. */
  function AfterRead(w: Race, raw: string, now: int): Pc {
    match w.parse(raw)
    case None => Raised
    case Some(b) =>
      if !BodyOk(b) then Raised
      else if !b.held || Stale(b, now, w.alive(b.holder)) then Beyond
      else Pc.Refused
  }

  /** Renaming over the event file numbered `e.chainIndex` replaces an event that is already there. */
  function Publish(log: seq<Event>, e: Event): seq<Event> {
    if 0 <= e.chainIndex < |log| then log[e.chainIndex := e] else log + [e]
  }

  /** The next file operation of contender `i`; a write puts out `chunk + 1` more characters, or all that are left. */
  function Step(w: Race, s: State, i: nat, chunk: nat): State
    requires Shaped(w, s)
  {
    if i >= |w.claims| then s
    else
      var c := w.claims[i];
      var text := w.text(BodyOf(c));
      match s.pcs[i]
      case Reading =>
        s.(pcs := s.pcs[i := if s.lock.None? then Creating else AfterRead(w, s.files[s.lock.value], c.now)])
      case Creating =>
        s.(files := s.files + [""], temps := s.temps + {|s.files|}, pcs := s.pcs[i := Writing(|s.files|)])
      case Writing(f) =>
        var n := |s.files[f]| + chunk + 1;
        if n < |text| then s.(files := s.files[f := text[..n]])
        else s.(files := s.files[f := text], pcs := s.pcs[i := Linking(f)])
      case Linking(f) =>
        if s.lock.None? then s.(lock := Some(f), pcs := s.pcs[i := Unlinking(f, true)])
        else s.(pcs := s.pcs[i := Unlinking(f, false)])
      case Unlinking(f, created) =>
        if created then s.(temps := s.temps - {f}, pcs := s.pcs[i := ReadingLog])
        else s.(temps := s.temps - {f}, pcs := s.pcs[i := Reading], retries := s.retries[i := s.retries[i] + 1])
      case ReadingLog =>
        var e := Stamp(w.d, s.log, AcquireSeed(c.holder, c.now));
        s.(pcs := s.pcs[i := if EventOk(w.d, e) then Publishing(e) else Raised])
      case Publishing(e) => s.(log := Publish(s.log, e), pcs := s.pcs[i := Won])
      case _ => s
  }

  // ---- The invariant ---------------------------------------------------------------

  /** The contender's link has succeeded. */
  predicate Ahead(pc: Pc) {
    (pc.Unlinking? && pc.created) || pc.ReadingLog? || pc.Publishing? || pc.Won?
  }

  /** The contender has a file under a temporary name. */
  predicate Holds(pc: Pc, f: nat) {
    (pc.Writing? || pc.Linking? || pc.Unlinking?) && pc.file == f
  }

  /** The contender knows that somebody has the lock. */
  predicate Late(pc: Pc, retries: nat) {
    pc.Refused? || retries > 0 || (pc.Unlinking? && !pc.created)
  }

  function FirstEvent(w: Race, c: Claim): Event {
    Stamp(w.d, [], AcquireSeed(c.holder, c.now))
  }

  ghost predicate FileOk(w: Race, s: State, i: nat)
    requires i < |s.pcs| == |w.claims|
  {
    forall f: nat :: Holds(s.pcs[i], f) ==>
                       && f < |s.files| && f in s.temps
                       && (if s.pcs[i].Writing? then |s.files[f]| < |w.text(BodyOf(w.claims[i]))|
                           else s.files[f] == w.text(BodyOf(w.claims[i])))
  }

  ghost predicate PcOk(w: Race, s: State, i: nat)
    requires i < |s.pcs| == |s.retries| == |w.claims|
  {
    && FileOk(w, s, i)
    && !s.pcs[i].Beyond? && !s.pcs[i].Raised?
    && s.retries[i] <= 1 && (s.retries[i] == 1 ==> s.pcs[i].Reading? || s.pcs[i].Refused?)
    && (s.pcs[i].Publishing? ==> s.pcs[i].event == FirstEvent(w, w.claims[i]))
  }

  /** Contender `i` owns the lock: its complete body is behind the lock's name, and only its event can be in the log. */
  ghost predicate Owns(w: Race, s: State, i: nat)
    requires i < |s.pcs| == |w.claims|
  {
    && s.lock.Some? && s.lock.value < |s.files|
    && Ahead(s.pcs[i])
    && s.files[s.lock.value] == w.text(BodyOf(w.claims[i]))
    && (s.pcs[i].Unlinking? ==> s.pcs[i].file == s.lock.value)
    && s.log == (if s.pcs[i].Won? then [FirstEvent(w, w.claims[i])] else [])
    && (forall j :: 0 <= j < |s.pcs| && j != i ==> !Ahead(s.pcs[j]) && !Holds(s.pcs[j], s.lock.value))
  }

  ghost predicate Unclaimed(s: State)
    requires |s.pcs| == |s.retries|
  {
    && s.lock.None? && s.log == []
    && forall i :: 0 <= i < |s.pcs| ==> !Ahead(s.pcs[i]) && !Late(s.pcs[i], s.retries[i])
  }

  /** No two contenders have the same file. */
  ghost predicate FilesApart(s: State) {
    forall i, j, f: nat :: 0 <= i < |s.pcs| && 0 <= j < |s.pcs| && Holds(s.pcs[i], f) && Holds(s.pcs[j], f) ==> i == j
  }

  /** Every temporary name belongs to a contender that is still going to remove it. */
  ghost predicate TempsHeld(s: State) {
    forall f :: f in s.temps ==> f < |s.files| && exists i :: 0 <= i < |s.pcs| && Holds(s.pcs[i], f)
  }

  ghost predicate Inv(w: Race, s: State) {
    && Shaped(w, s)
    && FilesApart(s) && TempsHeld(s)
    && (forall i: nat :: i < |s.pcs| ==> PcOk(w, s, i))
    && (Unclaimed(s) || exists i: nat :: i < |s.pcs| && Owns(w, s, i))
  }

  lemma StartInv(w: Race)
    ensures Inv(w, Start(w))
  {
  }

  lemma HeldFilesExist(w: Race, s: State)
    requires Inv(w, s)
    ensures forall j, f: nat :: 0 <= j < |s.pcs| && Holds(s.pcs[j], f) ==> f < |s.files|
  {
    forall j, f: nat | 0 <= j < |s.pcs| && Holds(s.pcs[j], f) ensures f < |s.files| {
      assert PcOk(w, s, j);
    }
  }

  lemma StepKeepsShape(w: Race, s: State, i: nat, chunk: nat)
    requires Fair(w) && Inv(w, s)
    ensures Shaped(w, Step(w, s, i, chunk))
  {
    HeldFilesExist(w, s);
    if i < |w.claims| {
      assert PcOk(w, s, i);
    }
  }

  /** A step changes no other contender, and a held file only if it is the mover's own. */
  lemma StepFrame(w: Race, s: State, i: nat, chunk: nat, j: nat, f: nat)
    requires Inv(w, s) && j < |s.pcs| && i != j
    ensures var t := Step(w, s, i, chunk);
            && |t.pcs| == |s.pcs| && |t.retries| == |s.retries|
            && t.pcs[j] == s.pcs[j] && t.retries[j] == s.retries[j]
            && (f < |s.files| && (Holds(s.pcs[j], f) || (i < |s.pcs| && !Holds(s.pcs[i], f))) ==>
                  f < |t.files| && t.files[f] == s.files[f] && (f in t.temps <==> f in s.temps))
  {
    if i < |w.claims| {
      assert PcOk(w, s, i);
    }
  }

  /** What the mover holds afterwards it held before, or is a new file. */
  lemma MoverHolds(w: Race, s: State, i: nat, chunk: nat, f: nat)
    requires Inv(w, s) && i < |s.pcs|
    ensures var t := Step(w, s, i, chunk);
            && |t.pcs| == |s.pcs|
            && (Holds(t.pcs[i], f) ==> Holds(s.pcs[i], f) || f == |s.files|)
            && (f in t.temps ==> Holds(t.pcs[i], f) || (f in s.temps && !Holds(s.pcs[i], f)))
            && (f in t.temps ==> f < |t.files|)
  {
    assert PcOk(w, s, i);
  }

  lemma StepKeepsApart(w: Race, s: State, i: nat, chunk: nat)
    requires Fair(w) && Inv(w, s)
    ensures FilesApart(Step(w, s, i, chunk))
  {
    HeldFilesExist(w, s);
    var t := Step(w, s, i, chunk);
    if i < |w.claims| {
      forall j, f: nat | 0 <= j < |t.pcs| && j != i && Holds(t.pcs[j], f) ensures !Holds(t.pcs[i], f) && Holds(s.pcs[j], f) {
        StepFrame(w, s, i, chunk, j, f);
        MoverHolds(w, s, i, chunk, f);
      }
    }
  }

  lemma StepKeepsTemps(w: Race, s: State, i: nat, chunk: nat)
    requires Fair(w) && Inv(w, s)
    ensures TempsHeld(Step(w, s, i, chunk))
  {
    var t := Step(w, s, i, chunk);
    if i < |w.claims| {
      forall f | f in t.temps
        ensures f < |t.files| && exists j :: 0 <= j < |t.pcs| && Holds(t.pcs[j], f)
      {
        MoverHolds(w, s, i, chunk, f);
        if !Holds(t.pcs[i], f) {
          var j :| 0 <= j < |s.pcs| && Holds(s.pcs[j], f);
          StepFrame(w, s, i, chunk, j, f);
          assert Holds(t.pcs[j], f);
        }
      }
    }
  }

  lemma StepKeepsOthersPc(w: Race, s: State, i: nat, chunk: nat, j: nat)
    requires Fair(w) && Inv(w, s) && j < |s.pcs| && i != j
    ensures var t := Step(w, s, i, chunk); |t.pcs| == |t.retries| == |w.claims| && PcOk(w, t, j)
  {
    assert PcOk(w, s, j);
    var t := Step(w, s, i, chunk);
    StepFrame(w, s, i, chunk, j, 0);
    forall f: nat | Holds(t.pcs[j], f) ensures f < |t.files| && t.files[f] == s.files[f] && f in t.temps {
      StepFrame(w, s, i, chunk, j, f);
    }
  }

  /** A contender that reads the lock refuses, because it shows the body of a live holder. */
  lemma LockIsRespected(w: Race, s: State, i: nat)
    requires Fair(w) && Inv(w, s) && i < |s.pcs| && s.lock.Some?
    ensures s.lock.value < |s.files| && AfterRead(w, s.files[s.lock.value], w.claims[i].now) == Pc.Refused
  {
    var o: nat :| o < |s.pcs| && Owns(w, s, o);
    assert w.parse(s.files[s.lock.value]) == Some(BodyOf(w.claims[o]));
  }

  /** A contender that knows of another one finds a lock, and one that reads the log finds it empty. */
  lemma LateFindsLock(w: Race, s: State, i: nat)
    requires Inv(w, s) && i < |s.pcs|
    ensures s.retries[i] > 0 || (s.pcs[i].Unlinking? && !s.pcs[i].created) ==> s.lock.Some?
    ensures s.pcs[i].ReadingLog? ==> s.log == []
  {
    if !Unclaimed(s) {
      var o: nat :| o < |s.pcs| && Owns(w, s, o);
    }
  }

  lemma StepKeepsOwnFile(w: Race, s: State, i: nat, chunk: nat)
    requires Fair(w) && Inv(w, s) && i < |s.pcs|
    ensures var t := Step(w, s, i, chunk); |t.pcs| == |w.claims| && FileOk(w, t, i)
  {
    assert PcOk(w, s, i);
  }

  lemma StepKeepsOwnPc(w: Race, s: State, i: nat, chunk: nat)
    requires Fair(w) && Inv(w, s) && i < |s.pcs|
    ensures var t := Step(w, s, i, chunk); |t.pcs| == |t.retries| == |w.claims| && PcOk(w, t, i)
  {
    assert PcOk(w, s, i);
    StepKeepsOwnFile(w, s, i, chunk);
    LateFindsLock(w, s, i);
    if s.pcs[i].ReadingLog? {
      AppendKeepsChain(w.d, [], AcquireSeed(w.claims[i].holder, w.claims[i].now));
    } else if s.pcs[i].Reading? && s.lock.Some? {
      LockIsRespected(w, s, i);
    }
  }

  lemma StepKeepsPcs(w: Race, s: State, i: nat, chunk: nat, j: nat)
    requires Fair(w) && Inv(w, s) && j < |s.pcs|
    ensures var t := Step(w, s, i, chunk); |t.pcs| == |t.retries| == |w.claims| && PcOk(w, t, j)
  {
    if i == j {
      StepKeepsOwnPc(w, s, i, chunk);
    } else {
      StepKeepsOthersPc(w, s, i, chunk, j);
    }
  }

  lemma OwnerStepsOn(w: Race, s: State, o: nat, chunk: nat)
    requires Fair(w) && Inv(w, s) && o < |s.pcs| && Owns(w, s, o)
    ensures var t := Step(w, s, o, chunk); |t.pcs| == |w.claims| && Owns(w, t, o)
  {
    assert PcOk(w, s, o);
  }

  lemma StepKeepsOwner(w: Race, s: State, i: nat, chunk: nat, o: nat)
    requires Fair(w) && Inv(w, s) && o < |s.pcs| && Owns(w, s, o)
    ensures var t := Step(w, s, i, chunk); |t.pcs| == |w.claims| && Owns(w, t, o)
  {
    if i == o {
      OwnerStepsOn(w, s, o, chunk);
    } else if i < |w.claims| {
      assert PcOk(w, s, i);
    }
  }

  lemma StepFromUnclaimed(w: Race, s: State, i: nat, chunk: nat)
    requires Fair(w) && Inv(w, s) && Unclaimed(s)
    ensures var t := Step(w, s, i, chunk);
            && |t.pcs| == |t.retries| == |w.claims|
            && (Unclaimed(t) || (i < |t.pcs| && Owns(w, t, i)))
  {
    if i < |w.claims| {
      assert PcOk(w, s, i);
    }
  }

  lemma StepKeepsInv(w: Race, s: State, i: nat, chunk: nat)
    requires Fair(w) && Inv(w, s)
    ensures Inv(w, Step(w, s, i, chunk))
  {
    StepKeepsShape(w, s, i, chunk);
    StepKeepsApart(w, s, i, chunk);
    StepKeepsTemps(w, s, i, chunk);
    forall j: nat | j < |s.pcs| ensures PcOk(w, Step(w, s, i, chunk), j) {
      StepKeepsPcs(w, s, i, chunk, j);
    }
    if Unclaimed(s) {
      StepFromUnclaimed(w, s, i, chunk);
    } else {
      var o: nat :| o < |s.pcs| && Owns(w, s, o);
      StepKeepsOwner(w, s, i, chunk, o);
    }
  }

  // ---- Every interleaving --------------------------------------------------------------

  /** Which contender moves next, and how much it puts out if it is writing. */
  datatype Turn = Turn(who: nat, chunk: nat)

  /** The state after the turns, and that it satisfies the invariant. */
  ghost predicate After(w: Race, turns: seq<Turn>, s: State)
    decreases |turns|
  {
    if turns == [] then s == Start(w)
    else
      var last := turns[|turns| - 1];
      exists before :: Shaped(w, before) && After(w, turns[..|turns| - 1], before) && s == Step(w, before, last.who, last.chunk)
  }

  lemma {:induction false} AfterInv(w: Race, turns: seq<Turn>, s: State)
    requires Fair(w) && After(w, turns, s)
    ensures Inv(w, s)
    decreases |turns|
  {
    if turns == [] {
      StartInv(w);
    } else {
      var last := turns[|turns| - 1];
      var before :| Shaped(w, before) && After(w, turns[..|turns| - 1], before) && s == Step(w, before, last.who, last.chunk);
      AfterInv(w, turns[..|turns| - 1], before);
      StepKeepsInv(w, before, last.who, last.chunk);
    }
  }

  /** No interleaving gets stuck in the model. */
  lemma {:induction false} SomeStateAfter(w: Race, turns: seq<Turn>) returns (s: State)
    requires Fair(w)
    ensures After(w, turns, s)
    decreases |turns|
  {
    if turns == [] {
      s := Start(w);
    } else {
      var last := turns[|turns| - 1];
      var before := SomeStateAfter(w, turns[..|turns| - 1]);
      AfterInv(w, turns[..|turns| - 1], before);
      s := Step(w, before, last.who, last.chunk);
    }
  }

  predicate Finished(pc: Pc) {
    pc.Won? || pc.Refused?
  }

  predicate Everyone(s: State) {
    forall i :: 0 <= i < |s.pcs| ==> Finished(s.pcs[i])
  }

  /** The lock's name leads to the whole body of contender `i`, whose link succeeded. */
  ghost predicate Shows(w: Race, s: State, i: nat)
    requires |s.pcs| == |w.claims|
  {
    && i < |s.pcs| && Ahead(s.pcs[i])
    && s.lock.Some? && s.lock.value < |s.files| && w.parse(s.files[s.lock.value]) == Some(BodyOf(w.claims[i]))
  }

  /**
   * In every interleaving at most one acquire succeeds, a contender retries at most once and none raises or takes
   * a lock over. The lock file is absent or shows the whole body of a contender whose link succeeded.
   */
  lemma MutualExclusion(w: Race, turns: seq<Turn>, s: State)
    requires Fair(w) && After(w, turns, s)
    ensures |s.pcs| == |s.retries| == |w.claims|
    ensures forall i, j :: 0 <= i < |s.pcs| && 0 <= j < |s.pcs| && s.pcs[i].Won? && s.pcs[j].Won? ==> i == j
    ensures forall i :: 0 <= i < |s.pcs| ==> s.retries[i] <= 1 && !s.pcs[i].Beyond? && !s.pcs[i].Raised?
    ensures s.lock.Some? ==> (exists i: nat :: Shows(w, s, i))
    ensures Chained(w.d, s.log) && |s.log| <= 1
  {
    AfterInv(w, turns, s);
    forall i | 0 <= i < |s.pcs| ensures s.retries[i] <= 1 && !s.pcs[i].Beyond? && !s.pcs[i].Raised? {
      assert PcOk(w, s, i);
    }
    if !Unclaimed(s) {
      var o: nat :| o < |s.pcs| && Owns(w, s, o);
      assert Shows(w, s, o);
      AppendKeepsChain(w.d, [], AcquireSeed(w.claims[o].holder, w.claims[o].now));
    }
  }

  /** The one winner of a finished race: its body is the lock, its event the whole log, and no temporary file is left. */
  ghost predicate Winner(w: Race, s: State, i: nat)
    requires |s.pcs| == |w.claims|
  {
    && i < |s.pcs| && s.pcs[i].Won? && (forall j :: 0 <= j < |s.pcs| && j != i ==> s.pcs[j].Refused?)
    && s.lock.Some? && s.lock.value < |s.files| && w.parse(s.files[s.lock.value]) == Some(BodyOf(w.claims[i]))
    && s.log == [FirstEvent(w, w.claims[i])]
    && s.temps == {}
  }

  lemma FinishedRaceHasOneWinner(w: Race, turns: seq<Turn>, s: State) returns (winner: nat)
    requires Fair(w) && After(w, turns, s) && |w.claims| > 0 && Everyone(s)
    ensures |s.pcs| == |w.claims| && Winner(w, s, winner)
  {
    AfterInv(w, turns, s);
    assert Finished(s.pcs[0]);
    winner :| winner < |s.pcs| && Owns(w, s, winner);
    assert Finished(s.pcs[winner]);
  }

  // ---- No contender waits for another one ---------------------------------------------------

  /** How many steps of its own a contender needs at most. */
  function Effort(w: Race, s: State, i: nat): nat
    requires i < |s.pcs| == |s.retries| == |w.claims|
  {
    var full := |w.text(BodyOf(w.claims[i]))|;
    match s.pcs[i]
    case Reading => if s.retries[i] > 0 then 1 else full + 6
    case Creating => full + 5
    case Writing(f) => 4 + if f < |s.files| && |s.files[f]| < full then full - |s.files[f]| else 0
    case Linking(_) => 4
    case Unlinking(_, created) => if created then 3 else 2
    case ReadingLog => 2
    case Publishing(_) => 1
    case _ => 0
  }

  lemma OthersKeepEffort(w: Race, s: State, i: nat, chunk: nat, j: nat)
    requires Fair(w) && Inv(w, s) && j < |s.pcs| && i != j
    ensures var t := Step(w, s, i, chunk); |t.pcs| == |t.retries| == |w.claims| && Effort(w, t, j) == Effort(w, s, j)
  {
    assert PcOk(w, s, j);
    StepFrame(w, s, i, chunk, j, if s.pcs[j].Writing? then s.pcs[j].file else 0);
  }

  lemma OwnStepTakesEffort(w: Race, s: State, i: nat, chunk: nat)
    requires Fair(w) && Inv(w, s) && i < |s.pcs|
    ensures var t := Step(w, s, i, chunk);
            && |t.pcs| == |t.retries| == |w.claims|
            && Effort(w, t, i) <= (if Effort(w, s, i) > 0 then Effort(w, s, i) - 1 else 0)
  {
    assert PcOk(w, s, i);
    LateFindsLock(w, s, i);
    if s.lock.Some? {
      LockIsRespected(w, s, i);
    }
  }

  lemma StepTakesEffort(w: Race, s: State, i: nat, chunk: nat, j: nat)
    requires Fair(w) && Inv(w, s) && j < |s.pcs|
    ensures var t := Step(w, s, i, chunk);
            && |t.pcs| == |t.retries| == |w.claims|
            && Effort(w, t, j) <= (if i == j && Effort(w, s, j) > 0 then Effort(w, s, j) - 1 else Effort(w, s, j))
  {
    if i == j {
      OwnStepTakesEffort(w, s, i, chunk);
    } else {
      OthersKeepEffort(w, s, i, chunk, j);
    }
  }

  function TurnsOf(turns: seq<Turn>, i: nat): nat {
    if turns == [] then 0
    else TurnsOf(turns[..|turns| - 1], i) + if turns[|turns| - 1].who == i then 1 else 0
  }

  lemma {:induction false} TurnsTakeEffort(w: Race, turns: seq<Turn>, s: State, i: nat)
    requires Fair(w) && After(w, turns, s) && i < |w.claims|
    ensures |s.pcs| == |s.retries| == |w.claims|
    ensures Effort(w, s, i) == 0 || Effort(w, s, i) + TurnsOf(turns, i) <= |w.text(BodyOf(w.claims[i]))| + 6
    decreases |turns|
  {
    if turns != [] {
      var last := turns[|turns| - 1];
      var before :| Shaped(w, before) && After(w, turns[..|turns| - 1], before) && s == Step(w, before, last.who, last.chunk);
      AfterInv(w, turns[..|turns| - 1], before);
      TurnsTakeEffort(w, turns[..|turns| - 1], before, i);
      StepTakesEffort(w, before, last.who, last.chunk, i);
    }
  }

  /** Whatever the others do, a contender is finished after as many own steps as its body has characters, and six more. */
  lemma WaitFree(w: Race, turns: seq<Turn>, s: State, i: nat)
    requires Fair(w) && After(w, turns, s) && i < |w.claims|
    requires TurnsOf(turns, i) >= |w.text(BodyOf(w.claims[i]))| + 6
    ensures i < |s.pcs| && Finished(s.pcs[i])
  {
    TurnsTakeEffort(w, turns, s, i);
    AfterInv(w, turns, s);
    assert PcOk(w, s, i);
  }
}
