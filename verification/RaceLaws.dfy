/** What a race for the first lock ends with, and what a contender has seen when it is refused. */
module RaceLaws {
  import opened Prelude
  import opened ConsolidationLock
  import opened LockRace

  /** Somebody else's complete body, held since its claim, is behind the lock's name. */
  ghost predicate IsHeldByOther(w: Race, s: State, i: nat, o: nat) {
    && o < |w.claims| && o != i && s.lock.Some? && s.lock.value < |s.files|
    && w.parse(s.files[s.lock.value]) == Some(Body(true, w.claims[o].holder, w.claims[o].now))
  }

  /** A contender is only refused right after reading the complete body of another one. */
  lemma RefusedByReading(w: Race, turns: seq<Turn>, s: State, i: nat, chunk: nat)
    requires Fair(w) && After(w, turns, s) && Shaped(w, s) && i < |w.claims| && !s.pcs[i].Refused?
    requires var t := Step(w, s, i, chunk); |t.pcs| == |s.pcs| && t.pcs[i].Refused?
    ensures s.pcs[i].Reading? && exists o: nat :: IsHeldByOther(w, s, i, o)
  {
    AfterInv(w, turns, s);
    var o: nat :| o < |s.pcs| && Owns(w, s, o);
    assert IsHeldByOther(w, s, i, o);
  }

  /** Contender `i` has the lock, its acquire opens the log, and everybody else was refused. */
  ghost predicate HasWon(w: Race, s: State, i: nat)
    requires |s.pcs| == |w.claims|
  {
    && i < |s.pcs| && s.pcs[i] == Won && (forall j :: 0 <= j < |s.pcs| && j != i ==> s.pcs[j] == Pc.Refused)
    && s.lock.Some? && s.lock.value < |s.files|
    && w.parse(s.files[s.lock.value]) == Some(Body(true, w.claims[i].holder, w.claims[i].now))
    && s.log == [Event(Acquired, w.claims[i].holder, None, w.claims[i].now, w.d.root, 0)]
    && s.temps == {}
  }

  lemma FinishedRaceMeans(w: Race, turns: seq<Turn>, s: State) returns (winner: nat)
    requires Fair(w) && After(w, turns, s) && |w.claims| > 0 && Everyone(s)
    ensures |s.pcs| == |w.claims| && HasWon(w, s, winner)
  {
    winner := FinishedRaceHasOneWinner(w, turns, s);
  }
}
