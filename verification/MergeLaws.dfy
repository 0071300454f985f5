/** Which case a merge keeps for a signature, and what its report says about it. */
module MergeLaws {
  import opened Prelude
  import opened Ordering
  import opened CaseMerger

  // ---- Canonical screens -----------------------------------------------------------------

  /** The canonical screen is the lowest one, or a placeholder if there is none. */
  lemma ScreenIsLowest(c: Case)
    ensures c.screens == [] ==> ScreenOf(c) == "__no_screen__"
    ensures c.screens != [] ==> ScreenOf(c) in c.screens && forall x :: x in c.screens ==> Leq(ScreenOf(c), x)
  {
    var screens := SortedUniqueIds(c.screens);
    if c.screens != [] {
      assert c.screens[0] in screens;
      forall x | x in c.screens ensures Leq(ScreenOf(c), x) {
        assert x in screens;
        var i :| 0 <= i < |screens| && screens[i] == x;
        LeqTotal(x, x);
        assert i > 0 ==> Less(screens[0], screens[i]);
      }
    }
  }

  // ---- The surviving case ----------------------------------------------------------------

  /** `xs[i]` is the first case of its list with signature `s`. */
  predicate IsFirst(xs: seq<Tagged>, i: int, s: Signature) {
    0 <= i < |xs| && xs[i].signature == s && forall j :: 0 <= j < i ==> xs[j].signature != s
  }

  predicate Lacks(xs: seq<Tagged>, s: Signature) {
    forall x :: x in xs ==> x.signature != s
  }

  lemma {:induction false} FirstIsFirst(xs: seq<Tagged>, s: Signature)
    ensures forall i :: IsFirst(xs, i, s) ==> First(xs, s) == Some(xs[i])
    ensures First(xs, s).None? <==> Lacks(xs, s)
    ensures First(xs, s).Some? ==> exists i :: IsFirst(xs, i, s)
  {
    if xs != [] {
      var init, last := xs[..|xs| - 1], |xs| - 1;
      FirstIsFirst(init, s);
      assert xs == init + [xs[last]];
      forall i | IsFirst(xs, i, s) && i < last ensures IsFirst(init, i, s) {
      }
      forall i | IsFirst(init, i, s) ensures IsFirst(xs, i, s) {
      }
      if First(init, s).None? && xs[last].signature == s {
        assert forall j :: 0 <= j < last ==> init[j] in init;
        assert IsFirst(xs, last, s);
      }
    }
  }

  /** `c` is `origin` in everything but the four coverage lists. */
  predicate Preserves(c: Case, origin: Case) {
    && c.id == origin.id && c.technique == origin.technique && c.screens == origin.screens && c.other == origin.other
    && c.signals.other == origin.signals.other
  }

  /** The report's line is about `c`: its id, technique, lowest screen and covered fields and actions. */
  ghost predicate IsAbout(e: Entry, c: Case) {
    && e.testCaseId == c.id && e.technique == c.technique && e.screen == ScreenOf(c)
    && StrictlySorted(e.fields) && (forall x :: x in e.fields <==> x in c.signals.fields)
    && StrictlySorted(e.actions) && (forall x :: x in e.actions <==> x in c.signals.actions)
  }

  predicate HasSortedCoverage(s: Signals) {
    StrictlySorted(s.fields) && StrictlySorted(s.actions) && StrictlySorted(s.validations) && StrictlySorted(s.navigations)
  }

  /** `m` keeps the case `kept` with the coverage of both, and reports `dropped` as dropped. */
  ghost predicate Keeps(m: Merged, kept: Case, dropped: Case, reason: Resolution) {
    && Preserves(m.testCase, kept) && IsAbout(m.entry, m.testCase)
    && (forall x :: x in m.testCase.signals.fields <==> x in kept.signals.fields || x in dropped.signals.fields)
    && (forall x :: x in m.testCase.signals.actions <==> x in kept.signals.actions || x in dropped.signals.actions)
    && (forall x :: x in m.testCase.signals.validations <==> x in kept.signals.validations || x in dropped.signals.validations)
    && (forall x :: x in m.testCase.signals.navigations <==> x in kept.signals.navigations || x in dropped.signals.navigations)
    && HasSortedCoverage(m.testCase.signals)
    && (m.entry.grew <==>
          || |m.testCase.signals.fields| > |kept.signals.fields|
          || |m.testCase.signals.actions| > |kept.signals.actions|
          || |m.testCase.signals.validations| > |kept.signals.validations|
          || |m.testCase.signals.navigations| > |kept.signals.navigations|)
    && m.entry.provenance == Both && m.entry.dropped == Some(dropped.id) && m.entry.resolution == reason
  }

  /** `m` is the case `c` unchanged, from one pass alone. */
  ghost predicate KeepsAlone(m: Merged, c: Case, provenance: Provenance) {
    && m.testCase == c && IsAbout(m.entry, c)
    && m.entry.provenance == provenance && m.entry.dropped == None && m.entry.resolution == NoConflict && !m.entry.grew
  }

  /**
   * For a signature of both passes the merged case is pass B's first one if only pass A's had to be repaired, and
   * pass A's first one otherwise; the other one is reported as dropped.
   */
  lemma WinnerSurvives(a: seq<Tagged>, b: seq<Tagged>, repairsA: set<string>, repairsB: set<string>, m: Merged, i: int, j: int)
    requires m in Outcome(a, b, repairsA, repairsB)
    requires IsFirst(a, i, m.entry.signature) && IsFirst(b, j, m.entry.signature)
    ensures var x, y := a[i].testCase, b[j].testCase;
            if x.id in repairsA && y.id !in repairsB then Keeps(m, y, x, PreferUnrepaired)
            else Keeps(m, x, y, if y.id in repairsB && x.id !in repairsA then PreferUnrepaired else PositiveBiasRunA)
  {
    var s := m.entry.signature;
    var x := FromPassA(a, b, repairsA, repairsB, m, i);
    FirstIsFirst(b, s);
  }

  /** For a signature of one pass the merged case is that pass's first one, unchanged. */
  lemma SingleSurvives(a: seq<Tagged>, b: seq<Tagged>, repairsA: set<string>, repairsB: set<string>, m: Merged, i: int)
    requires m in Outcome(a, b, repairsA, repairsB)
    ensures Lacks(b, m.entry.signature) && IsFirst(a, i, m.entry.signature) ==> KeepsAlone(m, a[i].testCase, RunA)
    ensures Lacks(a, m.entry.signature) && IsFirst(b, i, m.entry.signature) ==> KeepsAlone(m, b[i].testCase, RunB)
  {
    var s := m.entry.signature;
    FirstIsFirst(a, s);
    FirstIsFirst(b, s);
    if Lacks(b, s) && IsFirst(a, i, s) {
      var x := FromPassA(a, b, repairsA, repairsB, m, i);
    }
    if Lacks(a, s) && IsFirst(b, i, s) {
      var y := FromPassB(a, b, repairsA, repairsB, m);
    }
  }

  lemma FromPassA(a: seq<Tagged>, b: seq<Tagged>, repairsA: set<string>, repairsB: set<string>, m: Merged, i: int)
    returns (x: Tagged)
    requires m in Outcome(a, b, repairsA, repairsB) && IsFirst(a, i, m.entry.signature)
    ensures x == a[i] && m == SurvivorIn(x, Context(b, repairsA, repairsB))
  {
    var ctx := Context(b, repairsA, repairsB);
    OutcomeMeans(a, b, repairsA, repairsB);
    FirstIsFirst(a, m.entry.signature);
    if y :| FromB(m, y, a, ctx) {
      assert false;
    }
    x :| FromA(m, x, a, ctx);
    SurvivorKeepsTag(x, ctx);
  }

  lemma FromPassB(a: seq<Tagged>, b: seq<Tagged>, repairsA: set<string>, repairsB: set<string>, m: Merged) returns (y: Tagged)
    requires m in Outcome(a, b, repairsA, repairsB) && Lacks(a, m.entry.signature)
    ensures First(b, m.entry.signature) == Some(y) && m == Alone(y, RunB)
  {
    var ctx := Context(b, repairsA, repairsB);
    OutcomeMeans(a, b, repairsA, repairsB);
    FirstIsFirst(a, m.entry.signature);
    if x :| FromA(m, x, a, ctx) {
      SurvivorKeepsTag(x, ctx);
      assert false;
    }
    y :| FromB(m, y, a, ctx);
  }

  /** Cases are tagged in their order, each with its own signature. */
  lemma {:induction false} TaggedInOrder(sign: Case -> Signature, cases: seq<Case>)
    ensures |Tag(sign, cases)| == |cases|
    ensures forall i :: 0 <= i < |cases| ==> Tag(sign, cases)[i] == Tagged(cases[i], sign(cases[i]))
  {
    if cases != [] {
      TaggedInOrder(sign, cases[..|cases| - 1]);
    }
  }

  /** The merged cases are listed by their ids. */
  lemma OutcomeInOrder(a: seq<Tagged>, b: seq<Tagged>, repairsA: set<string>, repairsB: set<string>, i: int, j: int)
    requires 0 <= i < j < |Outcome(a, b, repairsA, repairsB)|
    ensures var ms := Outcome(a, b, repairsA, repairsB);
            Leq(ms[i].testCase.id, ms[j].testCase.id)
  {
    var ms := Outcome(a, b, repairsA, repairsB);
    SortBySorts(MergedId, Unsorted(a, b, repairsA, repairsB));
    assert Leq(MergedId(ms[i]), MergedId(ms[j]));
  }
}
