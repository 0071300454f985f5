/** Merging the test cases of two generation passes. */
module CaseMerger {
  import opened Prelude
  import opened Ordering

  /** `other` stands for the fields that the merge copies and never looks at. */
  datatype Signals = Signals(
    fields: seq<string>,
    actions: seq<string>,
    validations: seq<string>,
    navigations: seq<string>,
    other: string)

  datatype Case = Case(id: string, technique: string, screens: seq<string>, signals: Signals, other: string)

  datatype Signature = Signature(screen: string, technique: string, fields: seq<string>, actions: seq<string>)

  const NO_SCREEN := "__no_screen__"

  function SortedUniqueIds(ids: seq<string>): (r: seq<string>)
    ensures StrictlySorted(r) && forall x :: x in r <==> x in ids
  {
    SortedSet(set x | x in ids)
  }

  function ScreenOf(c: Case): string {
    var screens := SortedUniqueIds(c.screens);
    if screens == [] then NO_SCREEN else screens[0]
  }

  function SignatureOf(c: Case): Signature {
    Signature(ScreenOf(c), c.technique, SortedUniqueIds(c.signals.fields), SortedUniqueIds(c.signals.actions))
  }

  /** Signatures agree exactly on the lowest screen, the technique and the covered fields and actions. */
  lemma SameSignatureIff(c: Case, e: Case)
    ensures SignatureOf(c) == SignatureOf(e) <==>
            && ScreenOf(c) == ScreenOf(e) && c.technique == e.technique
            && (forall x :: x in c.signals.fields <==> x in e.signals.fields)
            && (forall x :: x in c.signals.actions <==> x in e.signals.actions)
  {
    if forall x :: x in c.signals.fields <==> x in e.signals.fields {
      StrictlySortedUnique(SortedUniqueIds(c.signals.fields), SortedUniqueIds(e.signals.fields));
    }
    if forall x :: x in c.signals.actions <==> x in e.signals.actions {
      StrictlySortedUnique(SortedUniqueIds(c.signals.actions), SortedUniqueIds(e.signals.actions));
    }
    assert SignatureOf(c).fields == SignatureOf(e).fields ==>
        forall x :: x in c.signals.fields <==> x in SignatureOf(e).fields;
    assert SignatureOf(c).actions == SignatureOf(e).actions ==>
        forall x :: x in c.signals.actions <==> x in SignatureOf(e).actions;
  }

  /** A case with its signature. */
  datatype Tagged = Tagged(testCase: Case, signature: Signature)

  /** `sign` is `SignatureOf`. */
  function Tag(sign: Case -> Signature, cases: seq<Case>): seq<Tagged> {
    if cases == [] then []
    else Tag(sign, cases[..|cases| - 1]) + [Tagged(cases[|cases| - 1], sign(cases[|cases| - 1]))]
  }

  // ---- The first case of every signature -------------------------------------------

  function Signatures(xs: seq<Tagged>): set<Signature> {
    if xs == [] then {} else Signatures(xs[..|xs| - 1]) + {xs[|xs| - 1].signature}
  }

  function First(xs: seq<Tagged>, s: Signature): Option<Tagged> {
    if xs == [] then None
    else if First(xs[..|xs| - 1], s).Some? then First(xs[..|xs| - 1], s)
    else if xs[|xs| - 1].signature == s then Some(xs[|xs| - 1])
    else None
  }

  /** Every case except those that repeat an earlier one's signature. */
  function Kept(xs: seq<Tagged>): seq<Tagged> {
    if xs == [] then []
    else Kept(xs[..|xs| - 1]) + if First(xs[..|xs| - 1], xs[|xs| - 1].signature).Some? then [] else [xs[|xs| - 1]]
  }

  lemma {:induction false} FirstMeans(xs: seq<Tagged>, s: Signature)
    ensures First(xs, s).Some? <==> s in Signatures(xs)
    ensures First(xs, s).Some? ==> First(xs, s).value in xs && First(xs, s).value.signature == s
    ensures forall x :: x in xs && x.signature == s ==> First(xs, s).Some?
  {
    if xs != [] {
      FirstMeans(xs[..|xs| - 1], s);
      assert xs == xs[..|xs| - 1] + [xs[|xs| - 1]];
    }
  }

  ghost predicate DistinctSignatures(xs: seq<Tagged>) {
    forall i, j :: 0 <= i < j < |xs| ==> xs[i].signature != xs[j].signature
  }

  lemma SignaturesStep(xs: seq<Tagged>, x: Tagged)
    ensures Signatures(xs + [x]) == Signatures(xs) + {x.signature}
  {
    assert (xs + [x])[..|xs|] == xs;
  }

  lemma {:induction false} KeptAreFirst(xs: seq<Tagged>)
    ensures forall x :: x in Kept(xs) <==> First(xs, x.signature) == Some(x)
  {
    if xs != [] {
      var init, last := xs[..|xs| - 1], xs[|xs| - 1];
      KeptAreFirst(init);
      FirstMeans(init, last.signature);
    }
  }

  lemma {:induction false} KeptKeepsSignatures(xs: seq<Tagged>)
    ensures Signatures(Kept(xs)) == Signatures(xs)
  {
    if xs != [] {
      var init, last := xs[..|xs| - 1], xs[|xs| - 1];
      KeptKeepsSignatures(init);
      FirstMeans(init, last.signature);
      SignaturesStep(Kept(init), last);
      assert Kept(init) + [] == Kept(init);
    }
  }

  lemma {:induction false} KeptAreDistinct(xs: seq<Tagged>)
    ensures DistinctSignatures(Kept(xs))
  {
    if xs != [] {
      var init, last := xs[..|xs| - 1], xs[|xs| - 1];
      KeptAreDistinct(init);
      KeptAreFirst(init);
      if First(init, last.signature).None? {
        assert forall x :: x in Kept(init) ==> x.signature != last.signature;
      }
    }
  }

  lemma KeptMeans(xs: seq<Tagged>)
    ensures forall x :: x in Kept(xs) <==> First(xs, x.signature) == Some(x)
    ensures DistinctSignatures(Kept(xs)) && Signatures(Kept(xs)) == Signatures(xs)
  {
    KeptAreFirst(xs);
    KeptAreDistinct(xs);
    KeptKeepsSignatures(xs);
  }

  // ---- Merging two cases --------------------------------------------------------------

  /** The union of two coverage lists. */
  function Union(primary: seq<string>, secondary: seq<string>): (r: seq<string>)
    ensures StrictlySorted(r) && forall x :: x in r <==> x in primary || x in secondary
  {
    SortedUniqueIds(primary + secondary)
  }

  function MergeSignals(p: Signals, s: Signals): Signals {
    Signals(Union(p.fields, s.fields), Union(p.actions, s.actions), Union(p.validations, s.validations),
            Union(p.navigations, s.navigations), p.other)
  }

  function CoverageGrew(p: Signals, s: Signals): bool {
    var m := MergeSignals(p, s);
    || |m.fields| > |p.fields| || |m.actions| > |p.actions|
    || |m.validations| > |p.validations| || |m.navigations| > |p.navigations|
  }

  datatype Provenance = RunA | RunB | Both

  datatype Resolution = NoConflict | PreferUnrepaired | PositiveBiasRunA

  datatype Entry = Entry(
    testCaseId: string,
    provenance: Provenance,
    signature: Signature,
    technique: string,
    screen: string,
    fields: seq<string>,
    actions: seq<string>,
    resolution: Resolution,
    dropped: Option<string>,
    grew: bool)

  /** A surviving case and the report's line about it. */
  datatype Merged = Merged(testCase: Case, entry: Entry)

  function Describe(winner: Tagged, provenance: Provenance, resolution: Resolution, dropped: Option<string>, grew: bool,
                    signals: Signals): Entry {
    Entry(winner.testCase.id, provenance, winner.signature, winner.testCase.technique, ScreenOf(winner.testCase),
          SortedUniqueIds(signals.fields), SortedUniqueIds(signals.actions), resolution, dropped, grew)
  }

  function Alone(t: Tagged, provenance: Provenance): Merged {
    Merged(t.testCase, Describe(t, provenance, NoConflict, None, false, t.testCase.signals))
  }

  datatype Decision = Decision(winner: Tagged, loser: Tagged, resolution: Resolution)

  /** The side without a repair instruction wins; failing that, pass A. */
  function Decide(a: Tagged, b: Tagged, repairsA: set<string>, repairsB: set<string>): (r: Decision)
    ensures r.resolution == PreferUnrepaired <==> ((a.testCase.id in repairsA) != (b.testCase.id in repairsB))
    ensures if a.testCase.id in repairsA && b.testCase.id !in repairsB then r.winner == b && r.loser == a
            else r.winner == a && r.loser == b
  {
    if a.testCase.id in repairsA && b.testCase.id !in repairsB then Decision(b, a, PreferUnrepaired)
    else if b.testCase.id in repairsB && a.testCase.id !in repairsA then Decision(a, b, PreferUnrepaired)
    else Decision(a, b, PositiveBiasRunA)
  }

  function Join(a: Tagged, b: Tagged, repairsA: set<string>, repairsB: set<string>): Merged {
    var d := Decide(a, b, repairsA, repairsB);
    var signals := MergeSignals(d.winner.testCase.signals, d.loser.testCase.signals);
    Merged(d.winner.testCase.(signals := signals),
           Describe(d.winner, Both, d.resolution, Some(d.loser.testCase.id),
                    CoverageGrew(d.winner.testCase.signals, d.loser.testCase.signals), signals))
  }

  /** What becomes of a case of pass A, given its counterpart in pass B. */
  function Survivor(a: Tagged, b: Option<Tagged>, repairsA: set<string>, repairsB: set<string>): Merged {
    if b.None? then Alone(a, RunA) else Join(a, b.value, repairsA, repairsB)
  }

  // ---- Merging two lists -------------------------------------------------------------------

  /** The other pass, and the ids either pass had to repair. */
  datatype Context = Context(other: seq<Tagged>, repairsA: set<string>, repairsB: set<string>)

  function SurvivorIn(x: Tagged, ctx: Context): Merged {
    Survivor(x, First(ctx.other, x.signature), ctx.repairsA, ctx.repairsB)
  }

  function Survivors(kept: seq<Tagged>, ctx: Context): seq<Merged> {
    if kept == [] then [] else Survivors(kept[..|kept| - 1], ctx) + [SurvivorIn(kept[|kept| - 1], ctx)]
  }

  /** The cases of pass B whose signature pass A lacks. */
  function Leftovers(kept: seq<Tagged>, a: seq<Tagged>): seq<Merged> {
    if kept == [] then []
    else Leftovers(kept[..|kept| - 1], a) +
         if First(a, kept[|kept| - 1].signature).Some? then [] else [Alone(kept[|kept| - 1], RunB)]
  }

  function Unsorted(a: seq<Tagged>, b: seq<Tagged>, repairsA: set<string>, repairsB: set<string>): seq<Merged> {
    Survivors(Kept(a), Context(b, repairsA, repairsB)) + Leftovers(Kept(b), a)
  }

  function CaseId(c: Case): string {
    c.id
  }

  function EntryId(e: Entry): string {
    e.testCaseId
  }

  function MergedId(m: Merged): string {
    m.testCase.id
  }

  function CaseOf(m: Merged): Case {
    m.testCase
  }

  function EntryOf(m: Merged): Entry {
    m.entry
  }

  function Outcome(a: seq<Tagged>, b: seq<Tagged>, repairsA: set<string>, repairsB: set<string>): seq<Merged> {
    SortBy(MergedId, Unsorted(a, b, repairsA, repairsB))
  }

  function HasSignature(s: Signature): Merged -> bool {
    (m: Merged) => m.entry.signature == s
  }

  function IsFrom(p: Provenance): Merged -> bool {
    (m: Merged) => m.entry.provenance == p
  }

  function IsResolved(r: Resolution): Merged -> bool {
    (m: Merged) => m.entry.resolution == r
  }

  // ---- Members of the merged list --------------------------------------------------------

  lemma {:induction false} SurvivorsAt(kept: seq<Tagged>, ctx: Context)
    ensures |Survivors(kept, ctx)| == |kept|
    ensures forall i :: 0 <= i < |kept| ==> Survivors(kept, ctx)[i] == SurvivorIn(kept[i], ctx)
  {
    if kept != [] {
      SurvivorsAt(kept[..|kept| - 1], ctx);
    }
  }

  lemma {:induction false} LeftoversMeans(kept: seq<Tagged>, a: seq<Tagged>)
    ensures forall m :: m in Leftovers(kept, a) <==>
                        exists x :: x in kept && First(a, x.signature).None? && m == Alone(x, RunB)
  {
    if kept != [] {
      LeftoversMeans(kept[..|kept| - 1], a);
      assert kept == kept[..|kept| - 1] + [kept[|kept| - 1]];
    }
  }

  lemma SurvivorKeepsTag(x: Tagged, ctx: Context)
    ensures SurvivorIn(x, ctx).entry.signature == x.signature
  {
    FirstMeans(ctx.other, x.signature);
  }

  /** Merging keeps the signature: recomputing it from the surviving case gives the reported one. */
  lemma SurvivorKeepsSignature(x: Tagged, ctx: Context)
    requires x.signature == SignatureOf(x.testCase) && WellTagged(SignatureOf, ctx.other)
    ensures SurvivorIn(x, ctx).entry.signature == x.signature == SignatureOf(SurvivorIn(x, ctx).testCase)
  {
    SurvivorKeepsTag(x, ctx);
    FirstMeans(ctx.other, x.signature);
    var y := First(ctx.other, x.signature);
    if y.Some? {
      JoinKeepsSignature(x, y.value, ctx.repairsA, ctx.repairsB);
    }
  }

  lemma JoinKeepsSignature(x: Tagged, y: Tagged, repairsA: set<string>, repairsB: set<string>)
    requires SignatureOf(x.testCase) == SignatureOf(y.testCase)
    ensures SignatureOf(Join(x, y, repairsA, repairsB).testCase) == SignatureOf(x.testCase)
  {
    SameSignatureIff(x.testCase, y.testCase);
    SameSignatureIff(x.testCase, Join(x, y, repairsA, repairsB).testCase);
  }

  ghost predicate WellTagged(sign: Case -> Signature, xs: seq<Tagged>) {
    forall x :: x in xs ==> x.signature == sign(x.testCase)
  }

  lemma {:induction false} TagMeans(sign: Case -> Signature, cases: seq<Case>)
    ensures WellTagged(sign, Tag(sign, cases)) && |Tag(sign, cases)| == |cases|
    ensures forall i :: 0 <= i < |cases| ==> Tag(sign, cases)[i].testCase == cases[i]
  {
    if cases != [] {
      TagMeans(sign, cases[..|cases| - 1]);
    }
  }

  // ---- One case per signature, and the totals ----------------------------------------------

  lemma SetGrows(mine: set<Signature>, theirs: set<Signature>, s: Signature)
    requires s !in mine
    ensures |(mine + {s}) - theirs| == |mine - theirs| + if s in theirs then 0 else 1
    ensures |(mine + {s}) * theirs| == |mine * theirs| + if s in theirs then 1 else 0
  {
    if s in theirs {
      assert (mine + {s}) - theirs == mine - theirs;
      assert (mine + {s}) * theirs == mine * theirs + {s};
    } else {
      assert (mine + {s}) - theirs == mine - theirs + {s};
      assert (mine + {s}) * theirs == mine * theirs;
    }
  }

  lemma {:induction false} SurvivorCounts(kept: seq<Tagged>, ctx: Context)
    requires DistinctSignatures(kept)
    ensures var ms, mine, theirs := Survivors(kept, ctx), Signatures(kept), Signatures(ctx.other);
            && Count(IsFrom(RunA), ms) == |mine - theirs|
            && Count(IsFrom(Both), ms) == |mine * theirs|
            && Count(IsFrom(RunB), ms) == 0
            && Count(IsResolved(PreferUnrepaired), ms) + Count(IsResolved(PositiveBiasRunA), ms) == |mine * theirs|
  {
    if kept != [] {
      var init, last := kept[..|kept| - 1], kept[|kept| - 1];
      SurvivorCounts(init, ctx);
      NotAmong(init, last.signature);
      FirstMeans(ctx.other, last.signature);
      SetGrows(Signatures(init), Signatures(ctx.other), last.signature);
    }
  }

  lemma {:induction false} SurvivorsHave(kept: seq<Tagged>, ctx: Context, s: Signature)
    requires DistinctSignatures(kept)
    ensures Count(HasSignature(s), Survivors(kept, ctx)) == if s in Signatures(kept) then 1 else 0
  {
    if kept != [] {
      var init, last := kept[..|kept| - 1], kept[|kept| - 1];
      SurvivorsHave(init, ctx, s);
      NotAmong(init, last.signature);
      SurvivorKeepsTag(last, ctx);
    }
  }

  lemma {:induction false} NotAmong(xs: seq<Tagged>, s: Signature)
    requires forall x :: x in xs ==> x.signature != s
    ensures s !in Signatures(xs)
  {
    if xs != [] {
      NotAmong(xs[..|xs| - 1], s);
    }
  }

  lemma {:induction false} LeftoverCounts(kept: seq<Tagged>, a: seq<Tagged>)
    requires DistinctSignatures(kept)
    ensures |Leftovers(kept, a)| == |Signatures(kept) - Signatures(a)|
  {
    if kept != [] {
      var init, last := kept[..|kept| - 1], kept[|kept| - 1];
      LeftoverCounts(init, a);
      NotAmong(init, last.signature);
      FirstMeans(a, last.signature);
      SetGrows(Signatures(init), Signatures(a), last.signature);
    }
  }

  lemma {:induction false} LeftoversAreFromB(kept: seq<Tagged>, a: seq<Tagged>)
    ensures var ms := Leftovers(kept, a);
            Count(IsFrom(RunB), ms) == |ms| && Count(IsFrom(RunA), ms) == 0 && Count(IsFrom(Both), ms) == 0
  {
    if kept != [] {
      var before := Leftovers(kept[..|kept| - 1], a);
      LeftoversAreFromB(kept[..|kept| - 1], a);
      assert before + [] == before;
    }
  }

  lemma {:induction false} LeftoversHave(kept: seq<Tagged>, a: seq<Tagged>, s: Signature)
    requires DistinctSignatures(kept)
    ensures Count(HasSignature(s), Leftovers(kept, a)) == if s in Signatures(kept) && s !in Signatures(a) then 1 else 0
  {
    if kept != [] {
      var init, last := kept[..|kept| - 1], kept[|kept| - 1];
      LeftoversHave(init, a, s);
      NotAmong(init, last.signature);
      FirstMeans(a, last.signature);
      assert Leftovers(init, a) + [] == Leftovers(init, a);
    }
  }

  /** Exactly one surviving case for every signature of either pass, and none for any other. */
  lemma OneCasePerSignature(a: seq<Tagged>, b: seq<Tagged>, repairsA: set<string>, repairsB: set<string>, s: Signature)
    ensures Count(HasSignature(s), Outcome(a, b, repairsA, repairsB)) ==
            if s in Signatures(a) + Signatures(b) then 1 else 0
  {
    KeptMeans(a);
    KeptMeans(b);
    var ctx := Context(b, repairsA, repairsB);
    SurvivorsHave(Kept(a), ctx, s);
    LeftoversHave(Kept(b), a, s);
    SplitTotal(HasSignature(s), Survivors(Kept(a), ctx), Leftovers(Kept(b), a));
  }

  /** The totals are the sizes of the differences and the intersection of the two signature sets. */
  lemma TotalsAreConserved(a: seq<Tagged>, b: seq<Tagged>, repairsA: set<string>, repairsB: set<string>)
    ensures var ms := Outcome(a, b, repairsA, repairsB);
            var onlyA, onlyB, both := Count(IsFrom(RunA), ms), Count(IsFrom(RunB), ms), Count(IsFrom(Both), ms);
            && onlyA == |Signatures(a) - Signatures(b)|
            && onlyB == |Signatures(b) - Signatures(a)|
            && both == |Signatures(a) * Signatures(b)|
            && onlyA + onlyB + both == |ms|
            && Count(IsResolved(PreferUnrepaired), ms) + Count(IsResolved(PositiveBiasRunA), ms) == both
  {
    KeptMeans(a);
    KeptMeans(b);
    var ctx := Context(b, repairsA, repairsB);
    var xs, ys := Survivors(Kept(a), ctx), Leftovers(Kept(b), a);
    SurvivorCounts(Kept(a), ctx);
    LeftoverCounts(Kept(b), a);
    LeftoversAreFromB(Kept(b), a);
    LeftoversUndisputed(Kept(b), a);
    SplitTotals(xs, ys);
    ThreeProvenances(Outcome(a, b, repairsA, repairsB));
  }

  lemma SplitTotals(xs: seq<Merged>, ys: seq<Merged>)
    ensures var ms := SortBy(MergedId, xs + ys);
            && (forall p :: Count(IsFrom(p), ms) == Count(IsFrom(p), xs) + Count(IsFrom(p), ys))
            && (forall r :: Count(IsResolved(r), ms) == Count(IsResolved(r), xs) + Count(IsResolved(r), ys))
  {
    var ms := SortBy(MergedId, xs + ys);
    forall p ensures Count(IsFrom(p), ms) == Count(IsFrom(p), xs) + Count(IsFrom(p), ys) {
      SplitTotal(IsFrom(p), xs, ys);
    }
    forall r ensures Count(IsResolved(r), ms) == Count(IsResolved(r), xs) + Count(IsResolved(r), ys) {
      SplitTotal(IsResolved(r), xs, ys);
    }
  }

  lemma SplitTotal(p: Merged -> bool, xs: seq<Merged>, ys: seq<Merged>)
    ensures Count(p, SortBy(MergedId, xs + ys)) == Count(p, xs) + Count(p, ys)
  {
    CountConcat(p, xs, ys);
    CountSortBy(p, MergedId, xs + ys);
  }

  lemma {:induction false} ThreeProvenances(ms: seq<Merged>)
    ensures Count(IsFrom(RunA), ms) + Count(IsFrom(RunB), ms) + Count(IsFrom(Both), ms) == |ms|
  {
    if ms != [] {
      ThreeProvenances(ms[..|ms| - 1]);
    }
  }

  // ---- Coverage --------------------------------------------------------------------------------

  function Fields(s: Signals): seq<string> {
    s.fields
  }

  function Actions(s: Signals): seq<string> {
    s.actions
  }

  function Validations(s: Signals): seq<string> {
    s.validations
  }

  function Navigations(s: Signals): seq<string> {
    s.navigations
  }

  /** One of the four kinds of covered ids. */
  ghost predicate IsCoverage(get: Signals -> seq<string>) {
    get in {Fields, Actions, Validations, Navigations}
  }

  ghost predicate Covered(get: Signals -> seq<string>, id: string, xs: seq<Tagged>) {
    exists x :: x in xs && id in get(x.testCase.signals)
  }

  ghost predicate CoveredAfter(get: Signals -> seq<string>, id: string, ms: seq<Merged>) {
    exists m :: m in ms && id in get(m.testCase.signals)
  }

  lemma MergeUnites(get: Signals -> seq<string>, p: Signals, s: Signals, id: string)
    requires IsCoverage(get)
    ensures id in get(MergeSignals(p, s)) <==> id in get(p) || id in get(s)
  {
  }

  lemma OutcomeMembers(a: seq<Tagged>, b: seq<Tagged>, repairsA: set<string>, repairsB: set<string>)
    ensures forall m :: m in Outcome(a, b, repairsA, repairsB) <==> m in Unsorted(a, b, repairsA, repairsB)
  {
    var u := Unsorted(a, b, repairsA, repairsB);
    SortBySorts(MergedId, u);
    assert forall m :: m in SortBy(MergedId, u) <==> m in multiset(SortBy(MergedId, u));
    assert forall m :: m in u <==> m in multiset(u);
  }

  /** `m` stems from the first case `x` of its signature in pass A. */
  predicate FromA(m: Merged, x: Tagged, a: seq<Tagged>, ctx: Context) {
    First(a, x.signature) == Some(x) && m == SurvivorIn(x, ctx)
  }

  /** `m` is the first case `y` of a signature that only pass B has. */
  predicate FromB(m: Merged, y: Tagged, a: seq<Tagged>, ctx: Context) {
    First(ctx.other, y.signature) == Some(y) && First(a, y.signature).None? && m == Alone(y, RunB)
  }

  lemma OutcomeMeans(a: seq<Tagged>, b: seq<Tagged>, repairsA: set<string>, repairsB: set<string>)
    ensures var ctx := Context(b, repairsA, repairsB);
            forall m :: m in Outcome(a, b, repairsA, repairsB) <==>
                        (exists x :: FromA(m, x, a, ctx)) || (exists y :: FromB(m, y, a, ctx))
  {
    var ctx := Context(b, repairsA, repairsB);
    OutcomeMembers(a, b, repairsA, repairsB);
    KeptMeans(a);
    KeptMeans(b);
    LeftoversMeans(Kept(b), a);
    SurvivorsMeans(Kept(a), ctx);
    forall m
      ensures m in Leftovers(Kept(b), a) <==> exists y :: FromB(m, y, a, ctx)
      ensures m in Survivors(Kept(a), ctx) <==> exists x :: FromA(m, x, a, ctx)
    {
      if m in Leftovers(Kept(b), a) {
        var y :| y in Kept(b) && First(a, y.signature).None? && m == Alone(y, RunB);
        assert FromB(m, y, a, ctx);
      }
      if m in Survivors(Kept(a), ctx) {
        var x :| x in Kept(a) && m == SurvivorIn(x, ctx);
        assert FromA(m, x, a, ctx);
      }
    }
  }

  lemma SurvivorsMeans(kept: seq<Tagged>, ctx: Context)
    ensures forall m :: m in Survivors(kept, ctx) <==> exists x :: x in kept && m == SurvivorIn(x, ctx)
  {
    SurvivorsAt(kept, ctx);
    forall x | x in kept ensures SurvivorIn(x, ctx) in Survivors(kept, ctx) {
      var i :| 0 <= i < |kept| && kept[i] == x;
      assert Survivors(kept, ctx)[i] == SurvivorIn(x, ctx);
    }
  }

  /** The survivors cover exactly the ids of the first case of every signature in either pass. */
  lemma SurvivorsCover(get: Signals -> seq<string>, a: seq<Tagged>, b: seq<Tagged>, repairsA: set<string>,
                       repairsB: set<string>, id: string)
    requires IsCoverage(get)
    ensures CoveredAfter(get, id, Outcome(a, b, repairsA, repairsB)) <==>
            Covered(get, id, Kept(a)) || Covered(get, id, Kept(b))
  {
    if Covered(get, id, Kept(a)) || Covered(get, id, Kept(b)) {
      KeptIsCovered(get, a, b, repairsA, repairsB, id);
    }
    if CoveredAfter(get, id, Outcome(a, b, repairsA, repairsB)) {
      CoveredIsKept(get, a, b, repairsA, repairsB, id);
    }
  }

  lemma CoveredIsKept(get: Signals -> seq<string>, a: seq<Tagged>, b: seq<Tagged>, repairsA: set<string>,
                      repairsB: set<string>, id: string)
    requires IsCoverage(get) && CoveredAfter(get, id, Outcome(a, b, repairsA, repairsB))
    ensures Covered(get, id, Kept(a)) || Covered(get, id, Kept(b))
  {
    var ctx := Context(b, repairsA, repairsB);
    OutcomeMeans(a, b, repairsA, repairsB);
    KeptMeans(a);
    KeptMeans(b);
    var m :| m in Outcome(a, b, repairsA, repairsB) && id in get(m.testCase.signals);
    if x :| FromA(m, x, a, ctx) {
      CoveredBySurvivor(get, x, ctx, id);
      FirstMeans(b, x.signature);
      var y := First(b, x.signature);
      assert x in Kept(a) && (y.Some? ==> y.value in Kept(b));
    } else {
      var y :| FromB(m, y, a, ctx);
      assert y in Kept(b);
    }
  }

  lemma KeptIsCovered(get: Signals -> seq<string>, a: seq<Tagged>, b: seq<Tagged>, repairsA: set<string>,
                      repairsB: set<string>, id: string)
    requires IsCoverage(get) && (Covered(get, id, Kept(a)) || Covered(get, id, Kept(b)))
    ensures CoveredAfter(get, id, Outcome(a, b, repairsA, repairsB))
  {
    var ctx := Context(b, repairsA, repairsB);
    OutcomeMeans(a, b, repairsA, repairsB);
    KeptMeans(a);
    KeptMeans(b);
    var t :| (t in Kept(a) || t in Kept(b)) && id in get(t.testCase.signals);
    FirstMeans(a, t.signature);
    if t in Kept(a) {
      CoveredBySurvivor(get, t, ctx, id);
      assert FromA(SurvivorIn(t, ctx), t, a, ctx);
    } else if First(a, t.signature).Some? {
      var x := First(a, t.signature).value;
      CoveredBySurvivor(get, x, ctx, id);
      assert FromA(SurvivorIn(x, ctx), x, a, ctx);
    } else {
      assert FromB(Alone(t, RunB), t, a, ctx);
    }
  }

  lemma CoveredBySurvivor(get: Signals -> seq<string>, x: Tagged, ctx: Context, id: string)
    requires IsCoverage(get)
    ensures var y := First(ctx.other, x.signature);
            id in get(SurvivorIn(x, ctx).testCase.signals) <==>
            id in get(x.testCase.signals) || (y.Some? && id in get(y.value.testCase.signals))
  {
    var y := First(ctx.other, x.signature);
    if y.Some? {
      var d := Decide(x, y.value, ctx.repairsA, ctx.repairsB);
      MergeUnites(get, d.winner.testCase.signals, d.loser.testCase.signals, id);
    }
  }

  /** The signature determines the ids that `get` gives. */
  ghost predicate Tied(get: Signals -> seq<string>, xs: seq<Tagged>) {
    forall x, y, id ::
      x in xs && y in xs && x.signature == y.signature && id in get(x.testCase.signals) ==> id in get(y.testCase.signals)
  }

  lemma TagsTie(xs: seq<Tagged>)
    requires WellTagged(SignatureOf, xs)
    ensures Tied(Fields, xs) && Tied(Actions, xs)
  {
    forall x, y | x in xs && y in xs && x.signature == y.signature
      ensures forall id :: id in x.testCase.signals.fields ==> id in y.testCase.signals.fields
      ensures forall id :: id in x.testCase.signals.actions ==> id in y.testCase.signals.actions
    {
      SameSignatureIff(x.testCase, y.testCase);
    }
  }

  lemma TiedKeepsAll(get: Signals -> seq<string>, xs: seq<Tagged>, id: string)
    requires Tied(get, xs)
    ensures Covered(get, id, Kept(xs)) <==> Covered(get, id, xs)
  {
    KeptMeans(xs);
    forall x | x in xs
      ensures First(xs, x.signature).Some? && First(xs, x.signature).value in Kept(xs)
      ensures First(xs, x.signature).value in xs && First(xs, x.signature).value.signature == x.signature
    {
      FirstMeans(xs, x.signature);
    }
    forall x | x in Kept(xs) ensures x in xs {
      FirstMeans(xs, x.signature);
    }
    if Covered(get, id, xs) {
      var x :| x in xs && id in get(x.testCase.signals);
      assert id in get(First(xs, x.signature).value.testCase.signals);
    }
  }

  lemma TiedSurvive(get: Signals -> seq<string>, a: seq<Tagged>, b: seq<Tagged>, repairsA: set<string>,
                    repairsB: set<string>, id: string)
    requires IsCoverage(get) && Tied(get, a) && Tied(get, b)
    ensures CoveredAfter(get, id, Outcome(a, b, repairsA, repairsB)) <==> Covered(get, id, a) || Covered(get, id, b)
  {
    SurvivorsCover(get, a, b, repairsA, repairsB, id);
    TiedKeepsAll(get, a, id);
    TiedKeepsAll(get, b, id);
  }

  /** No covered field or action is lost or made up, those of dropped duplicates included. */
  lemma FieldsAndActionsSurvive(a: seq<Tagged>, b: seq<Tagged>, repairsA: set<string>, repairsB: set<string>, id: string)
    requires WellTagged(SignatureOf, a) && WellTagged(SignatureOf, b)
    ensures var ms := Outcome(a, b, repairsA, repairsB);
            && (CoveredAfter(Fields, id, ms) <==> Covered(Fields, id, a) || Covered(Fields, id, b))
            && (CoveredAfter(Actions, id, ms) <==> Covered(Actions, id, a) || Covered(Actions, id, b))
  {
    TagsTie(a);
    TagsTie(b);
    TiedSurvive(Fields, a, b, repairsA, repairsB, id);
    TiedSurvive(Actions, a, b, repairsA, repairsB, id);
  }

  // ---- The flag that reports grown coverage ---------------------------------------------------

  /** A union is longer than its first part exactly if it brings more new ids than that part has repetitions. */
  lemma LongerIff(p: seq<string>, s: seq<string>)
    ensures var known := set x | x in p;
            |Union(p, s)| > |p| <==> |(set x | x in s) - known| > |p| - |known|
  {
    var known, brought := set x | x in p, set x | x in s;
    StrictlySortedCardinality(Union(p, s));
    assert (set x | x in Union(p, s)) == known + (brought - known);
  }

  /** Cases with the same signature never bring each other new fields or actions. */
  lemma GrowthIsValidationOrNavigation(x: Case, y: Case)
    requires SignatureOf(x) == SignatureOf(y)
    ensures CoverageGrew(x.signals, y.signals) <==>
            || |Union(x.signals.validations, y.signals.validations)| > |x.signals.validations|
            || |Union(x.signals.navigations, y.signals.navigations)| > |x.signals.navigations|
  {
    SameSignatureIff(x, y);
    NothingNew(x.signals.fields, y.signals.fields);
    NothingNew(x.signals.actions, y.signals.actions);
  }

  lemma NothingNew(p: seq<string>, s: seq<string>)
    requires forall x :: x in s ==> x in p
    ensures |Union(p, s)| <= |p|
  {
    LongerIff(p, s);
    var known := set x | x in p;
    assert (set x | x in s) - known == {};
    SetNoLarger(p);
  }

  lemma {:induction false} SetNoLarger(xs: seq<string>)
    ensures |set x | x in xs| <= |xs|
  {
    if xs != [] {
      SetNoLarger(xs[1..]);
      assert (set x | x in xs) == {xs[0]} + (set x | x in xs[1..]);
    }
  }

  // ---- When the order within a pass matters -----------------------------------------------------

  /** What becomes of a case of pass B if it is the first of its signature. */
  function Origin(y: Tagged, a: seq<Tagged>, repairsA: set<string>, repairsB: set<string>): Merged {
    match First(a, y.signature)
    case Some(x) => Join(x, y, repairsA, repairsB)
    case None => Alone(y, RunB)
  }

  /** Cases of pass A that share a signature are interchangeable, and all others survive under different ids. */
  ghost predicate OrderFreeA(a: seq<Tagged>, ctx: Context) {
    forall x, y :: x in a && y in a ==>
      if x.signature == y.signature then SurvivorIn(x, ctx) == SurvivorIn(y, ctx)
      else MergedId(SurvivorIn(x, ctx)) != MergedId(SurvivorIn(y, ctx))
  }

  /** The same for pass B, where only cases without a counterpart in pass A are ordered among each other. */
  ghost predicate OrderFreeB(b: seq<Tagged>, a: seq<Tagged>, repairsA: set<string>, repairsB: set<string>) {
    forall x, y :: x in b && y in b ==>
      if x.signature == y.signature then Origin(x, a, repairsA, repairsB) == Origin(y, a, repairsA, repairsB)
      else First(a, x.signature).None? && First(a, y.signature).None? ==> x.testCase.id != y.testCase.id
  }

  lemma SameMembers(xs: seq<Tagged>, ys: seq<Tagged>)
    requires multiset(xs) == multiset(ys)
    ensures forall x :: x in xs <==> x in ys
    ensures forall s :: First(xs, s).Some? <==> First(ys, s).Some?
  {
    forall x ensures x in xs <==> x in ys {
      assert x in xs <==> x in multiset(xs);
      assert x in ys <==> x in multiset(ys);
    }
    forall s ensures First(xs, s).Some? <==> First(ys, s).Some? {
      FirstMeans(xs, s);
      FirstMeans(ys, s);
    }
  }

  lemma {:induction false} LeftoversDependOnSignatures(kept: seq<Tagged>, a: seq<Tagged>, a2: seq<Tagged>)
    requires forall s :: First(a, s).Some? <==> First(a2, s).Some?
    ensures Leftovers(kept, a) == Leftovers(kept, a2)
  {
    if kept != [] {
      LeftoversDependOnSignatures(kept[..|kept| - 1], a, a2);
    }
  }

  lemma SurvivorsDistinct(a: seq<Tagged>, a2: seq<Tagged>, ctx: Context)
    requires OrderFreeA(a, ctx) && forall x :: x in a2 ==> x in a
    ensures DistinctKeys(MergedId, Survivors(Kept(a2), ctx))
  {
    KeptMeans(a2);
    SurvivorsAt(Kept(a2), ctx);
    var kept := Kept(a2);
    forall i, j | 0 <= i < j < |kept| ensures MergedId(SurvivorIn(kept[i], ctx)) != MergedId(SurvivorIn(kept[j], ctx)) {
      assert kept[i] in kept && kept[j] in kept;
      FirstMeans(a2, kept[i].signature);
      FirstMeans(a2, kept[j].signature);
    }
  }

  lemma SurvivorsOfPermutation(a: seq<Tagged>, a2: seq<Tagged>, ctx: Context)
    requires OrderFreeA(a, ctx) && forall x :: x in a <==> x in a2
    ensures forall m :: m in Survivors(Kept(a), ctx) ==> m in Survivors(Kept(a2), ctx)
  {
    KeptMeans(a);
    KeptMeans(a2);
    SurvivorsMeans(Kept(a), ctx);
    SurvivorsMeans(Kept(a2), ctx);
    forall m | m in Survivors(Kept(a), ctx) ensures m in Survivors(Kept(a2), ctx) {
      var x :| x in Kept(a) && m == SurvivorIn(x, ctx);
      FirstMeans(a, x.signature);
      FirstMeans(a2, x.signature);
      var y := First(a2, x.signature).value;
      assert y in Kept(a2) && SurvivorIn(y, ctx) == m;
    }
  }

  /** Reordering pass A changes nothing if it is order-free. */
  lemma PermutingA(a: seq<Tagged>, a2: seq<Tagged>, b: seq<Tagged>, repairsA: set<string>, repairsB: set<string>)
    requires multiset(a) == multiset(a2) && OrderFreeA(a, Context(b, repairsA, repairsB))
    ensures Outcome(a, b, repairsA, repairsB) == Outcome(a2, b, repairsA, repairsB)
  {
    var ctx := Context(b, repairsA, repairsB);
    SameMembers(a, a2);
    LeftoversDependOnSignatures(Kept(b), a, a2);
    SurvivorsDistinct(a, a, ctx);
    SurvivorsDistinct(a, a2, ctx);
    SurvivorsOfPermutation(a, a2, ctx);
    SurvivorsOfPermutation(a2, a, ctx);
    forall k ensures WithKey(MergedId, k, Unsorted(a, b, repairsA, repairsB)) == WithKey(MergedId, k, Unsorted(a2, b, repairsA, repairsB)) {
      SameDistinctMembers(MergedId, k, Survivors(Kept(a), ctx), Survivors(Kept(a2), ctx));
      WithKeyConcat(MergedId, k, Survivors(Kept(a), ctx), Leftovers(Kept(b), a));
      WithKeyConcat(MergedId, k, Survivors(Kept(a2), ctx), Leftovers(Kept(b), a2));
    }
    SortsAlikeIff(MergedId, Unsorted(a, b, repairsA, repairsB), Unsorted(a2, b, repairsA, repairsB));
  }

  /** `x` moved to the front. */
  lemma MoveToFront(xs: seq<Tagged>, x: Tagged) returns (ys: seq<Tagged>)
    requires x in xs
    ensures multiset(ys) == multiset(xs) && ys != [] && ys[0] == x
  {
    var i :| 0 <= i < |xs| && xs[i] == x;
    ys := [x] + xs[..i] + xs[i + 1..];
    assert xs == xs[..i] + [x] + xs[i + 1..];
  }

  lemma {:induction false} FrontIsKept(xs: seq<Tagged>)
    requires xs != []
    ensures First(xs, xs[0].signature) == Some(xs[0])
    ensures Kept(xs) != [] && Kept(xs)[0] == xs[0]
  {
    if |xs| > 1 {
      FrontIsKept(xs[..|xs| - 1]);
    } else {
      assert Kept(xs[..0]) == [] && First(xs[..0], xs[0].signature) == None;
    }
  }

  /** If pass A is not order-free, two of its orders give different results. */
  lemma OrderOfAMatters(a: seq<Tagged>, b: seq<Tagged>, repairsA: set<string>, repairsB: set<string>)
    returns (a1: seq<Tagged>, a2: seq<Tagged>)
    requires !OrderFreeA(a, Context(b, repairsA, repairsB))
    ensures multiset(a1) == multiset(a2) == multiset(a)
    ensures Outcome(a1, b, repairsA, repairsB) != Outcome(a2, b, repairsA, repairsB)
  {
    var ctx := Context(b, repairsA, repairsB);
    var x, y :| x in a && y in a &&
                !(if x.signature == y.signature then SurvivorIn(x, ctx) == SurvivorIn(y, ctx)
                  else MergedId(SurvivorIn(x, ctx)) != MergedId(SurvivorIn(y, ctx)));
    a1 := MoveToFront(a, x);
    a2 := MoveToFront(a, y);
    FrontSurvives(a1, b, repairsA, repairsB);
    FrontSurvives(a2, b, repairsA, repairsB);
    SurvivorKeepsTag(x, ctx);
    SurvivorKeepsTag(y, ctx);
    if Outcome(a1, b, repairsA, repairsB) == Outcome(a2, b, repairsA, repairsB) {
      if x.signature == y.signature {
        OnlyOneOf(a1, b, repairsA, repairsB, SurvivorIn(x, ctx), SurvivorIn(y, ctx));
      } else {
        SortsAlikeIff(MergedId, Unsorted(a1, b, repairsA, repairsB), Unsorted(a2, b, repairsA, repairsB));
      }
    }
  }

  /** The first case of pass A heads the unsorted result, and so the results with its id. */
  lemma FrontSurvives(a: seq<Tagged>, b: seq<Tagged>, repairsA: set<string>, repairsB: set<string>)
    requires a != []
    ensures var m := SurvivorIn(a[0], Context(b, repairsA, repairsB));
            && m in Outcome(a, b, repairsA, repairsB)
            && WithKey(MergedId, MergedId(m), Unsorted(a, b, repairsA, repairsB)) != []
            && WithKey(MergedId, MergedId(m), Unsorted(a, b, repairsA, repairsB))[0] == m
  {
    var ctx := Context(b, repairsA, repairsB);
    FrontIsKept(a);
    SurvivorsAt(Kept(a), ctx);
    OutcomeMembers(a, b, repairsA, repairsB);
    var u := Unsorted(a, b, repairsA, repairsB);
    assert u[0] == SurvivorIn(a[0], ctx);
  }

  lemma OnlyOneOf(a: seq<Tagged>, b: seq<Tagged>, repairsA: set<string>, repairsB: set<string>, m: Merged, n: Merged)
    requires m in Outcome(a, b, repairsA, repairsB) && n in Outcome(a, b, repairsA, repairsB)
    requires m.entry.signature == n.entry.signature
    ensures m == n
  {
    OneCasePerSignature(a, b, repairsA, repairsB, m.entry.signature);
    if m != n {
      CountTwo(HasSignature(m.entry.signature), Outcome(a, b, repairsA, repairsB), m, n);
    }
  }

  // ---- The same for pass B ------------------------------------------------------------------------

  lemma {:induction false} SurvivorsUnchanged(kept: seq<Tagged>, a: seq<Tagged>, b: seq<Tagged>, b2: seq<Tagged>,
                                              repairsA: set<string>, repairsB: set<string>)
    requires OrderFreeB(b, a, repairsA, repairsB) && multiset(b) == multiset(b2)
    requires forall x :: x in kept ==> First(a, x.signature) == Some(x)
    ensures Survivors(kept, Context(b, repairsA, repairsB)) == Survivors(kept, Context(b2, repairsA, repairsB))
  {
    if kept != [] {
      var last := kept[|kept| - 1];
      assert forall x :: x in kept[..|kept| - 1] ==> x in kept;
      SurvivorsUnchanged(kept[..|kept| - 1], a, b, b2, repairsA, repairsB);
      SameMembers(b, b2);
      FirstMeans(b, last.signature);
      FirstMeans(b2, last.signature);
      if First(b, last.signature).Some? {
        var y, y2 := First(b, last.signature).value, First(b2, last.signature).value;
        assert Origin(y, a, repairsA, repairsB) == Origin(y2, a, repairsA, repairsB);
      }
    }
  }

  lemma {:induction false} LeftoversDistinct(kept: seq<Tagged>, a: seq<Tagged>, b: seq<Tagged>, repairsA: set<string>,
                                             repairsB: set<string>)
    requires OrderFreeB(b, a, repairsA, repairsB) && (forall x :: x in kept ==> x in b) && DistinctSignatures(kept)
    ensures DistinctKeys(MergedId, Leftovers(kept, a))
  {
    if kept != [] {
      var init, last := kept[..|kept| - 1], kept[|kept| - 1];
      assert forall x :: x in init ==> x in kept;
      LeftoversDistinct(init, a, b, repairsA, repairsB);
      LeftoversMeans(init, a);
      if First(a, last.signature).None? {
        forall m | m in Leftovers(init, a) ensures MergedId(m) != last.testCase.id {
          var x :| x in init && First(a, x.signature).None? && m == Alone(x, RunB);
          assert x in b && last in b;
        }
      } else {
        assert Leftovers(kept, a) == Leftovers(init, a);
      }
    }
  }

  lemma LeftoversOfPermutation(a: seq<Tagged>, b: seq<Tagged>, b2: seq<Tagged>, repairsA: set<string>, repairsB: set<string>)
    requires OrderFreeB(b, a, repairsA, repairsB) && forall x :: x in b <==> x in b2
    ensures forall m :: m in Leftovers(Kept(b), a) ==> m in Leftovers(Kept(b2), a)
  {
    KeptMeans(b);
    KeptMeans(b2);
    LeftoversMeans(Kept(b), a);
    LeftoversMeans(Kept(b2), a);
    forall m | m in Leftovers(Kept(b), a) ensures m in Leftovers(Kept(b2), a) {
      var x :| x in Kept(b) && First(a, x.signature).None? && m == Alone(x, RunB);
      FirstMeans(b, x.signature);
      FirstMeans(b2, x.signature);
      var y := First(b2, x.signature).value;
      assert y in Kept(b2) && Origin(x, a, repairsA, repairsB) == Origin(y, a, repairsA, repairsB);
    }
  }

  lemma KeptAreMembers(xs: seq<Tagged>)
    ensures forall x :: x in Kept(xs) ==> x in xs
  {
    KeptMeans(xs);
    forall x | x in Kept(xs) ensures x in xs {
      FirstMeans(xs, x.signature);
    }
  }

  /** Reordering pass B changes nothing if it is order-free. */
  lemma PermutingB(a: seq<Tagged>, b: seq<Tagged>, b2: seq<Tagged>, repairsA: set<string>, repairsB: set<string>)
    requires multiset(b) == multiset(b2) && OrderFreeB(b, a, repairsA, repairsB)
    ensures Outcome(a, b, repairsA, repairsB) == Outcome(a, b2, repairsA, repairsB)
  {
    var survivors := Survivors(Kept(a), Context(b, repairsA, repairsB));
    SameMembers(b, b2);
    KeptMeans(a);
    KeptMeans(b);
    KeptMeans(b2);
    KeptAreMembers(b);
    KeptAreMembers(b2);
    SurvivorsUnchanged(Kept(a), a, b, b2, repairsA, repairsB);
    LeftoversDistinct(Kept(b), a, b, repairsA, repairsB);
    LeftoversDistinct(Kept(b2), a, b, repairsA, repairsB);
    LeftoversOfPermutation(a, b, b2, repairsA, repairsB);
    LeftoversOfPermutation(a, b2, b, repairsA, repairsB);
    forall k ensures WithKey(MergedId, k, Unsorted(a, b, repairsA, repairsB)) == WithKey(MergedId, k, Unsorted(a, b2, repairsA, repairsB)) {
      SameDistinctMembers(MergedId, k, Leftovers(Kept(b), a), Leftovers(Kept(b2), a));
      WithKeyConcat(MergedId, k, survivors, Leftovers(Kept(b), a));
      WithKeyConcat(MergedId, k, survivors, Leftovers(Kept(b2), a));
    }
    SortsAlikeIff(MergedId, Unsorted(a, b, repairsA, repairsB), Unsorted(a, b2, repairsA, repairsB));
  }

  /** If pass B is not order-free, two of its orders give different results. */
  lemma OrderOfBMatters(a: seq<Tagged>, b: seq<Tagged>, repairsA: set<string>, repairsB: set<string>)
    returns (b1: seq<Tagged>, b2: seq<Tagged>)
    requires !OrderFreeB(b, a, repairsA, repairsB)
    ensures multiset(b1) == multiset(b2) == multiset(b)
    ensures Outcome(a, b1, repairsA, repairsB) != Outcome(a, b2, repairsA, repairsB)
  {
    var x, y :| x in b && y in b &&
                !(if x.signature == y.signature then Origin(x, a, repairsA, repairsB) == Origin(y, a, repairsA, repairsB)
                  else First(a, x.signature).None? && First(a, y.signature).None? ==> x.testCase.id != y.testCase.id);
    if x.signature == y.signature {
      b1 := MoveToFront(b, x);
      b2 := MoveToFront(b, y);
      FrontOriginates(a, b1, repairsA, repairsB);
      FrontOriginates(a, b2, repairsA, repairsB);
      if Outcome(a, b1, repairsA, repairsB) == Outcome(a, b2, repairsA, repairsB) {
        OnlyOneOf(a, b1, repairsA, repairsB, Origin(x, a, repairsA, repairsB), Origin(y, a, repairsA, repairsB));
      }
    } else {
      var rest;
      b1, b2, rest := SwapToFront(b, x, y);
      FirstsAgree(x, y, rest);
      SurvivorsDependOnFirsts(Kept(a), b1, b2, repairsA, repairsB);
      LeftoverHeads(a, b1);
      LeftoverHeads(a, b2);
      var survivors, k := Survivors(Kept(a), Context(b1, repairsA, repairsB)), x.testCase.id;
      WithKeyConcat(MergedId, k, survivors, Leftovers(Kept(b1), a));
      WithKeyConcat(MergedId, k, survivors, Leftovers(Kept(b2), a));
      SortsAlikeIff(MergedId, Unsorted(a, b1, repairsA, repairsB), Unsorted(a, b2, repairsA, repairsB));
      var w1, w2 := WithKey(MergedId, k, Leftovers(Kept(b1), a)), WithKey(MergedId, k, Leftovers(Kept(b2), a));
      assert w1[0] != w2[0];
      assert WithKey(MergedId, k, survivors) + w1 != WithKey(MergedId, k, survivors) + w2 by {
        var n := |WithKey(MergedId, k, survivors)|;
        assert (WithKey(MergedId, k, survivors) + w1)[n] != (WithKey(MergedId, k, survivors) + w2)[n];
      }
    }
  }

  lemma FromAIsIn(m: Merged, x: Tagged, a: seq<Tagged>, ctx: Context)
    requires FromA(m, x, a, ctx)
    ensures m in Outcome(a, ctx.other, ctx.repairsA, ctx.repairsB)
  {
    OutcomeMeans(a, ctx.other, ctx.repairsA, ctx.repairsB);
  }

  lemma FromBIsIn(m: Merged, y: Tagged, a: seq<Tagged>, ctx: Context)
    requires FromB(m, y, a, ctx)
    ensures m in Outcome(a, ctx.other, ctx.repairsA, ctx.repairsB)
  {
    OutcomeMeans(a, ctx.other, ctx.repairsA, ctx.repairsB);
  }

  lemma FrontOriginates(a: seq<Tagged>, b: seq<Tagged>, repairsA: set<string>, repairsB: set<string>)
    requires b != []
    ensures Origin(b[0], a, repairsA, repairsB) in Outcome(a, b, repairsA, repairsB)
    ensures Origin(b[0], a, repairsA, repairsB).entry.signature == b[0].signature
  {
    var ctx, first := Context(b, repairsA, repairsB), First(a, b[0].signature);
    FrontIsKept(b);
    FirstMeans(a, b[0].signature);
    if first.Some? {
      FromAIsIn(Origin(b[0], a, repairsA, repairsB), first.value, a, ctx);
    } else {
      FromBIsIn(Origin(b[0], a, repairsA, repairsB), b[0], a, ctx);
    }
  }

  lemma SwapToFront(xs: seq<Tagged>, x: Tagged, y: Tagged) returns (ys: seq<Tagged>, zs: seq<Tagged>, rest: seq<Tagged>)
    requires x in xs && y in xs && x != y
    ensures ys == [x, y] + rest && zs == [y, x] + rest && multiset(ys) == multiset(zs) == multiset(xs)
  {
    var front := MoveToFront(xs, x);
    assert y in multiset(front);
    var i :| 0 <= i < |front| && front[i] == y;
    rest := front[1..i] + front[i + 1..];
    ys, zs := [x, y] + rest, [y, x] + rest;
    assert front == [x] + front[1..i] + [y] + front[i + 1..];
  }

  /** Swapping two front cases with different signatures changes the first case of no signature. */
  lemma {:induction false} FirstsAgree(x: Tagged, y: Tagged, rest: seq<Tagged>)
    requires x.signature != y.signature
    ensures forall s :: First([x, y] + rest, s) == First([y, x] + rest, s)
  {
    if rest == [] {
      assert [x, y] + rest == [x, y] && [y, x] + rest == [y, x];
      assert [x, y][..1] == [x] && [y, x][..1] == [y] && [x][..0] == [] && [y][..0] == [];
      forall s ensures First([x, y], s) == First([y, x], s) {
        assert First([x], s) == (if x.signature == s then Some(x) else None);
        assert First([y], s) == (if y.signature == s then Some(y) else None);
      }
    } else {
      FirstsAgree(x, y, rest[..|rest| - 1]);
      var xy, yx := [x, y] + rest, [y, x] + rest;
      assert xy[..|xy| - 1] == [x, y] + rest[..|rest| - 1] && yx[..|yx| - 1] == [y, x] + rest[..|rest| - 1];
    }
  }

  lemma {:induction false} SurvivorsDependOnFirsts(kept: seq<Tagged>, b: seq<Tagged>, b2: seq<Tagged>,
                                                   repairsA: set<string>, repairsB: set<string>)
    requires forall s :: First(b, s) == First(b2, s)
    ensures Survivors(kept, Context(b, repairsA, repairsB)) == Survivors(kept, Context(b2, repairsA, repairsB))
  {
    if kept != [] {
      SurvivorsDependOnFirsts(kept[..|kept| - 1], b, b2, repairsA, repairsB);
    }
  }

  lemma {:induction false} LeftoversHead(kept: seq<Tagged>, a: seq<Tagged>)
    requires kept != [] && First(a, kept[0].signature).None?
    ensures Leftovers(kept, a) != [] && Leftovers(kept, a)[0] == Alone(kept[0], RunB)
  {
    if |kept| > 1 {
      LeftoversHead(kept[..|kept| - 1], a);
    } else {
      assert Leftovers(kept[..0], a) == [];
    }
  }

  lemma LeftoverHeads(a: seq<Tagged>, b: seq<Tagged>)
    requires b != [] && First(a, b[0].signature).None?
    ensures var w := WithKey(MergedId, b[0].testCase.id, Leftovers(Kept(b), a)); w != [] && w[0] == Alone(b[0], RunB)
  {
    FrontIsKept(b);
    LeftoversHead(Kept(b), a);
  }

  // ---- The same on the inputs ---------------------------------------------------------------------

  /** No two different cases of a pass share a signature. */
  ghost predicate OneEach(xs: seq<Tagged>) {
    forall x, y :: x in xs && y in xs && x.signature == y.signature ==> x == y
  }

  /** Cases of either pass with different signatures have different ids. */
  ghost predicate IdsTellSignatures(a: seq<Tagged>, b: seq<Tagged>) {
    forall x, y :: (x in a || x in b) && (y in a || y in b) && x.signature != y.signature ==> x.testCase.id != y.testCase.id
  }

  lemma SurvivorIdIn(x: Tagged, ctx: Context) returns (y: Tagged)
    ensures (y == x || y in ctx.other) && y.signature == x.signature && MergedId(SurvivorIn(x, ctx)) == y.testCase.id
  {
    FirstMeans(ctx.other, x.signature);
    var f := First(ctx.other, x.signature);
    y := if f.Some? && SurvivorIn(x, ctx).testCase.id == f.value.testCase.id then f.value else x;
  }

  lemma InputsAreOrderFree(a: seq<Tagged>, b: seq<Tagged>, repairsA: set<string>, repairsB: set<string>)
    requires OneEach(a) && OneEach(b) && IdsTellSignatures(a, b)
    ensures OrderFreeA(a, Context(b, repairsA, repairsB)) && OrderFreeB(b, a, repairsA, repairsB)
  {
    var ctx := Context(b, repairsA, repairsB);
    forall x, y | x in a && y in a && x.signature != y.signature
      ensures MergedId(SurvivorIn(x, ctx)) != MergedId(SurvivorIn(y, ctx))
    {
      var u := SurvivorIdIn(x, ctx);
      var v := SurvivorIdIn(y, ctx);
    }
  }

  /** Without repeated signatures or shared ids the order of both passes is irrelevant. */
  lemma PermutingBoth(a: seq<Tagged>, a2: seq<Tagged>, b: seq<Tagged>, b2: seq<Tagged>, repairsA: set<string>, repairsB: set<string>)
    requires multiset(a) == multiset(a2) && multiset(b) == multiset(b2)
    requires OneEach(a) && OneEach(b) && IdsTellSignatures(a, b)
    ensures Outcome(a, b, repairsA, repairsB) == Outcome(a2, b2, repairsA, repairsB)
  {
    SameMembers(a, a2);
    SameMembers(b, b2);
    InputsAreOrderFree(a, b, repairsA, repairsB);
    PermutingB(a, b, b2, repairsA, repairsB);
    InputsAreOrderFree(a, b2, repairsA, repairsB);
    PermutingA(a, a2, b2, repairsA, repairsB);
  }

  /** Two different cases with one signature in one pass: the result depends on which comes first. */
  lemma DuplicatesDependOnOrder(x: Tagged, y: Tagged)
    requires x.signature == y.signature && x.testCase != y.testCase
    ensures Outcome([x, y], [], {}, {}) != Outcome([y, x], [], {}, {})
  {
    FrontSurvives([x, y], [], {}, {});
    FrontSurvives([y, x], [], {}, {});
    if Outcome([x, y], [], {}, {}) == Outcome([y, x], [], {}, {}) {
      OnlyOneOf([x, y], [], {}, {}, Alone(x, RunA), Alone(y, RunA));
    }
  }

  /** For instance two cases that differ in their ids only. */
  lemma OrderOfPassAShows()
    ensures var x := Case("a", "boundary", [], Signals([], [], [], [], ""), "");
            var y := Case("b", "boundary", [], Signals([], [], [], [], ""), "");
            SignatureOf(x) == SignatureOf(y) &&
            Outcome([Tagged(x, SignatureOf(x)), Tagged(y, SignatureOf(y))], [], {}, {}) !=
            Outcome([Tagged(y, SignatureOf(y)), Tagged(x, SignatureOf(x))], [], {}, {})
  {
    var x := Case("a", "boundary", [], Signals([], [], [], [], ""), "");
    var y := Case("b", "boundary", [], Signals([], [], [], [], ""), "");
    SameSignatureIff(x, y);
    assert "a"[0] != "b"[0];
    DuplicatesDependOnOrder(Tagged(x, SignatureOf(x)), Tagged(y, SignatureOf(y)));
  }

  // ---- The merge as a walk over both passes ---------------------------------------------------------

  /** A case at its position in its pass. */
  datatype Indexed = Indexed(index: nat, tagged: Tagged)

  datatype CaseList = CaseList(jobId: string, cases: seq<Case>)

  datatype Totals = Totals(
    runA: nat,
    runB: nat,
    merged: nat,
    onlyInRunA: nat,
    onlyInRunB: nat,
    inBoth: nat,
    resolvedByRepair: nat,
    resolvedByBias: nat)

  datatype Report = Report(jobId: string, generatedAt: string, totals: Totals, entries: seq<Entry>)

  datatype MergeError = DifferentJobs | EmptyTimestamp

  /** The case is the first of its signature. */
  predicate Leads(ordered: seq<Indexed>, e: Indexed) {
    && e.index < |ordered| && ordered[e.index] == e
    && forall k :: 0 <= k < e.index ==> ordered[k].tagged.signature != e.tagged.signature
  }

  ghost predicate IsIndex(bySignature: map<Signature, Indexed>, ordered: seq<Indexed>, tags: seq<Tagged>) {
    && |ordered| == |tags|
    && (forall i :: 0 <= i < |tags| ==> ordered[i] == Indexed(i, tags[i]))
    && (forall s :: s in bySignature <==> First(tags, s).Some?)
    && (forall s :: s in bySignature ==>
                      bySignature[s].tagged == First(tags, s).value && bySignature[s].tagged.signature == s && Leads(ordered, bySignature[s]))
  }

  lemma NotLedByLater(ordered: seq<Indexed>, tags: seq<Tagged>, s: Signature)
    requires |ordered| == |tags| && forall i :: 0 <= i < |tags| ==> ordered[i] == Indexed(i, tags[i])
    requires First(tags, s).None?
    ensures forall k :: 0 <= k < |ordered| ==> ordered[k].tagged.signature != s
  {
    FirstMeans(tags, s);
    forall k | 0 <= k < |ordered| ensures ordered[k].tagged.signature != s {
      assert tags[k] in tags;
    }
  }

  /** The first case of every signature, and all cases in order. */
  method IndexBySignature(sign: Case -> Signature, cases: seq<Case>)
    returns (bySignature: map<Signature, Indexed>, ordered: seq<Indexed>)
    ensures IsIndex(bySignature, ordered, Tag(sign, cases))
  {
    bySignature, ordered := map[], [];
    for i := 0 to |cases|
      invariant IsIndex(bySignature, ordered, Tag(sign, cases[..i]))
    {
      ghost var before, tags := ordered, Tag(sign, cases[..i]);
      var entry := Indexed(|ordered|, Tagged(cases[i], sign(cases[i])));
      assert cases[..i + 1][..i] == cases[..i];
      assert Tag(sign, cases[..i + 1]) == tags + [entry.tagged];
      assert (tags + [entry.tagged])[..|tags|] == tags;
      ordered := ordered + [entry];
      if entry.tagged.signature !in bySignature {
        NotLedByLater(before, tags, entry.tagged.signature);
        bySignature := bySignature[entry.tagged.signature := entry];
      }
      forall s | s in bySignature ensures Leads(ordered, bySignature[s]) {
        assert bySignature[s] != entry ==> Leads(before, bySignature[s]);
      }
    }
    assert cases[..|cases|] == cases;
  }

  /** In the order of the pass, a case leads its signature exactly if no case before it has that signature. */
  lemma LeadsIffNew(bySignature: map<Signature, Indexed>, ordered: seq<Indexed>, tags: seq<Tagged>, i: nat)
    requires IsIndex(bySignature, ordered, tags) && i < |tags|
    ensures tags[i].signature in bySignature
    ensures bySignature[tags[i].signature] == ordered[i] <==> First(tags[..i], tags[i].signature).None?
  {
    var s := tags[i].signature;
    FirstMeans(tags, s);
    FirstMeans(tags[..i], s);
    assert tags[i] in tags;
    var e := bySignature[s];
    assert Leads(ordered, e);
    if e.index < i {
      assert tags[..i][e.index] in tags[..i];
    }
    if First(tags[..i], s).Some? {
      var k :| 0 <= k < i && tags[..i][k] == First(tags[..i], s).value;
      assert ordered[k].tagged.signature == s;
    }
  }

  lemma KeptStep(tags: seq<Tagged>, i: nat)
    requires i < |tags|
    ensures Kept(tags[..i + 1]) == Kept(tags[..i]) + if First(tags[..i], tags[i].signature).Some? then [] else [tags[i]]
  {
    assert tags[..i + 1][..i] == tags[..i];
  }

  lemma MapStep<S, T>(f: S -> T, xs: seq<S>, x: S)
    ensures Map(f, xs + [x]) == Map(f, xs) + [f(x)]
  {
    assert (xs + [x])[..|xs|] == xs;
  }

  lemma CountStep(p: Merged -> bool, xs: seq<Merged>, x: Merged)
    ensures Count(p, xs + [x]) == Count(p, xs) + if p(x) then 1 else 0
  {
    assert (xs + [x])[..|xs|] == xs;
  }

  /** One more survivor, and what it adds to the columns and to the two conflict counters. */
  lemma SurvivorAdds(ms: seq<Merged>, m: Merged, cases: seq<Case>, entries: seq<Entry>)
    requires Columns(ms, cases, entries)
    ensures Columns(ms + [m], cases + [m.testCase], entries + [m.entry])
    ensures Count(IsResolved(PreferUnrepaired), ms + [m]) ==
            Count(IsResolved(PreferUnrepaired), ms) + if m.entry.resolution == PreferUnrepaired then 1 else 0
    ensures Count(IsResolved(PositiveBiasRunA), ms + [m]) ==
            Count(IsResolved(PositiveBiasRunA), ms) + if m.entry.resolution == PositiveBiasRunA then 1 else 0
  {
    MapStep(CaseOf, ms, m);
    MapStep(EntryOf, ms, m);
    CountStep(IsResolved(PreferUnrepaired), ms, m);
    CountStep(IsResolved(PositiveBiasRunA), ms, m);
  }

  lemma UnsortedIds(a: seq<Tagged>, b: seq<Tagged>, repairsA: set<string>, repairsB: set<string>)
    ensures forall m :: m in Unsorted(a, b, repairsA, repairsB) ==> m.testCase.id == m.entry.testCaseId
  {
    SurvivorsMeans(Kept(a), Context(b, repairsA, repairsB));
    LeftoversMeans(Kept(b), a);
  }

  function CountEntries(p: Provenance, entries: seq<Entry>): nat {
    Count((e: Entry) => e.provenance == p, entries)
  }

  function CollectRepairTargets(instructions: Option<seq<string>>): (r: set<string>)
    ensures forall id :: id in r <==> instructions.Some? && id in instructions.value && id != ""
  {
    if instructions.None? then {} else set id | id in instructions.value && id != ""
  }

  /** Cases and entries as two columns of `ms`. */
  ghost predicate Columns(ms: seq<Merged>, cases: seq<Case>, entries: seq<Entry>) {
    cases == Map(CaseOf, ms) && entries == Map(EntryOf, ms)
  }

  /** The winner of a conflict with the coverage of both sides, and the report's line about it. */
  method MergePair(a: Tagged, b: Tagged, repairsA: set<string>, repairsB: set<string>) returns (testCase: Case, entry: Entry)
    ensures Merged(testCase, entry) == Join(a, b, repairsA, repairsB)
    ensures entry.resolution in {PreferUnrepaired, PositiveBiasRunA}
  {
    var decision := Decide(a, b, repairsA, repairsB);
    var winner, loser := decision.winner.testCase.signals, decision.loser.testCase.signals;
    var signals := MergeSignals(winner, loser);
    testCase := decision.winner.testCase.(signals := signals);
    entry := Describe(decision.winner, Both, decision.resolution, Some(decision.loser.testCase.id),
                      CoverageGrew(winner, loser), signals);
  }

  /** The walk over pass A: cases without a counterpart, and winners of conflicts. */
  method WalkA(sign: Case -> Signature, a: seq<Case>, b: seq<Case>, repairsA: set<string>, repairsB: set<string>,
               byA: map<Signature, Indexed>, orderedA: seq<Indexed>, byB: map<Signature, Indexed>)
    returns (cases: seq<Case>, entries: seq<Entry>, consumed: set<Signature>, byRepair: nat, byBias: nat)
    requires IsIndex(byA, orderedA, Tag(sign, a))
    requires exists orderedB :: IsIndex(byB, orderedB, Tag(sign, b))
    ensures var ms := Survivors(Kept(Tag(sign, a)), Context(Tag(sign, b), repairsA, repairsB));
            && Columns(ms, cases, entries)
            && byRepair == Count(IsResolved(PreferUnrepaired), ms)
            && byBias == Count(IsResolved(PositiveBiasRunA), ms)
    ensures forall s :: s in consumed ==> s in byA
  {
    ghost var tags, ctx := Tag(sign, a), Context(Tag(sign, b), repairsA, repairsB);
    ghost var ms: seq<Merged> := [];
    cases, entries, consumed, byRepair, byBias := [], [], {}, 0, 0;
    for i := 0 to |orderedA|
      invariant ms == Survivors(Kept(tags[..i]), ctx) && Columns(ms, cases, entries)
      invariant byRepair == Count(IsResolved(PreferUnrepaired), ms)
      invariant byBias == Count(IsResolved(PositiveBiasRunA), ms)
      invariant forall s :: s in consumed ==> s in byA
    {
      var entryA := orderedA[i];
      LeadsIffNew(byA, orderedA, tags, i);
      SurvivorStep(tags, ctx, i);
      if byA[entryA.tagged.signature] == entryA {
        ghost var m := SurvivorIn(entryA.tagged, ctx);
        SurvivorAdds(ms, m, cases, entries);
        if entryA.tagged.signature !in byB {
          cases := cases + [entryA.tagged.testCase];
          entries := entries + [Describe(entryA.tagged, RunA, NoConflict, None, false, entryA.tagged.testCase.signals)];
        } else {
          var matchB := byB[entryA.tagged.signature];
          consumed := consumed + {matchB.tagged.signature};
          var testCase, entry := MergePair(entryA.tagged, matchB.tagged, repairsA, repairsB);
          if entry.resolution == PreferUnrepaired {
            byRepair := byRepair + 1;
          } else {
            byBias := byBias + 1;
          }
          cases := cases + [testCase];
          entries := entries + [entry];
        }
        ms := ms + [m];
      }
    }
    assert tags[..|tags|] == tags;
  }

  lemma LeftoverStep(tags: seq<Tagged>, a: seq<Tagged>, i: nat)
    requires i < |tags|
    ensures Leftovers(Kept(tags[..i + 1]), a) ==
            Leftovers(Kept(tags[..i]), a) +
            if First(tags[..i], tags[i].signature).Some? || First(a, tags[i].signature).Some? then [] else [Alone(tags[i], RunB)]
  {
    var kept := Kept(tags[..i]);
    KeptStep(tags, i);
    assert kept + [] == kept && (kept + [tags[i]])[..|kept|] == kept;
    assert Leftovers(kept, a) + [] == Leftovers(kept, a);
  }

  lemma SurvivorStep(tags: seq<Tagged>, ctx: Context, i: nat)
    requires i < |tags|
    ensures Survivors(Kept(tags[..i + 1]), ctx) ==
            Survivors(Kept(tags[..i]), ctx) + if First(tags[..i], tags[i].signature).Some? then [] else [SurvivorIn(tags[i], ctx)]
  {
    var kept := Kept(tags[..i]);
    KeptStep(tags, i);
    assert kept + [] == kept && (kept + [tags[i]])[..|kept|] == kept;
    assert Survivors(kept, ctx) + [] == Survivors(kept, ctx);
  }

  /** The walk over pass B: first cases of signatures that pass A lacks. */
  method WalkB(sign: Case -> Signature, a: seq<Case>, b: seq<Case>, consumed: set<Signature>, byA: map<Signature, Indexed>,
               byB: map<Signature, Indexed>, orderedB: seq<Indexed>)
    returns (cases: seq<Case>, entries: seq<Entry>)
    requires IsIndex(byB, orderedB, Tag(sign, b))
    requires exists orderedA :: IsIndex(byA, orderedA, Tag(sign, a))
    requires forall s :: s in consumed ==> s in byA
    ensures Columns(Leftovers(Kept(Tag(sign, b)), Tag(sign, a)), cases, entries)
  {
    ghost var tags, tagsA := Tag(sign, b), Tag(sign, a);
    ghost var ms: seq<Merged> := [];
    cases, entries := [], [];
    for i := 0 to |orderedB|
      invariant ms == Leftovers(Kept(tags[..i]), tagsA) && Columns(ms, cases, entries)
    {
      var entryB := orderedB[i];
      LeadsIffNew(byB, orderedB, tags, i);
      LeftoverStep(tags, tagsA, i);
      if byB[entryB.tagged.signature] != entryB {
        continue;
      }
      if entryB.tagged.signature in consumed {
        continue;
      }
      if entryB.tagged.signature in byA {
        continue;
      }
      SurvivorAdds(ms, Alone(entryB.tagged, RunB), cases, entries);
      cases := cases + [entryB.tagged.testCase];
      entries := entries + [Describe(entryB.tagged, RunB, NoConflict, None, false, entryB.tagged.testCase.signals)];
      ms := ms + [Alone(entryB.tagged, RunB)];
    }
    assert tags[..|tags|] == tags;
  }

  lemma MapConcat<S, T>(f: S -> T, xs: seq<S>, ys: seq<S>)
    ensures Map(f, xs + ys) == Map(f, xs) + Map(f, ys)
  {
    MapAt(f, xs);
    MapAt(f, ys);
    MapAt(f, xs + ys);
  }

  /** Cases and entries are sorted separately, yet stay aligned; the report counts what `Outcome` contains. */
  method Merge(sign: Case -> Signature, a: CaseList, b: CaseList, generatedAt: string, instructionsA: Option<seq<string>>,
               instructionsB: Option<seq<string>>)
    returns (r: Result<(CaseList, Report), MergeError>)
    ensures r.Ok? <==> a.jobId == b.jobId && generatedAt != ""
    ensures r.Err? ==> r.error == if a.jobId != b.jobId then DifferentJobs else EmptyTimestamp
    ensures r.Ok? ==>
              var ms := Outcome(Tag(sign, a.cases), Tag(sign, b.cases), CollectRepairTargets(instructionsA),
                                CollectRepairTargets(instructionsB));
              && r.value.0.jobId == r.value.1.jobId == a.jobId && r.value.1.generatedAt == generatedAt
              && Columns(ms, r.value.0.cases, r.value.1.entries)
              && r.value.1.totals == Totals(|a.cases|, |b.cases|, |ms|, Count(IsFrom(RunA), ms), Count(IsFrom(RunB), ms),
                                            Count(IsFrom(Both), ms), Count(IsResolved(PreferUnrepaired), ms),
                                            Count(IsResolved(PositiveBiasRunA), ms))
  {
    if a.jobId != b.jobId {
      return Err(DifferentJobs);
    }
    if generatedAt == "" {
      return Err(EmptyTimestamp);
    }
    var byA, orderedA := IndexBySignature(sign, a.cases);
    var byB, orderedB := IndexBySignature(sign, b.cases);
    var repairsA, repairsB := CollectRepairTargets(instructionsA), CollectRepairTargets(instructionsB);
    var casesA, entriesA, consumed, byRepair, byBias := WalkA(sign, a.cases, b.cases, repairsA, repairsB, byA, orderedA, byB);
    var casesB, entriesB := WalkB(sign, a.cases, b.cases, consumed, byA, byB, orderedB);
    var cases := SortBy(CaseId, casesA + casesB);
    var entries := SortBy(EntryId, entriesA + entriesB);
    WalksGiveOutcome(Tag(sign, a.cases), Tag(sign, b.cases), repairsA, repairsB);
    var totals := Totals(|a.cases|, |b.cases|, |cases|, CountEntries(RunA, entries), CountEntries(RunB, entries),
                         CountEntries(Both, entries), byRepair, byBias);
    return Ok((CaseList(a.jobId, cases), Report(a.jobId, generatedAt, totals, entries)));
  }

  lemma {:induction false} LeftoversUndisputed(kept: seq<Tagged>, a: seq<Tagged>)
    ensures Count(IsResolved(PreferUnrepaired), Leftovers(kept, a)) == 0
    ensures Count(IsResolved(PositiveBiasRunA), Leftovers(kept, a)) == 0
  {
    if kept != [] {
      var init, last := Leftovers(kept[..|kept| - 1], a), Alone(kept[|kept| - 1], RunB);
      LeftoversUndisputed(kept[..|kept| - 1], a);
      CountStep(IsResolved(PreferUnrepaired), init, last);
      CountStep(IsResolved(PositiveBiasRunA), init, last);
      assert init + [] == init;
    }
  }

  lemma SortedColumns(a: seq<Tagged>, b: seq<Tagged>, repairsA: set<string>, repairsB: set<string>)
    ensures var xs, ys := Survivors(Kept(a), Context(b, repairsA, repairsB)), Leftovers(Kept(b), a);
            Columns(Outcome(a, b, repairsA, repairsB), SortBy(CaseId, Map(CaseOf, xs) + Map(CaseOf, ys)),
                    SortBy(EntryId, Map(EntryOf, xs) + Map(EntryOf, ys)))
  {
    var xs, ys := Survivors(Kept(a), Context(b, repairsA, repairsB)), Leftovers(Kept(b), a);
    MapConcat(CaseOf, xs, ys);
    MapConcat(EntryOf, xs, ys);
    UnsortedIds(a, b, repairsA, repairsB);
    SortByMap(CaseOf, MergedId, CaseId, xs + ys);
    SortByMap(EntryOf, MergedId, EntryId, xs + ys);
  }

  lemma WalksGiveOutcome(a: seq<Tagged>, b: seq<Tagged>, repairsA: set<string>, repairsB: set<string>)
    ensures var xs, ys := Survivors(Kept(a), Context(b, repairsA, repairsB)), Leftovers(Kept(b), a);
            var ms := Outcome(a, b, repairsA, repairsB);
            var cases, entries := SortBy(CaseId, Map(CaseOf, xs) + Map(CaseOf, ys)), SortBy(EntryId, Map(EntryOf, xs) + Map(EntryOf, ys));
            && Columns(ms, cases, entries) && |cases| == |ms|
            && (forall p :: CountEntries(p, entries) == Count(IsFrom(p), ms))
            && Count(IsResolved(PreferUnrepaired), xs) == Count(IsResolved(PreferUnrepaired), ms)
            && Count(IsResolved(PositiveBiasRunA), xs) == Count(IsResolved(PositiveBiasRunA), ms)
  {
    var xs, ys := Survivors(Kept(a), Context(b, repairsA, repairsB)), Leftovers(Kept(b), a);
    SortedColumns(a, b, repairsA, repairsB);
    LeftoversUndisputed(Kept(b), a);
    SplitTotal(IsResolved(PreferUnrepaired), xs, ys);
    SplitTotal(IsResolved(PositiveBiasRunA), xs, ys);
    CountColumn(Outcome(a, b, repairsA, repairsB));
    MapAt(CaseOf, Outcome(a, b, repairsA, repairsB));
  }

  lemma CountColumn(ms: seq<Merged>)
    ensures forall p :: CountEntries(p, Map(EntryOf, ms)) == Count(IsFrom(p), ms)
  {
    forall p ensures CountEntries(p, Map(EntryOf, ms)) == Count(IsFrom(p), ms) {
      CountMap(IsFrom(p), (e: Entry) => e.provenance == p, EntryOf, ms);
    }
  }
}
