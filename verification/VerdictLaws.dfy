/** What formulas, transition structures and verdicts mean: walks, truth tables and runs. */
module VerdictLaws {
  import opened Prelude
  import opened Syntax
  import opened Expressions
  import opened Kripke
  import opened ModelChecker
  import opened LtlTranslation
  import opened StateSpace
  import opened Counterexample

  // ---- CTL on walks -------------------------------------------------------------------------------

  /** A finite walk from `s` to a state of `b`, through states of `a` before. */
  ghost predicate LeadsTo(k: Structure, xs: seq<Id>, s: Id, a: set<Id>, b: set<Id>) {
    && Walk(k, xs) && xs[0] == s && Last(xs) in b
    && forall i :: 0 <= i < |xs| - 1 ==> xs[i] in a
  }

  ghost predicate CanLead(k: Structure, s: Id, a: set<Id>, b: set<Id>) {
    exists xs :: LeadsTo(k, xs, s, a, b)
  }

  lemma UntilHasWalk(k: Structure, a: set<Id>, b: set<Id>, s: Id)
    requires s in EUntil(k, a, b)
    ensures CanLead(k, s, a, b)
  {
    var p: Path :| From(k, p, s) && UntilOn(p, a, b);
    var j: nat :| UntilAt(p, a, b, j);
    PrefixIsWalk(k, p, s, j);
    assert LeadsTo(k, Prefixed(p, j), s, a, b);
  }

  lemma {:induction false} WalkHasUntil(k: Structure, a: set<Id>, b: set<Id>, xs: seq<Id>)
    requires Total(k) && a <= k.states.Keys && b <= k.states.Keys && Walk(k, xs)
    requires LeadsTo(k, xs, xs[0], a, b)
    ensures xs[0] in EUntil(k, a, b)
  {
    EUntilIsClosed(k, a, b);
    if |xs| > 1 {
      assert Step(k, xs[0], xs[0 + 1]);
      forall i | 0 <= i < |xs[1..]| - 1 ensures Step(k, xs[1..][i], xs[1..][i + 1]) {
        assert Step(k, xs[i + 1], xs[i + 1 + 1]);
      }
      WalkHasUntil(k, a, b, xs[1..]);
    }
  }

  lemma UntilIsWalk(k: Structure, a: set<Id>, b: set<Id>, s: Id)
    requires Total(k) && a <= k.states.Keys && b <= k.states.Keys
    ensures s in EUntil(k, a, b) <==> CanLead(k, s, a, b)
  {
    if s in EUntil(k, a, b) {
      UntilHasWalk(k, a, b, s);
    }
    if CanLead(k, s, a, b) {
      var xs :| LeadsTo(k, xs, s, a, b);
      WalkHasUntil(k, a, b, xs);
    }
  }

  /** E[p U q]: some finite walk leads to a state of q, through states of p only. */
  lemma ExistsUntilMeans(k: Structure, literals: set<string>, p: Temporal, q: Temporal, s: Id)
    requires Total(k)
    ensures s in Sat(k, literals, Until(EU, p, q)) <==> CanLead(k, s, Sat(k, literals, p), Sat(k, literals, q))
  {
    SatInStates(k, literals, p);
    SatInStates(k, literals, q);
    UntilIsWalk(k, Sat(k, literals, p), Sat(k, literals, q), s);
  }

  /** EF p: a state of p can be reached. */
  lemma ExistsFinallyMeans(k: Structure, literals: set<string>, p: Temporal, s: Id)
    requires Total(k)
    ensures s in Sat(k, literals, Prefix(EF, p)) <==> CanLead(k, s, k.states.Keys, Sat(k, literals, p))
  {
    SatInStates(k, literals, p);
    EFinallyIsEUntil(k, Sat(k, literals, p));
    UntilIsWalk(k, k.states.Keys, Sat(k, literals, p), s);
  }

  /** AG p: p holds in every state that can be reached. */
  lemma AlwaysMeans(k: Structure, literals: set<string>, p: Temporal, s: Id)
    requires Total(k)
    ensures s in Sat(k, literals, Prefix(AG, p)) <==>
              s in k.states && forall xs :: Walk(k, xs) && xs[0] == s ==> Last(xs) in Sat(k, literals, p)
  {
    var good := Sat(k, literals, p);
    SatInStates(k, literals, p);
    AGloballyDual(k, good);
    EFinallyIsEUntil(k, k.states.Keys - good);
    UntilIsWalk(k, k.states.Keys, k.states.Keys - good, s);
    if s in k.states {
      forall xs | Walk(k, xs) && xs[0] == s ensures LeadsTo(k, xs, s, k.states.Keys, k.states.Keys - good) <==> Last(xs) !in good {
        WalkThroughStates(k, xs);
      }
    }
  }

  lemma WalkThroughStates(k: Structure, xs: seq<Id>)
    requires Total(k) && Walk(k, xs) && xs[0] in k.states
    ensures forall i :: 0 <= i < |xs| ==> xs[i] in k.states
  {
    forall i | 0 <= i < |xs| ensures xs[i] in k.states {
      if i > 0 {
        assert Step(k, xs[i - 1], xs[i - 1 + 1]);
      }
    }
  }

  /** EX p and AX p: p holds in some, or in every, successor. */
  lemma NextMeans(k: Structure, literals: set<string>, p: Temporal, s: Id)
    requires Total(k) && s in k.states
    ensures s in Sat(k, literals, Prefix(EX, p)) <==> exists t :: t in k.transitions[s] && t in Sat(k, literals, p)
    ensures s in Sat(k, literals, Prefix(AX, p)) <==> forall t :: t in k.transitions[s] ==> t in Sat(k, literals, p)
  {
    ENextIsSomeSuccessor(k, Sat(k, literals, p), s);
    ANextIsEverySuccessor(k, Sat(k, literals, p), s);
  }

  ghost predicate HasNextIn(k: Structure, region: set<Id>, s: Id) {
    s in k.transitions && exists t :: t in k.transitions[s] && t in region
  }

  /** A region of `good` states with `s` in it, in which every state keeps a successor. */
  ghost predicate IsRegion(k: Structure, region: set<Id>, good: set<Id>, s: Id) {
    s in region && region <= good && forall u {:trigger HasNextIn(k, region, u)} :: u in region ==> HasNextIn(k, region, u)
  }

  lemma NextInIs(k: Structure, region: set<Id>, s: Id)
    ensures HasNextIn(k, region, s) <==> SuccessorIn(k, region, s)
  {
    if SuccessorIn(k, region, s) {
      var t :| Step(k, s, t) && t in region;
      assert t in k.transitions[s];
    }
    if HasNextIn(k, region, s) {
      var t :| t in k.transitions[s] && t in region;
      assert Step(k, s, t);
    }
  }

  lemma RegionIsConsistent(k: Structure, region: set<Id>, good: set<Id>, s: Id)
    requires IsRegion(k, region, good, s)
    ensures Consistent(k, region)
  {
    forall u {:trigger SuccessorIn(k, region, u)} | u in region ensures SuccessorIn(k, region, u) {
      NextInIs(k, region, u);
    }
  }

  lemma GloballyIsRegion(k: Structure, good: set<Id>, all: set<Id>, s: Id)
    requires s in all && all <= good && Consistent(k, all)
    ensures IsRegion(k, all, good, s)
  {
    forall u {:trigger HasNextIn(k, all, u)} | u in all ensures HasNextIn(k, all, u) {
      NextInIs(k, all, u);
    }
  }

  lemma GloballyHasRegion(k: Structure, good: set<Id>, s: Id)
    requires Total(k) && s in EGlobally(k, good)
    ensures IsRegion(k, EGlobally(k, good), good, s)
  {
    forall u {:trigger SuccessorIn(k, EGlobally(k, good), u)} | u in EGlobally(k, good)
      ensures u in good && SuccessorIn(k, EGlobally(k, good), u)
    {
      EGloballyIsConsistent(k, good, u);
    }
    GloballyIsRegion(k, good, EGlobally(k, good), s);
  }

  lemma RegionIsGlobally(k: Structure, good: set<Id>, region: set<Id>, s: Id)
    requires Total(k) && IsRegion(k, region, good, s)
    ensures s in EGlobally(k, good)
  {
    forall u | u in region ensures u in k.states {
      assert HasNextIn(k, region, u);
    }
    RegionIsConsistent(k, region, good, s);
    EGloballyIsGreatest(k, good, region);
  }

  ghost predicate HasRegion(k: Structure, good: set<Id>, s: Id) {
    exists region :: IsRegion(k, region, good, s)
  }

  /** EG p: the state lies in a region of p states in which one can go on forever. */
  lemma ExistsGloballyMeans(k: Structure, literals: set<string>, p: Temporal, s: Id)
    requires Total(k)
    ensures s in Sat(k, literals, Prefix(EG, p)) <==> HasRegion(k, Sat(k, literals, p), s)
  {
    var good := Sat(k, literals, p);
    if s in EGlobally(k, good) {
      GloballyHasRegion(k, good, s);
    }
    if HasRegion(k, good, s) {
      var region :| IsRegion(k, region, good, s);
      RegionIsGlobally(k, good, region, s);
    }
  }

  lemma NeitherIs(k: Structure, literals: set<string>, p: Temporal, q: Temporal)
    ensures Sat(k, literals, Bin(Conj, Not(p), Not(q))) == k.states.Keys - Sat(k, literals, q) - Sat(k, literals, p)
  {
  }

  /** AF p is the opposite of EG !p. */
  lemma EventuallyMeans(k: Structure, literals: set<string>, p: Temporal, s: Id)
    requires Total(k) && s in k.states
    ensures s in Sat(k, literals, Prefix(AF, p)) <==> s !in Sat(k, literals, Prefix(EG, Not(p)))
  {
    SatInStates(k, literals, p);
    AFinallyDual(k, Sat(k, literals, p));
  }

  /** A[p U q] is the opposite of E[!q U (!p & !q)] or EG !q. */
  lemma UniversalUntilMeans(k: Structure, literals: set<string>, p: Temporal, q: Temporal, s: Id)
    requires Total(k) && s in k.states
    ensures s in Sat(k, literals, Until(AU, p, q)) <==>
              && s !in Sat(k, literals, Until(EU, Not(q), Bin(Conj, Not(p), Not(q))))
              && s !in Sat(k, literals, Prefix(EG, Not(q)))
  {
    var a, b := Sat(k, literals, p), Sat(k, literals, q);
    SatInStates(k, literals, p);
    SatInStates(k, literals, q);
    AUntilDual(k, a, b);
    NeitherIs(k, literals, p, q);
  }

  // ---- Truth tables -------------------------------------------------------------------------------

  /** The connectives, state by state. */
  lemma ConnectivesMean(k: Structure, literals: set<string>, f: Temporal, g: Temporal, s: Id)
    requires s in k.states
    ensures s in Sat(k, literals, Not(f)) <==> s !in Sat(k, literals, f)
    ensures s in Sat(k, literals, Bin(Conj, f, g)) <==> s in Sat(k, literals, f) && s in Sat(k, literals, g)
    ensures s in Sat(k, literals, Bin(Disj, f, g)) <==> s in Sat(k, literals, f) || s in Sat(k, literals, g)
    ensures s in Sat(k, literals, Bin(Impl, f, g)) <==> s !in Sat(k, literals, f) || s in Sat(k, literals, g)
    ensures s in Sat(k, literals, Bin(Equiv, f, g)) <==> (s in Sat(k, literals, f) <==> s in Sat(k, literals, g))
  {
  }

  lemma LtlConnectivesMean(k: Structure, literals: set<string>, f: Temporal, g: Temporal, p: Path, i: nat)
    ensures Models(k, literals, Not(f), p, i) <==> !Models(k, literals, f, p, i)
    ensures Models(k, literals, Bin(Conj, f, g), p, i) <==> Models(k, literals, f, p, i) && Models(k, literals, g, p, i)
    ensures Models(k, literals, Bin(Disj, f, g), p, i) <==> Models(k, literals, f, p, i) || Models(k, literals, g, p, i)
    ensures Models(k, literals, Bin(Impl, f, g), p, i) <==> !Models(k, literals, f, p, i) || Models(k, literals, g, p, i)
    ensures Models(k, literals, Bin(Equiv, f, g), p, i) <==> (Models(k, literals, f, p, i) <==> Models(k, literals, g, p, i))
  {
  }

  /** `f` holds after `n` more steps. */
  ghost predicate Later(k: Structure, literals: set<string>, f: Temporal, p: Path, i: nat, n: nat) {
    Models(k, literals, f, Suffix(p, i), n)
  }

  lemma LaterIs(k: Structure, literals: set<string>, f: Temporal, p: Path, i: nat, n: nat)
    ensures Later(k, literals, f, p, i, n) <==> Models(k, literals, f, p, i + n)
  {
    SameTail(k, literals, f, Suffix(p, i), n, p, i + n);
  }

  /** G, F and X of LTL, said of the rest of the path. */
  lemma LtlOperatorsMean(k: Structure, literals: set<string>, f: Temporal, p: Path, i: nat)
    ensures Models(k, literals, Prefix(G, f), p, i) <==> forall n: nat :: Later(k, literals, f, p, i, n)
    ensures Models(k, literals, Prefix(F, f), p, i) <==> exists n: nat :: Later(k, literals, f, p, i, n)
    ensures Models(k, literals, Prefix(X, f), p, i) <==> Later(k, literals, f, p, i, 1)
  {
    LaterIs(k, literals, f, p, i, 1);
    forall n: nat ensures Later(k, literals, f, p, i, n) <==> Models(k, literals, f, p, i + n) {
      LaterIs(k, literals, f, p, i, n);
    }
    forall j: nat | i <= j ensures Models(k, literals, f, p, j) <==> Later(k, literals, f, p, i, j - i) {
      LaterIs(k, literals, f, p, i, j - i);
    }
  }

  ghost predicate UntilLater(k: Structure, literals: set<string>, f: Temporal, g: Temporal, p: Path, i: nat, n: nat) {
    Later(k, literals, g, p, i, n) && forall m: nat :: m < n ==> Later(k, literals, f, p, i, m)
  }

  ghost predicate UntilHere(k: Structure, literals: set<string>, f: Temporal, g: Temporal, p: Path, i: nat, j: nat) {
    i <= j && Models(k, literals, g, p, j) && forall m: nat :: i <= m < j ==> Models(k, literals, f, p, m)
  }

  lemma UntilShifts(k: Structure, literals: set<string>, f: Temporal, g: Temporal, p: Path, i: nat, n: nat)
    ensures UntilLater(k, literals, f, g, p, i, n) <==> UntilHere(k, literals, f, g, p, i, i + n)
  {
    LaterIs(k, literals, g, p, i, n);
    forall m: nat | m < n ensures Later(k, literals, f, p, i, m) <==> Models(k, literals, f, p, i + m) {
      LaterIs(k, literals, f, p, i, m);
    }
    if UntilLater(k, literals, f, g, p, i, n) {
      forall m: nat | i <= m < i + n ensures Models(k, literals, f, p, m) {
        assert Later(k, literals, f, p, i, m - i);
      }
    }
  }

  /** f U g: g holds after some more steps, and f after every smaller number of them. */
  lemma LtlUntilMeans(k: Structure, literals: set<string>, f: Temporal, g: Temporal, p: Path, i: nat)
    ensures Models(k, literals, Until(U, f, g), p, i) <==> exists n: nat :: UntilLater(k, literals, f, g, p, i, n)
  {
    if Models(k, literals, Until(U, f, g), p, i) {
      assert Models(k, literals, Until(U, f, g), p, i);
      var j: nat :| i <= j && Models(k, literals, g, p, j) && forall n: nat :: i <= n < j ==> Models(k, literals, f, p, n);
      assert UntilHere(k, literals, f, g, p, i, j);
      UntilShifts(k, literals, f, g, p, i, j - i);
    }
    if exists n: nat :: UntilLater(k, literals, f, g, p, i, n) {
      var n: nat :| UntilLater(k, literals, f, g, p, i, n);
      UntilShifts(k, literals, f, g, p, i, n);
      assert UntilHere(k, literals, f, g, p, i, i + n);
    }
  }

  // ---- Propositional evaluation in counterexamples ------------------------------------------------

  ghost predicate Is(f: Temporal, v: Valuation, literals: set<string>, b: bool) {
    AtomCore(f, v, literals) == Ok(b)
  }

  ghost predicate Raises(f: Temporal, v: Valuation, literals: set<string>) {
    AtomCore(f, v, literals).Err?
  }

  /** Connectives evaluate their right side only if the left one leaves the result open. */
  lemma CoreMeans(f: Temporal, g: Temporal, v: Valuation, literals: set<string>, b: bool)
    ensures Is(Not(f), v, literals, b) <==> Is(f, v, literals, !b)
    ensures Is(Bin(Conj, f, g), v, literals, true) <==> Is(f, v, literals, true) && Is(g, v, literals, true)
    ensures Is(Bin(Conj, f, g), v, literals, false) <==> Is(f, v, literals, false) || (Is(f, v, literals, true) && Is(g, v, literals, false))
    ensures Is(Bin(Disj, f, g), v, literals, false) <==> Is(f, v, literals, false) && Is(g, v, literals, false)
    ensures Is(Bin(Disj, f, g), v, literals, true) <==> Is(f, v, literals, true) || (Is(f, v, literals, false) && Is(g, v, literals, true))
    ensures Is(Bin(Impl, f, g), v, literals, false) <==> Is(f, v, literals, true) && Is(g, v, literals, false)
    ensures Is(Bin(Impl, f, g), v, literals, true) <==> Is(f, v, literals, false) || (Is(f, v, literals, true) && Is(g, v, literals, true))
    ensures Is(Bin(Equiv, f, g), v, literals, b) <==>
              (Is(f, v, literals, true) && Is(g, v, literals, b)) || (Is(f, v, literals, false) && Is(g, v, literals, !b))
  {
  }

  /** Temporal operators have no propositional value. */
  lemma CoreRaises(op: PrefixOp, uop: UntilOp, f: Temporal, g: Temporal, v: Valuation, literals: set<string>)
    ensures Raises(Prefix(op, f), v, literals) && Raises(Until(uop, f, g), v, literals)
  {
  }

  // ---- Which formula is checked -------------------------------------------------------------------

  /** Every LTL operator gets a universal path quantifier in front; the rest of the formula stays. */
  lemma TranslationOf(f: Temporal, g: Temporal, c: Connective, e: Expr)
    ensures Checked(LTL, Prefix(G, f)) == Prefix(AG, Checked(LTL, f))
    ensures Checked(LTL, Prefix(F, f)) == Prefix(AF, Checked(LTL, f))
    ensures Checked(LTL, Prefix(X, f)) == Prefix(AX, Checked(LTL, f))
    ensures Checked(LTL, Until(U, f, g)) == Until(AU, Checked(LTL, f), Checked(LTL, g))
    ensures Checked(LTL, Not(f)) == Not(Checked(LTL, f)) && Checked(LTL, Atom(e)) == Atom(e)
    ensures Checked(LTL, Bin(c, f, g)) == Bin(c, Checked(LTL, f), Checked(LTL, g))
  {
  }

  /** A CTL formula is checked as it stands: a pass means that every initial state satisfies it. */
  lemma CtlVerdictMeans(k: Structure, literals: set<string>, f: Temporal, r: FormulaResult)
    requires CorrectVerdict(k, literals, Checked(CTL, f), r)
    ensures r.Pass? <==> forall id :: id in k.initial ==> id in Sat(k, literals, f)
  {
    VerdictMeans(k, literals, f, r);
  }

  // ---- Which states there are ---------------------------------------------------------------------

  /** A run of the spec: it starts where the spec may start, and every step is one the spec admits. */
  ghost predicate IsRun(sys: System, ws: seq<Valuation>) {
    && ws != [] && sys.admits(None, ws[0])
    && forall i :: 0 <= i < |ws| - 1 ==> sys.admits(Some(ws[i]), ws[i + 1])
  }

  ghost predicate EndsRun(sys: System, w: Valuation) {
    exists ws :: IsRun(sys, ws) && ws[|ws| - 1] == w
  }

  lemma {:induction false} ReachableHasRun(sys: System, n: nat, w: Valuation) returns (ws: seq<Valuation>)
    requires ReachableIn(sys, n, w)
    ensures IsRun(sys, ws) && ws[|ws| - 1] == w
    decreases n
  {
    if n == 0 {
      ws := [w];
    } else {
      var u :| ReachableIn(sys, n - 1, u) && sys.admits(Some(u), w);
      var us := ReachableHasRun(sys, n - 1, u);
      ws := us + [w];
    }
  }

  lemma {:induction false} RunIsReachable(sys: System, ws: seq<Valuation>)
    requires IsRun(sys, ws)
    ensures ReachableIn(sys, |ws| - 1, ws[|ws| - 1])
  {
    if |ws| > 1 {
      var us := ws[..|ws| - 1];
      RunIsReachable(sys, us);
      assert sys.admits(Some(ws[|ws| - 2]), ws[|ws| - 2 + 1]);
    }
  }

  lemma ReachableIffRun(sys: System, w: Valuation)
    ensures Reachable(sys, w) <==> EndsRun(sys, w)
  {
    if Reachable(sys, w) {
      var n: nat :| ReachableIn(sys, n, w);
      var ws := ReachableHasRun(sys, n, w);
    }
    if EndsRun(sys, w) {
      var ws :| IsRun(sys, ws) && ws[|ws| - 1] == w;
      RunIsReachable(sys, ws);
    }
  }

  /** `v` is the valuation of the state `id`. */
  ghost predicate IsStateOf(idOf: Valuation -> Id, k: Structure, id: Id, v: Valuation) {
    id == idOf(v) && id in k.states && k.states[id] == v
  }

  /**
   * A structure that represents a spec has the ends of its runs as states, and at most 4096 of them; its edges are the
   * admitted steps, and states that admit none lead to themselves.
   */
  lemma StatesEndRuns(idOf: Valuation -> Id, sys: System, k: Structure, u: Valuation, w: Valuation)
    requires Proper(sys) && Identifies(idOf) && Represents(idOf, sys, k)
    ensures |k.states| <= 4096
    ensures IsStateOf(idOf, k, idOf(u), u) <==> EndsRun(sys, u)
    ensures EndsRun(sys, u) && EndsRun(sys, w) ==>
              (Step(k, idOf(u), idOf(w)) <==>
               sys.admits(Some(u), w) || (u == w && forall x :: !sys.admits(Some(u), x)))
    ensures idOf(u) in k.initial && IsStateOf(idOf, k, idOf(u), u) <==> sys.admits(None, u)
  {
    ReachableIffRun(sys, u);
    ReachableIffRun(sys, w);
    if EndsRun(sys, u) && EndsRun(sys, w) {
      StepIs(idOf, sys, k, u, w);
    }
    InitialIs(idOf, sys, k, u);
  }

  lemma SameKeys(sys: System, u: Valuation, w: Valuation)
    requires Proper(sys) && Reachable(sys, u) && Reachable(sys, w)
    ensures u.Keys == w.Keys
  {
    ReachableAssigns(sys, u);
    ReachableAssigns(sys, w);
  }

  lemma StepIs(idOf: Valuation -> Id, sys: System, k: Structure, u: Valuation, w: Valuation)
    requires Proper(sys) && Identifies(idOf) && Represents(idOf, sys, k) && Reachable(sys, u) && Reachable(sys, w)
    ensures Step(k, idOf(u), idOf(w)) <==> sys.admits(Some(u), w) || (u == w && Dead(sys, u))
  {
    assert Holds(idOf, k.states, u);
    assert HasEdges(idOf, sys, k.states[idOf(u)], k.transitions[idOf(u)]);
    if Step(k, idOf(u), idOf(w)) {
      if NamesSuccessor(idOf, sys, Some(u), idOf(w)) {
        var x :| sys.admits(Some(u), x) && idOf(w) == idOf(x);
        ReachableAssigns(sys, w);
        assert x.Keys == sys.names;
        assert x == w;
      } else {
        SameKeys(sys, u, w);
      }
    }
    if sys.admits(Some(u), w) {
      assert NamesSuccessor(idOf, sys, Some(u), idOf(w));
    }
  }

  lemma InitialIs(idOf: Valuation -> Id, sys: System, k: Structure, u: Valuation)
    requires Proper(sys) && Identifies(idOf) && Represents(idOf, sys, k)
    ensures idOf(u) in k.initial && IsStateOf(idOf, k, idOf(u), u) <==> sys.admits(None, u)
  {
    if sys.admits(None, u) {
      assert ReachableIn(sys, 0, u);
      assert Holds(idOf, k.states, u);
      assert NamesSuccessor(idOf, sys, None, idOf(u));
    }
    if idOf(u) in k.initial && IsStateOf(idOf, k, idOf(u), u) {
      assert Holds(idOf, k.states, u);
      var x :| sys.admits(None, x) && idOf(u) == idOf(x);
      ReachableAssigns(sys, u);
      assert x.Keys == sys.names;
    }
  }

  ghost predicate AllEndRuns(sys: System, many: set<Valuation>) {
    forall w {:trigger EndsRun(sys, w)} :: w in many ==> EndsRun(sys, w)
  }

  /** A spec is refused for its size only if more than 4096 valuations end its runs. */
  lemma RefusedSizeMeans(sys: System)
    requires TooMany(sys)
    ensures exists many :: |many| > 4096 && AllEndRuns(sys, many)
  {
    forall w ensures Reachable(sys, w) <==> EndsRun(sys, w) {
      ReachableIffRun(sys, w);
    }
    var many: set<Valuation> :| |many| > 4096 && forall w {:trigger Reachable(sys, w)} :: w in many ==> Reachable(sys, w);
    assert AllEndRuns(sys, many);
  }
}
