/** Verifying the shipped specification of strong customer authentication succeeds, and every formula passes. */
module Psd2Verdict {
  import opened Prelude
  import opened Syntax
  import opened Expressions
  import opened EvaluationLaws
  import opened Kripke
  import opened ModelChecker
  import opened LtlTranslation
  import opened StateSpace
  import opened SpecLaws
  import opened Counterexample
  import opened Psd2Spec
  import StateIds

  // ---- Reachable payments --------------------------------------------------------------------

  /** A payment in one of the states; from `authenticated` on, both factors have been gathered. */
  ghost predicate Payment(w: Valuation, s: string, n: int) {
    && IsState(s) && 0 <= n <= 2 && w == PaymentAt(s, n)
    && (s == "authenticated" || s == "completed" ==> n == 2)
  }

  ghost predicate IsPayment(w: Valuation) {
    exists s, n :: Payment(w, s, n)
  }

  lemma StepIsPayment(s: string, n: int, w: Valuation) returns (t: string)
    requires Payment(PaymentAt(s, n), s, n) && Admits(PSD2, Some(PaymentAt(s, n)), w)
    ensures t in NextStates(s, n) && Payment(w, t, NextFactors(s, n))
  {
    StatesDiffer();
    StepsOfPsd2(s, n, w);
    t :| t in NextStates(s, n) && w == PaymentAt(t, NextFactors(s, n));
    NextIsState(s, n);
  }

  lemma StartIsPayment(w: Valuation)
    requires Admits(PSD2, None, w)
    ensures IsPayment(w)
  {
    StartOfPsd2(w);
    StatesDiffer();
    assert IsState(STATES[0]) && Payment(w, "idle", 0);
  }

  /** What holds initially and is kept by every step holds of every reachable valuation. */
  lemma {:induction false} Invariant(sys: System, inv: Valuation -> bool, n: nat, w: Valuation)
    requires ReachableIn(sys, n, w) && forall u :: sys.admits(None, u) ==> inv(u)
    requires forall u, t :: inv(u) && sys.admits(Some(u), t) ==> inv(t)
    ensures inv(w)
  {
    if n > 0 {
      var u :| ReachableIn(sys, n - 1, u) && sys.admits(Some(u), w);
      Invariant(sys, inv, n - 1, u);
    }
  }

  lemma ReachableIsPayment(w: Valuation)
    requires Reachable(SystemOf(PSD2), w)
    ensures IsPayment(w)
  {
    var sys, inv := SystemOf(PSD2), (u: Valuation) => IsPayment(u);
    var n: nat :| ReachableIn(sys, n, w);
    forall u | sys.admits(None, u) ensures inv(u) {
      StartIsPayment(u);
    }
    forall u, t | inv(u) && sys.admits(Some(u), t) ensures inv(t) {
      var s, m :| Payment(u, s, m);
      var next := StepIsPayment(s, m, t);
    }
    Invariant(sys, inv, n, w);
  }

  // ---- Nothing makes the construction fail ----------------------------------------------------

  lemma {:induction false} OnlyChecksRaise(vars: seq<Variable>, w: Valuation)
    requires InDomains(vars, w).Err?
    ensures exists v :: v in vars && v.name in w && ValueInDomain(w[v.name], v).Err?
  {
    if vars[0].name in w && ValueInDomain(w[vars[0].name], vars[0]).Err? {
      assert vars[0] in vars;
    } else {
      OnlyChecksRaise(vars[1..], w);
      var v :| v in vars[1..] && v.name in w && ValueInDomain(w[v.name], v).Err?;
      assert v in vars;
    }
  }

  lemma {:induction false} WordsNeverRaise(members: seq<Prim>, p: Prim)
    requires p.Str? && forall m :: m in members ==> m.Str?
    ensures SomeEqual(members, p).Ok?
  {
    if members != [] {
      assert members[0] in members && forall m :: m in members[1..] ==> m in members;
      WordsNeverRaise(members[1..], p);
    }
  }

  /** Every choice for a payment's state is a word, and every choice for its factors a number. */
  ghost predicate WellChosen(from: Option<Valuation>) {
    && ChoicesFor(PSD2, from, PSD2.variables[0]).Ok? && (forall p :: p in ChoicesFor(PSD2, from, PSD2.variables[0]).value ==> p.Str?)
    && ChoicesFor(PSD2, from, PSD2.variables[1]).Ok? && (forall p :: p in ChoicesFor(PSD2, from, PSD2.variables[1]).value ==> p.Num?)
  }

  lemma NeverRaises(from: Option<Valuation>)
    requires WellChosen(from)
    ensures !Throws(PSD2, from)
  {
    RulesOfPsd2();
    forall w | Picks(PSD2, from, |PSD2.variables|, w) ensures InDomains(PSD2.variables, w).Ok? {
      PicksIsPicksEach(ChoicesOf(PSD2, from), PSD2.variables, |PSD2.variables|, w);
      assert PSD2.variables[..|PSD2.variables|] == PSD2.variables;
      assert PSD2.variables[0] in PSD2.variables && PSD2.variables[1] in PSD2.variables;
      if InDomains(PSD2.variables, w).Err? {
        OnlyChecksRaise(PSD2.variables, w);
        WordsNeverRaise(Words(STATES), w[PAYMENT]);
      }
    }
  }

  lemma StartsWellChosen()
    ensures WellChosen(None)
  {
    RulesOfPsd2();
    StatesDiffer();
    LiteralsOfPsd2();
    NamesAndLiterals("idle", map[], Literals(PSD2));
    LastRuleWins(PSD2.inits, PAYMENT);
    LastRuleWins(PSD2.inits, FACTORS);
    assert IsLastRule(PSD2.inits, PAYMENT, 0) && IsLastRule(PSD2.inits, FACTORS, 1);
  }

  lemma StepsWellChosen(s: string, n: int)
    requires IsState(s)
    ensures WellChosen(Some(PaymentAt(s, n)))
  {
    RulesOfPsd2();
    PaymentValue(s, n);
    FactorsValue(s, n);
    LastRuleWins(PSD2.nexts, PAYMENT);
    LastRuleWins(PSD2.nexts, FACTORS);
    assert IsLastRule(PSD2.nexts, PAYMENT, 0) && IsLastRule(PSD2.nexts, FACTORS, 1);
    DomainIsWords(NextStates(s, n));
  }

  lemma EvaluationSucceeds()
    ensures !EvaluationFails(SystemOf(PSD2))
  {
    StartsWellChosen();
    NeverRaises(None);
    forall u | Reachable(SystemOf(PSD2), u) ensures !SystemOf(PSD2).throws(Some(u)) {
      ReachableIsPayment(u);
      var s, n :| Payment(u, s, n);
      StepsWellChosen(s, n);
      NeverRaises(Some(u));
    }
  }

  function WithFactors(s: string): set<Valuation> {
    {PaymentAt(s, 0), PaymentAt(s, 1), PaymentAt(s, 2)}
  }

  lemma {:induction false} FewPayments(states: seq<string>, many: set<Valuation>)
    requires forall w :: w in many ==> exists s :: s in states && w in WithFactors(s)
    ensures |many| <= 3 * |states|
  {
    if states == [] {
      assert many == {};
    } else {
      var last, init := states[|states| - 1], states[..|states| - 1];
      var rest := many - WithFactors(last);
      forall w | w in rest ensures exists s :: s in init && w in WithFactors(s) {
        var s :| s in states && w in WithFactors(s);
        assert states == init + [last];
      }
      FewPayments(init, rest);
      assert |WithFactors(last)| <= 3 && many == rest + many * WithFactors(last);
      SubsetIsNoLarger(many * WithFactors(last), WithFactors(last));
    }
  }

  lemma SubsetIsNoLarger(x: set<Valuation>, y: set<Valuation>)
    requires x <= y
    ensures |x| <= |y|
  {
    assert y == x + (y - x);
  }

  lemma FewReachable(many: set<Valuation>)
    requires forall w :: w in many ==> IsPayment(w)
    ensures |many| <= 18
  {
    forall w | w in many ensures exists s :: s in STATES && w in WithFactors(s) {
      var s, n :| Payment(w, s, n);
      assert w in WithFactors(s);
    }
    FewPayments(STATES, many);
  }

  lemma FewStates()
    ensures !TooMany(SystemOf(PSD2))
  {
    if many: set<Valuation> :| |many| > STATE_LIMIT && forall w :: w in many ==> Reachable(SystemOf(PSD2), w) {
      forall w | w in many ensures IsPayment(w) {
        ReachableIsPayment(w);
      }
      FewReachable(many);
      assert false;
    }
  }

  // ---- The structure ----------------------------------------------------------------------------

  /** A structure that represents the specification. */
  ghost predicate OfPsd2(idOf: Valuation -> Id, k: Structure) {
    Represents(idOf, SystemOf(PSD2), k)
  }

  /** State `id` of `k` is a payment in `s` with `n` factors. */
  ghost predicate Here(k: Structure, id: Id, s: string, n: int) {
    id in k.states && Payment(k.states[id], s, n)
  }

  lemma SomewhereIn(idOf: Valuation -> Id, k: Structure, id: Id) returns (s: string, n: int)
    requires OfPsd2(idOf, k) && id in k.states
    ensures Here(k, id, s, n)
  {
    assert StateSpace.Holds(idOf, k.states, k.states[id]);
    ReachableIsPayment(k.states[id]);
    s, n :| Payment(k.states[id], s, n);
  }

  /** An edge from a state with successors is a step between the valuations. */
  lemma EdgeIsStep(idOf: Valuation -> Id, sys: System, k: Structure, a: Id, b: Id)
    requires Represents(idOf, sys, k) && Step(k, a, b) && !Dead(sys, k.states[a])
    ensures b in k.states && sys.admits(Some(k.states[a]), k.states[b])
  {
    var u := k.states[a];
    assert StateSpace.Holds(idOf, k.states, u);
    assert HasEdges(idOf, sys, u, k.transitions[a]);
    assert Edge(idOf, sys, u, b);
    var w :| sys.admits(Some(u), w) && b == idOf(w);
    StepReaches(sys, u, w);
    assert StateSpace.Holds(idOf, k.states, w);
  }

  lemma PaymentGoesOn(s: string, n: int)
    requires IsState(s) && 0 <= n <= 2
    ensures Admits(PSD2, Some(PaymentAt(s, n)), PaymentAt(NextStates(s, n)[0], NextFactors(s, n)))
  {
    StepsOfPsd2(s, n, PaymentAt(NextStates(s, n)[0], NextFactors(s, n)));
  }

  lemma PaymentEdge(idOf: Valuation -> Id, sys: System, k: Structure, a: Id, b: Id, s: string, n: int)
    requires Represents(idOf, sys, k) && Step(k, a, b) && Here(k, a, s, n)
    requires forall w :: sys.admits(Some(PaymentAt(s, n)), w) <==> Admits(PSD2, Some(PaymentAt(s, n)), w)
    ensures b in k.states && Admits(PSD2, Some(PaymentAt(s, n)), k.states[b])
  {
    PaymentGoesOn(s, n);
    assert sys.admits(Some(k.states[a]), PaymentAt(NextStates(s, n)[0], NextFactors(s, n)));
    EdgeIsStep(idOf, sys, k, a, b);
  }

  lemma NextPayment(idOf: Valuation -> Id, k: Structure, a: Id, b: Id, s: string, n: int) returns (t: string)
    requires OfPsd2(idOf, k) && Step(k, a, b) && Here(k, a, s, n)
    ensures t in NextStates(s, n) && Here(k, b, t, NextFactors(s, n))
  {
    PaymentEdge(idOf, SystemOf(PSD2), k, a, b, s, n);
    t := StepIsPayment(s, n, k.states[b]);
  }

  // ---- The formulas -----------------------------------------------------------------------------

  /** `payment_state = state`. */
  function PaymentIs(state: string): Temporal {
    Atom(Is(state))
  }

  const FACTORS_GATHERED := Atom(Factors(Ge, 2))
  const NOT_COMPLETED := Atom(Binary(Ne, Ident(PAYMENT), Ident("completed")))

  /** Every initiated payment is eventually authenticated or refused. */
  const LIVENESS := Prefix(G, Bin(Impl, PaymentIs("initiated"), Prefix(F, ENDED)))

  /** A completed payment has both factors. */
  const GATHERING := Prefix(G, Bin(Impl, PaymentIs("completed"), FACTORS_GATHERED))

  /** An initiated payment is not completed in the next step. */
  const NO_SHORTCUT := Prefix(G, Bin(Impl, PaymentIs("initiated"), Prefix(X, NOT_COMPLETED)))

  const FORMULAS := [(LTL, LIVENESS), (LTL, GATHERING), (LTL, NO_SHORTCUT)]

  lemma AtomsHere(k: Structure, id: Id, s: string, n: int)
    requires Here(k, id, s, n)
    ensures forall state :: IsState(state) ==> AtomTruth(Is(state), k.states[id], Literals(PSD2)) == Ok(s == state)
    ensures AtomTruth(Factors(Ge, 2), k.states[id], Literals(PSD2)) == Ok(n >= 2)
    ensures AtomTruth(Binary(Ne, Ident(PAYMENT), Ident("completed")), k.states[id], Literals(PSD2)) == Ok(s != "completed")
  {
    forall state | IsState(state) ensures AtomTruth(Is(state), k.states[id], Literals(PSD2)) == Ok(s == state) {
      IsGives(s, n, state);
    }
    FactorsGive(s, n);
    NotCompletedGives(s, n);
  }

  lemma NotCompletedGives(s: string, n: int)
    ensures Gives(Binary(Ne, Ident(PAYMENT), Ident("completed")), PaymentAt(s, n), Literals(PSD2), Bool(s != "completed"))
  {
    StatesDiffer();
    WordGives(s, n, 4);
    NamesAndLiterals(PAYMENT, PaymentAt(s, n), Literals(PSD2));
    Equalities(Ident(PAYMENT), Ident("completed"), PaymentAt(s, n), Literals(PSD2), Str(s), Str("completed"));
  }

  lemma InMeans(k: Structure, id: Id, s: string, n: int, state: string)
    requires Here(k, id, s, n) && IsState(state)
    ensures id in Sat(k, Literals(PSD2), PaymentIs(state)) <==> s == state
  {
    AtomsHere(k, id, s, n);
  }

  lemma AlwaysEverywhere(k: Structure, x: set<Id>, id: Id)
    requires Total(k) && id in k.states && forall a :: a in k.states ==> a in x
    ensures id in AGlobally(k, x)
  {
    forall p: Path, i: nat | From(k, p, id) ensures p(i) in x {
      PathStates(k, p, id, i);
    }
  }

  /** From `authenticating` with `n` factors every path reaches an end after at most three steps. */
  lemma {:induction false} Finishes(idOf: Valuation -> Id, k: Structure, p: Path, i: nat, n: int) returns (j: nat, t: string, m: int)
    requires OfPsd2(idOf, k) && (forall x: nat :: StepAt(k, p, x)) && Here(k, p(i), "authenticating", n)
    ensures Here(k, p(j), t, m) && t in ["authenticated", "refused"]
    decreases 2 - n
  {
    StatesDiffer();
    assert StepAt(k, p, i);
    t := NextPayment(idOf, k, p(i), p(i + 1), "authenticating", n);
    if t == "authenticating" {
      j, t, m := Finishes(idOf, k, p, i + 1, n + 1);
    } else {
      j, m := i + 1, NextFactors("authenticating", n);
    }
  }

  lemma InitiatedFinishes(idOf: Valuation -> Id, k: Structure, id: Id, n: int, ends: set<Id>)
    requires OfPsd2(idOf, k) && Here(k, id, "initiated", n)
    requires forall a, t, m :: Here(k, a, t, m) && t in ["authenticated", "refused"] ==> a in ends
    ensures id in AFinally(k, ends)
  {
    StatesDiffer();
    forall p: Path | From(k, p, id) ensures Finally(p, ends) {
      assert StepAt(k, p, 0);
      var t := NextPayment(idOf, k, p(0), p(1), "initiated", n);
      assert t == "authenticating";
      var j, u, m := Finishes(idOf, k, p, 1, 0);
      assert p(j) in ends;
    }
  }

  lemma EndsSatisfy(k: Structure, a: Id, t: string, m: int)
    requires Here(k, a, t, m) && t in ["authenticated", "refused"]
    ensures a in Sat(k, Literals(PSD2), ENDED)
  {
    assert IsState(STATES[3]) && IsState(STATES[5]);
    InMeans(k, a, t, m, "authenticated");
    InMeans(k, a, t, m, "refused");
  }

  lemma ImpliedHere(k: Structure, literals: set<string>, a: Id, l: Temporal, r: Temporal)
    requires a in k.states && (a in Sat(k, literals, l) ==> a in Sat(k, literals, r))
    ensures a in Sat(k, literals, Bin(Impl, l, r))
  {
  }

  const ENDED := Bin(Disj, PaymentIs("authenticated"), PaymentIs("refused"))

  lemma InitiatedEnds(idOf: Valuation -> Id, k: Structure, a: Id, n: int)
    requires OfPsd2(idOf, k) && Here(k, a, "initiated", n)
    ensures a in Sat(k, Literals(PSD2), Prefix(AF, ENDED))
  {
    var ends := Sat(k, Literals(PSD2), ENDED);
    forall b, t, m | Here(k, b, t, m) && t in ["authenticated", "refused"] ensures b in ends {
      EndsSatisfy(k, b, t, m);
    }
    InitiatedFinishes(idOf, k, a, n, ends);
  }

  lemma LivenessHere(idOf: Valuation -> Id, k: Structure, a: Id)
    requires OfPsd2(idOf, k) && a in k.states
    ensures a in Sat(k, Literals(PSD2), Bin(Impl, PaymentIs("initiated"), Prefix(AF, ENDED)))
  {
    var s, n := SomewhereIn(idOf, k, a);
    assert IsState(STATES[1]);
    InMeans(k, a, s, n, "initiated");
    if s == "initiated" {
      InitiatedEnds(idOf, k, a, n);
    }
    ImpliedHere(k, Literals(PSD2), a, PaymentIs("initiated"), Prefix(AF, ENDED));
  }

  lemma GatheringHere(idOf: Valuation -> Id, k: Structure, a: Id)
    requires OfPsd2(idOf, k) && a in k.states
    ensures a in Sat(k, Literals(PSD2), Bin(Impl, PaymentIs("completed"), FACTORS_GATHERED))
  {
    var s, n := SomewhereIn(idOf, k, a);
    assert IsState(STATES[4]);
    InMeans(k, a, s, n, "completed");
    AtomsHere(k, a, s, n);
    ImpliedHere(k, Literals(PSD2), a, PaymentIs("completed"), FACTORS_GATHERED);
  }

  lemma SuccessorIsFine(idOf: Valuation -> Id, k: Structure, a: Id, n: int, b: Id)
    requires OfPsd2(idOf, k) && Here(k, a, "initiated", n) && Step(k, a, b)
    ensures b in Sat(k, Literals(PSD2), NOT_COMPLETED)
  {
    StatesDiffer();
    var t := NextPayment(idOf, k, a, b, "initiated", n);
    AtomsHere(k, b, t, NextFactors("initiated", n));
  }

  lemma InitiatedGoesOn(idOf: Valuation -> Id, k: Structure, a: Id, n: int)
    requires OfPsd2(idOf, k) && Here(k, a, "initiated", n)
    ensures a in Sat(k, Literals(PSD2), Prefix(AX, NOT_COMPLETED))
  {
    var fine := Sat(k, Literals(PSD2), NOT_COMPLETED);
    forall b | b in k.transitions[a] ensures b in fine {
      SuccessorIsFine(idOf, k, a, n, b);
    }
    ANextIsEverySuccessor(k, fine, a);
  }

  lemma NoShortcutHere(idOf: Valuation -> Id, k: Structure, a: Id)
    requires OfPsd2(idOf, k) && a in k.states
    ensures a in Sat(k, Literals(PSD2), Bin(Impl, PaymentIs("initiated"), Prefix(AX, NOT_COMPLETED)))
  {
    var s, n := SomewhereIn(idOf, k, a);
    assert IsState(STATES[1]);
    InMeans(k, a, s, n, "initiated");
    if s == "initiated" {
      InitiatedGoesOn(idOf, k, a, n);
    }
    ImpliedHere(k, Literals(PSD2), a, PaymentIs("initiated"), Prefix(AX, NOT_COMPLETED));
  }

  /** Every state satisfies every translated formula. */
  lemma FormulasHold(idOf: Valuation -> Id, k: Structure, i: nat, id: Id)
    requires OfPsd2(idOf, k) && i < |FORMULAS| && id in k.states
    ensures id in Sat(k, Literals(PSD2), Checked(FORMULAS[i].0, FORMULAS[i].1))
  {
    var body := Translate(FORMULAS[i].1.operand);
    assert Checked(FORMULAS[i].0, FORMULAS[i].1) == Prefix(AG, body);
    forall a | a in k.states ensures a in Sat(k, Literals(PSD2), body) {
      if i == 0 {
        LivenessHere(idOf, k, a);
      } else if i == 1 {
        GatheringHere(idOf, k, a);
      } else {
        NoShortcutHere(idOf, k, a);
      }
    }
    AlwaysEverywhere(k, Sat(k, Literals(PSD2), body), id);
  }

  /** Every atom of the formulas has a truth value in every state. */
  lemma AtomsEvaluable(idOf: Valuation -> Id, k: Structure)
    requires OfPsd2(idOf, k)
    ensures forall state :: IsState(state) ==> Evaluable(k, Literals(PSD2), PaymentIs(state))
    ensures Evaluable(k, Literals(PSD2), FACTORS_GATHERED) && Evaluable(k, Literals(PSD2), NOT_COMPLETED)
  {
    forall a | a in k.states
      ensures forall state :: IsState(state) ==> AtomTruth(Is(state), k.states[a], Literals(PSD2)).Ok?
      ensures AtomTruth(Factors(Ge, 2), k.states[a], Literals(PSD2)).Ok?
      ensures AtomTruth(Binary(Ne, Ident(PAYMENT), Ident("completed")), k.states[a], Literals(PSD2)).Ok?
    {
      var s, n := SomewhereIn(idOf, k, a);
      AtomsHere(k, a, s, n);
    }
  }

  lemma FormulasDecidable(k: Structure, literals: set<string>, i: nat)
    requires i < |FORMULAS| && forall state :: IsState(state) ==> Evaluable(k, literals, PaymentIs(state))
    requires Evaluable(k, literals, FACTORS_GATHERED) && Evaluable(k, literals, NOT_COMPLETED)
    ensures Decidable(k, literals, Checked(FORMULAS[i].0, FORMULAS[i].1))
  {
    assert IsState(STATES[1]) && IsState(STATES[3]) && IsState(STATES[4]) && IsState(STATES[5]);
    if i == 0 {
      assert Translate(ENDED) == ENDED && Translate(Prefix(F, ENDED)) == Prefix(AF, ENDED);
      assert Checked(LTL, LIVENESS) == Prefix(AG, Bin(Impl, PaymentIs("initiated"), Prefix(AF, ENDED)));
      assert Evaluable(k, literals, ENDED) && Evaluable(k, literals, Prefix(AF, ENDED));
    } else if i == 1 {
      assert Checked(LTL, GATHERING) == Prefix(AG, Bin(Impl, PaymentIs("completed"), FACTORS_GATHERED));
    } else {
      assert Translate(Prefix(X, NOT_COMPLETED)) == Prefix(AX, NOT_COMPLETED);
      assert Checked(LTL, NO_SHORTCUT) == Prefix(AG, Bin(Impl, PaymentIs("initiated"), Prefix(AX, NOT_COMPLETED)));
      assert Evaluable(k, literals, Prefix(AX, NOT_COMPLETED));
    }
  }

  /** Verifying the shipped specification neither fails nor finds a violation. */
  lemma Psd2Passes(idOf: Valuation -> Id, r: Result<SpecResult, VerifyError>)
    requires Verified(idOf, PSD2, FORMULAS, r)
    ensures r.Ok? && r.value.pass
  {
    EvaluationSucceeds();
    FewStates();
    assert !Undecidable(idOf, PSD2, FORMULAS) by {
      if k :| Represents(idOf, SystemOf(PSD2), k) && UndecidableOn(k, Literals(PSD2), FORMULAS) {
        AtomsEvaluable(idOf, k);
        forall i: nat | i < |FORMULAS| ensures Decidable(k, Literals(PSD2), Checked(FORMULAS[i].0, FORMULAS[i].1)) {
          FormulasDecidable(k, Literals(PSD2), i);
        }
        assert false;
      }
    }
    if r.Ok? {
      forall i, id | 0 <= i < |FORMULAS| && id in r.value.model.initial
        ensures id in Sat(r.value.model, Literals(PSD2), Checked(FORMULAS[i].0, FORMULAS[i].1))
      {
        FormulasHold(idOf, r.value.model, i, id);
      }
    }
  }
}
