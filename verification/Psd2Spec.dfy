/** The shipped specification of strong customer authentication: its steps, and that its three formulas pass. */
module Psd2Spec {
  import opened Prelude
  import opened Syntax
  import opened Expressions
  import opened EvaluationLaws
  import opened StateSpace
  import opened SpecLaws

  const PAYMENT := "payment_state"
  const FACTORS := "factor_count"
  const STATES := ["idle", "initiated", "authenticating", "authenticated", "completed", "refused"]

  function Is(state: string): Expr {
    Binary(Eq, Ident(PAYMENT), Ident(state))
  }

  function Factors(op: BinOp, n: nat): Expr {
    Binary(op, Ident(FACTORS), IntLit(n))
  }

  const NEXT_PAYMENT := [
    Branch(Is("idle"), SetLit([Str("idle"), Str("initiated")])),
    Branch(Is("initiated"), Ident("authenticating")),
    Branch(Binary(And, Is("authenticating"), Factors(Ge, 2)), Ident("authenticated")),
    Branch(Binary(And, Is("authenticating"), Factors(Lt, 2)), SetLit([Str("authenticating"), Str("refused")])),
    Branch(Is("authenticated"), Ident("completed")),
    Branch(Is("completed"), Ident("completed")),
    Branch(Is("refused"), Ident("refused")),
    Branch(BoolLit(true), Ident(PAYMENT))]

  const NEXT_FACTORS := [
    Branch(Is("initiated"), IntLit(0)),
    Branch(Binary(And, Is("authenticating"), Factors(Lt, 2)), Binary(Add, Ident(FACTORS), IntLit(1))),
    Branch(BoolLit(true), Ident(FACTORS))]

  const PSD2 := Spec(
    [EnumVar(PAYMENT, STATES), RangeVar(FACTORS, 0, 2)],
    [Assignment(PAYMENT, Ident("idle")), Assignment(FACTORS, IntLit(0))],
    [Assignment(PAYMENT, Case(NEXT_PAYMENT)), Assignment(FACTORS, Case(NEXT_FACTORS))])

  /** A payment in `state` with `n` factors gathered. */
  function PaymentAt(state: string, n: int): Valuation {
    map[PAYMENT := Str(state), FACTORS := Num(n)]
  }

  predicate IsState(s: string) {
    s in STATES
  }

  /** The documented transitions: where a payment may go next, and how many factors it then has. */
  function NextStates(s: string, n: int): seq<string> {
    if s == "idle" then ["idle", "initiated"]
    else if s == "initiated" then ["authenticating"]
    else if s == "authenticating" && n >= 2 then ["authenticated"]
    else if s == "authenticating" then ["authenticating", "refused"]
    else if s == "authenticated" then ["completed"]
    else [s]
  }

  function NextFactors(s: string, n: int): int {
    if s == "initiated" then 0 else if s == "authenticating" && n < 2 then n + 1 else n
  }

  lemma StatesDiffer()
    ensures |"idle"| == 4 && |"initiated"| == 9 && |"authenticating"| == 14 && |"authenticated"| == 13
    ensures |"completed"| == 9 && |"refused"| == 7 && |PAYMENT| == 13 && |FACTORS| == 12
    ensures "initiated" != "completed" && PAYMENT != "authenticated"
  {
    assert "initiated"[0] == 'i' && "completed"[0] == 'c' && PAYMENT[0] == 'p' && "authenticated"[0] == 'a';
  }

  lemma LiteralsOfPsd2()
    ensures Literals(PSD2) == set s | s in STATES
  {
    assert PSD2.variables[0] in PSD2.variables;
  }

  // ---- Evaluation in a state ----------------------------------------------------------------

  lemma IsGives(s: string, n: int, state: string)
    requires IsState(state)
    ensures Gives(Is(state), PaymentAt(s, n), Literals(PSD2), Bool(s == state))
  {
    StatesDiffer();
    LiteralsOfPsd2();
    var v := PaymentAt(s, n);
    NamesAndLiterals(PAYMENT, v, Literals(PSD2));
    NamesAndLiterals(state, v, Literals(PSD2));
    Equalities(Ident(PAYMENT), Ident(state), v, Literals(PSD2), Str(s), Str(state));
  }

  lemma FactorsGive(s: string, n: int)
    ensures Gives(Factors(Ge, 2), PaymentAt(s, n), Literals(PSD2), Bool(n >= 2))
    ensures Gives(Factors(Lt, 2), PaymentAt(s, n), Literals(PSD2), Bool(n < 2))
    ensures Gives(Binary(Add, Ident(FACTORS), IntLit(1)), PaymentAt(s, n), Literals(PSD2), Num(n + 1))
  {
    var v := PaymentAt(s, n);
    NamesAndLiterals(FACTORS, v, Literals(PSD2));
    assert FACTORS in v && v[FACTORS] == Num(n);
    Applied(Ge, Ident(FACTORS), IntLit(2), v, Literals(PSD2), Num(n), Num(2));
    Applied(Lt, Ident(FACTORS), IntLit(2), v, Literals(PSD2), Num(n), Num(2));
    Applied(Add, Ident(FACTORS), IntLit(1), v, Literals(PSD2), Num(n), Num(1));
  }

  lemma BothGive(s: string, n: int, op: BinOp, b: bool)
    requires Gives(Factors(op, 2), PaymentAt(s, n), Literals(PSD2), Bool(b))
    ensures Gives(Binary(And, Is("authenticating"), Factors(op, 2)), PaymentAt(s, n), Literals(PSD2), Bool(s == "authenticating" && b))
  {
    IsGives(s, n, "authenticating");
    Conjunctions(Is("authenticating"), Factors(op, 2), PaymentAt(s, n), Literals(PSD2), Bool(s == "authenticating"), Bool(b));
  }

  /** Which guards of `next(payment_state)` are true. */
  function PaymentGuards(s: string, n: int): seq<bool> {
    [s == "idle", s == "initiated", s == "authenticating" && n >= 2, s == "authenticating" && n < 2,
     s == "authenticated", s == "completed", s == "refused", true]
  }

  function FactorGuards(s: string, n: int): seq<bool> {
    [s == "initiated", s == "authenticating" && n < 2, true]
  }

  ghost predicate GuardIs(e: Expr, s: string, n: int, b: bool) {
    Gives(e, PaymentAt(s, n), Literals(PSD2), Bool(b))
  }

  lemma StateGuard(s: string, n: int, i: nat, k: nat)
    requires k < |STATES| && i < |NEXT_PAYMENT| && NEXT_PAYMENT[i].guard == Is(STATES[k])
    ensures GuardIs(NEXT_PAYMENT[i].guard, s, n, s == STATES[k])
  {
    assert STATES[k] in STATES;
    IsGives(s, n, STATES[k]);
  }

  lemma GatheredGuard(s: string, n: int)
    ensures GuardIs(NEXT_PAYMENT[2].guard, s, n, s == "authenticating" && n >= 2)
  {
    FactorsGive(s, n);
    BothGive(s, n, Ge, n >= 2);
  }

  lemma GatheringGuard(s: string, n: int)
    ensures GuardIs(NEXT_PAYMENT[3].guard, s, n, s == "authenticating" && n < 2)
  {
    FactorsGive(s, n);
    BothGive(s, n, Lt, n < 2);
  }

  lemma PaymentGuard(s: string, n: int, i: nat)
    requires i < |NEXT_PAYMENT|
    ensures GuardIs(NEXT_PAYMENT[i].guard, s, n, PaymentGuards(s, n)[i])
  {
    if i == 2 {
      GatheredGuard(s, n);
    } else if i == 3 {
      GatheringGuard(s, n);
    } else if i < 7 {
      StateGuard(s, n, i, if i < 2 then i else i - 1);
    }
  }

  lemma FactorGuard(s: string, n: int, i: nat)
    requires i < |NEXT_FACTORS|
    ensures GuardIs(NEXT_FACTORS[i].guard, s, n, FactorGuards(s, n)[i])
  {
    FactorsGive(s, n);
    match i
    case 0 => IsGives(s, n, "initiated");
    case 1 => BothGive(s, n, Lt, n < 2);
    case _ => NamesAndLiterals(PAYMENT, PaymentAt(s, n), Literals(PSD2));
  }

  /** The branch after `i` guards that are false and one that is true. */
  lemma FirstTrue(branches: seq<Branch>, s: string, n: int, truth: seq<bool>, i: nat)
    requires |truth| == |branches| && forall j :: 0 <= j < |branches| ==> GuardIs(branches[j].guard, s, n, truth[j])
    requires i < |truth| && truth[i] && forall j :: 0 <= j < i ==> !truth[j]
    ensures Eval(Case(branches), PaymentAt(s, n), Literals(PSD2)) == Eval(branches[i].value, PaymentAt(s, n), Literals(PSD2))
  {
    Cases(branches, PaymentAt(s, n), Literals(PSD2));
    assert Means(Bool(true), true) && Means(Bool(false), false);
    forall j | 0 <= j < i ensures Gives(branches[j].guard, PaymentAt(s, n), Literals(PSD2), Bool(false)) {
      assert GuardIs(branches[j].guard, s, n, truth[j]);
    }
    assert GuardIs(branches[i].guard, s, n, truth[i]);
    assert Taken(branches, i, PaymentAt(s, n), Literals(PSD2));
  }

  lemma PaymentTakes(s: string, n: int, i: nat)
    requires i < |NEXT_PAYMENT| && PaymentGuards(s, n)[i] && forall j :: 0 <= j < i ==> !PaymentGuards(s, n)[j]
    ensures Eval(Case(NEXT_PAYMENT), PaymentAt(s, n), Literals(PSD2)) == Eval(NEXT_PAYMENT[i].value, PaymentAt(s, n), Literals(PSD2))
  {
    forall j | 0 <= j < |NEXT_PAYMENT| ensures GuardIs(NEXT_PAYMENT[j].guard, s, n, PaymentGuards(s, n)[j]) {
      PaymentGuard(s, n, j);
    }
    FirstTrue(NEXT_PAYMENT, s, n, PaymentGuards(s, n), i);
  }

  lemma FactorsTake(s: string, n: int, i: nat)
    requires i < |NEXT_FACTORS| && FactorGuards(s, n)[i] && forall j :: 0 <= j < i ==> !FactorGuards(s, n)[j]
    ensures Eval(Case(NEXT_FACTORS), PaymentAt(s, n), Literals(PSD2)) == Eval(NEXT_FACTORS[i].value, PaymentAt(s, n), Literals(PSD2))
  {
    forall j | 0 <= j < |NEXT_FACTORS| ensures GuardIs(NEXT_FACTORS[j].guard, s, n, FactorGuards(s, n)[j]) {
      FactorGuard(s, n, j);
    }
    FirstTrue(NEXT_FACTORS, s, n, FactorGuards(s, n), i);
  }

  // ---- Steps ------------------------------------------------------------------------------------

  lemma WordGives(s: string, n: int, k: nat)
    requires k < |STATES|
    ensures Gives(Ident(STATES[k]), PaymentAt(s, n), Literals(PSD2), Str(STATES[k]))
  {
    StatesDiffer();
    LiteralsOfPsd2();
    assert STATES[k] in STATES && STATES[k] != PAYMENT && STATES[k] != FACTORS;
    NamesAndLiterals(STATES[k], PaymentAt(s, n), Literals(PSD2));
  }

  /** The index of the branch that is taken in `s`. */
  function PaymentBranch(s: string, n: int): nat {
    if s == "idle" then 0 else if s == "initiated" then 1 else if s == "authenticating" then (if n >= 2 then 2 else 3)
    else if s == "authenticated" then 4 else if s == "completed" then 5 else 6
  }

  lemma BranchIsFirst(s: string, n: int)
    requires IsState(s)
    ensures var i := PaymentBranch(s, n); PaymentGuards(s, n)[i] && forall j :: 0 <= j < i ==> !PaymentGuards(s, n)[j]
  {
    StatesDiffer();
  }

  lemma PaymentValue(s: string, n: int)
    requires IsState(s)
    ensures var value := Eval(Case(NEXT_PAYMENT), PaymentAt(s, n), Literals(PSD2));
            value == Ok(if s == "idle" || (s == "authenticating" && n < 2) then Many(Words(NextStates(s, n)))
                        else Scalar(Str(NextStates(s, n)[0])))
  {
    var i := PaymentBranch(s, n);
    BranchIsFirst(s, n);
    PaymentTakes(s, n, i);
    StatesDiffer();
    if i in {1, 2, 4, 5, 6} {
      WordGives(s, n, if i < 3 then i + 1 else if i < 6 then 4 else 5);
    } else {
      assert Words(NextStates(s, n)) == NEXT_PAYMENT[i].value.values;
      NamesAndLiterals(PAYMENT, PaymentAt(s, n), Literals(PSD2));
    }
  }

  lemma FactorsValue(s: string, n: int)
    ensures Gives(Case(NEXT_FACTORS), PaymentAt(s, n), Literals(PSD2), Num(NextFactors(s, n)))
  {
    StatesDiffer();
    FactorsGive(s, n);
    NamesAndLiterals(FACTORS, PaymentAt(s, n), Literals(PSD2));
    FactorsTake(s, n, if s == "initiated" then 0 else if s == "authenticating" && n < 2 then 1 else 2);
  }

  lemma RulesOfPsd2()
    ensures forall i :: IsLastRule(PSD2.nexts, PAYMENT, i) <==> i == 0
    ensures forall i :: IsLastRule(PSD2.nexts, FACTORS, i) <==> i == 1
    ensures forall i :: IsLastRule(PSD2.inits, PAYMENT, i) <==> i == 0
    ensures forall i :: IsLastRule(PSD2.inits, FACTORS, i) <==> i == 1
    ensures DistinctNames(PSD2.variables) && Names(PSD2) == {PAYMENT, FACTORS}
  {
    StatesDiffer();
    assert PSD2.variables[0] in PSD2.variables && PSD2.variables[1] in PSD2.variables;
  }

  lemma PaymentMoves(s: string, n: int, p: Prim)
    requires IsState(s)
    ensures Moves(PSD2, PaymentAt(s, n), PSD2.variables[0], p) <==> p.Str? && p.s in NextStates(s, n)
  {
    RulesOfPsd2();
    PaymentValue(s, n);
    assert IsLastRule(PSD2.nexts, PAYMENT, 0);
    var next := NextStates(s, n);
    DomainIsWords(next);
    if p.Str? && p.s in next {
      NextIsState(s, n);
      DeclaredPasses(PSD2.variables[0], p);
      assert Denotes(PSD2.nexts[0].expr, PaymentAt(s, n), Literals(PSD2), p);
    }
  }

  lemma DomainIsWords(values: seq<string>)
    ensures forall p :: p in Words(values) <==> p.Str? && p.s in values
  {
    DomainIsDeclared(EnumVar("", values));
    assert Domain(EnumVar("", values)) == Words(values);
    assert forall p :: Declared(EnumVar("", values), p) <==> p.Str? && p.s in values;
  }

  lemma NextIsState(s: string, n: int)
    requires IsState(s)
    ensures forall t :: t in NextStates(s, n) ==> IsState(t)
  {
  }

  lemma FactorsMove(s: string, n: int, p: Prim)
    requires 0 <= n <= 2
    ensures Moves(PSD2, PaymentAt(s, n), PSD2.variables[1], p) <==> p == Num(NextFactors(s, n))
  {
    RulesOfPsd2();
    FactorsValue(s, n);
    assert IsLastRule(PSD2.nexts, FACTORS, 1);
    if p == Num(NextFactors(s, n)) {
      DeclaredPasses(PSD2.variables[1], p);
      assert Denotes(PSD2.nexts[1].expr, PaymentAt(s, n), Literals(PSD2), p);
    }
  }

  /** A valuation that gives both variables a value that `ok` accepts. */
  lemma TwoVariables(ok: (Variable, Prim) -> bool, w: Valuation)
    ensures HasValues(PSD2, w) && (forall v :: v in PSD2.variables ==> ok(v, w[v.name])) <==>
            w.Keys == {PAYMENT, FACTORS} && ok(PSD2.variables[0], w[PAYMENT]) && ok(PSD2.variables[1], w[FACTORS])
  {
    RulesOfPsd2();
    assert forall v :: v in PSD2.variables <==> v == PSD2.variables[0] || v == PSD2.variables[1];
  }

  lemma IsAt(w: Valuation, t: string, m: int)
    ensures w == PaymentAt(t, m) <==> w.Keys == {PAYMENT, FACTORS} && w[PAYMENT] == Str(t) && w[FACTORS] == Num(m)
  {
    StatesDiffer();
  }

  /** One step of the specification goes exactly where the documentation says. */
  lemma StepsOfPsd2(s: string, n: int, w: Valuation)
    requires IsState(s) && 0 <= n <= 2
    ensures Admits(PSD2, Some(PaymentAt(s, n)), w) <==> exists t :: t in NextStates(s, n) && w == PaymentAt(t, NextFactors(s, n))
  {
    var ok := (v: Variable, p: Prim) => Moves(PSD2, PaymentAt(s, n), v, p);
    RulesOfPsd2();
    StepsMean(PSD2, PaymentAt(s, n), w);
    assert forall v, p :: ok(v, p) <==> Moves(PSD2, PaymentAt(s, n), v, p);
    TwoVariables(ok, w);
    BothMove(s, n, w);
  }

  lemma BothMove(s: string, n: int, w: Valuation)
    requires IsState(s) && 0 <= n <= 2
    ensures w.Keys == {PAYMENT, FACTORS} && Moves(PSD2, PaymentAt(s, n), PSD2.variables[0], w[PAYMENT])
            && Moves(PSD2, PaymentAt(s, n), PSD2.variables[1], w[FACTORS]) <==>
            exists t :: t in NextStates(s, n) && w == PaymentAt(t, NextFactors(s, n))
  {
    if w.Keys == {PAYMENT, FACTORS} {
      PaymentMoves(s, n, w[PAYMENT]);
      FactorsMove(s, n, w[FACTORS]);
      if w[PAYMENT].Str? {
        IsAt(w, w[PAYMENT].s, NextFactors(s, n));
      }
    }
    forall t | w == PaymentAt(t, NextFactors(s, n)) ensures w.Keys == {PAYMENT, FACTORS} && w[PAYMENT] == Str(t) {
      IsAt(w, t, NextFactors(s, n));
    }
  }

  /** With two factors gathered, `authenticating` leads to `authenticated` and nowhere else. */
  lemma GatheredLeadsOn(w: Valuation)
    ensures Admits(PSD2, Some(PaymentAt("authenticating", 2)), w) <==> w == PaymentAt("authenticated", 2)
  {
    StatesDiffer();
    StepsOfPsd2("authenticating", 2, w);
    assert "authenticated" in NextStates("authenticating", 2);
  }

  lemma PaymentBegins(p: Prim)
    ensures Begins(PSD2, PSD2.variables[0], p) <==> p == Str("idle")
  {
    RulesOfPsd2();
    StatesDiffer();
    LiteralsOfPsd2();
    NamesAndLiterals("idle", map[], Literals(PSD2));
    assert IsLastRule(PSD2.inits, PAYMENT, 0);
    assert Denotes(PSD2.inits[0].expr, map[], Literals(PSD2), Str("idle"));
    DeclaredPasses(PSD2.variables[0], Str("idle"));
  }

  lemma FactorsBegin(p: Prim)
    ensures Begins(PSD2, PSD2.variables[1], p) <==> p == Num(0)
  {
    RulesOfPsd2();
    assert IsLastRule(PSD2.inits, FACTORS, 1);
    assert Denotes(PSD2.inits[1].expr, map[], Literals(PSD2), Num(0));
    DeclaredPasses(PSD2.variables[1], Num(0));
  }

  lemma StartOfPsd2(w: Valuation)
    ensures Admits(PSD2, None, w) <==> w == PaymentAt("idle", 0)
  {
    var ok := (v: Variable, p: Prim) => Begins(PSD2, v, p);
    RulesOfPsd2();
    StartsMean(PSD2, w);
    assert forall v, p :: ok(v, p) <==> Begins(PSD2, v, p);
    TwoVariables(ok, w);
    IsAt(w, "idle", 0);
    if w.Keys == {PAYMENT, FACTORS} {
      PaymentBegins(w[PAYMENT]);
      FactorsBegin(w[FACTORS]);
    }
  }
}
