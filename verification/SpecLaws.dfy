/** What a spec's rules and declarations mean for its initial valuations and steps. */
module SpecLaws {
  import opened Prelude
  import opened Syntax
  import opened Expressions
  import opened EvaluationLaws
  import opened StateSpace

  // ---- Rules and domains -------------------------------------------------------------------

  /** `rules[i]` is the last assignment to `name`. */
  predicate IsLastRule(rules: seq<Assignment>, name: string, i: int) {
    0 <= i < |rules| && rules[i].variable == name && forall j :: i < j < |rules| ==> rules[j].variable != name
  }

  lemma {:induction false} LastRuleWins(rules: seq<Assignment>, name: string)
    ensures forall i :: IsLastRule(rules, name, i) ==> RuleFor(rules, name) == Some(rules[i].expr)
    ensures RuleFor(rules, name).Some? <==> exists i :: IsLastRule(rules, name, i)
  {
    if rules != [] {
      var init, last := rules[..|rules| - 1], |rules| - 1;
      LastRuleWins(init, name);
      if rules[last].variable == name {
        assert IsLastRule(rules, name, last);
      } else {
        forall i | IsLastRule(init, name, i) ensures IsLastRule(rules, name, i) {
        }
        forall i | IsLastRule(rules, name, i) ensures IsLastRule(init, name, i) {
        }
      }
    }
  }

  /** `p` is a declared value of `v`: one of its words, or an integer from its range. */
  ghost predicate Declared(v: Variable, p: Prim) {
    match v
    case EnumVar(_, values) => p.Str? && p.s in values
    case RangeVar(_, min, max) => p.Num? && min <= p.n <= max
  }

  lemma DomainIsDeclared(v: Variable)
    ensures forall p :: p in Domain(v) <==> Declared(v, p)
  {
    match v
    case EnumVar(_, values) =>
      forall s | s in values ensures Str(s) in Words(values) {
        var i :| 0 <= i < |values| && values[i] == s;
        assert Words(values)[i] == Str(s);
      }
    case RangeVar(_, min, max) =>
      forall n | min <= n <= max ensures Num(n) in Domain(v) {
        assert Domain(v)[n - min] == Num(n);
      }
  }

  /** `p` passes for a value of `v`: it equals a word, or counts as an integer of the range. */
  ghost predicate Passes(v: Variable, p: Prim) {
    match v
    case EnumVar(_, values) =>
      exists i :: 0 <= i < |values| && Comparable(Str(values[i]), p) && Same(Str(values[i]), p)
                  && forall j :: 0 <= j < i ==> Comparable(Str(values[j]), p)
    case RangeVar(_, min, max) => exists n :: min <= n <= max && Counts(p, n)
  }

  lemma DomainCheckIsRead(v: Variable, p: Prim)
    ensures ValueInDomain(p, v) == Ok(true) <==> Passes(v, p)
  {
    match v
    case EnumVar(_, values) =>
      EqualBothWays(Words(values), p);
      MembershipIsRead(Words(values), p);
      assert forall i :: 0 <= i < |values| ==> Words(values)[i] == Str(values[i]);
      if Passes(v, p) {
        var i :| 0 <= i < |values| && Comparable(Str(values[i]), p) && Same(Str(values[i]), p)
                  && forall j :: 0 <= j < i ==> Comparable(Str(values[j]), p);
        assert PrimEqual(Words(values)[i], p) == Ok(true);
      }
    case RangeVar(_, min, max) =>
      forall n ensures AsNum(p) == Ok(n) <==> Counts(p, n) {
        NumbersAreRead(p, n);
      }
  }

  lemma DeclaredPasses(v: Variable, p: Prim)
    requires Declared(v, p)
    ensures Passes(v, p)
  {
    if v.EnumVar? {
      var i :| 0 <= i < |v.values| && v.values[i] == p.s;
      assert Comparable(Str(v.values[i]), p) && Same(Str(v.values[i]), p);
    } else {
      assert Counts(p, p.n);
    }
  }

  lemma LiteralsAreDeclared(spec: Spec, x: string)
    ensures x in Literals(spec) <==> exists i :: 0 <= i < |spec.variables| && Declared(spec.variables[i], Str(x))
  {
  }

  // ---- Steps and starts --------------------------------------------------------------------

  /** `p` is the scalar that `e` denotes, or a member of the set that it denotes. */
  ghost predicate Denotes(e: Expr, v: Valuation, literals: set<string>, p: Prim) {
    Gives(e, v, literals, p) || exists members :: Eval(e, v, literals) == Ok(Many(members)) && p in members
  }

  ghost predicate Assigned(rules: seq<Assignment>, name: string) {
    exists i :: IsLastRule(rules, name, i)
  }

  /** The last assignment to `name` denotes `p`. */
  ghost predicate AssignedTo(rules: seq<Assignment>, name: string, v: Valuation, literals: set<string>, p: Prim) {
    exists i :: IsLastRule(rules, name, i) && Denotes(rules[i].expr, v, literals, p)
  }

  lemma ChoicesAreRead(spec: Spec, from: Option<Valuation>, v: Variable, p: Prim)
    ensures var rules, u := if from.None? then spec.inits else spec.nexts, if from.None? then map[] else from.value;
            && (Assigned(rules, v.name) ==>
                  (ChoicesFor(spec, from, v).Ok? && p in ChoicesFor(spec, from, v).value
                   <==> AssignedTo(rules, v.name, u, Literals(spec), p)))
            && (!Assigned(rules, v.name) ==> ChoicesFor(spec, from, v).Ok?)
            && (!Assigned(rules, v.name) ==>
                  (p in ChoicesFor(spec, from, v).value
                   <==> if from.None? then Declared(v, p) else v.name in u && p == u[v.name]))
  {
    var rules, u := if from.None? then spec.inits else spec.nexts, if from.None? then map[] else from.value;
    LastRuleWins(rules, v.name);
    DomainIsDeclared(v);
    if i :| IsLastRule(rules, v.name, i) {
      var value := Eval(rules[i].expr, u, Literals(spec));
      assert RuleFor(rules, v.name) == Some(rules[i].expr);
      if value.Ok? && value.value.Many? {
        assert p in value.value.members <==> Denotes(rules[i].expr, u, Literals(spec), p);
      }
      forall j | IsLastRule(rules, v.name, j) ensures rules[j].expr == rules[i].expr {
      }
    }
  }

  /** `p` passes for a value of `v`, and the last `next` of `v` denotes it in `u`, or it is the value `v` has there. */
  ghost predicate Moves(spec: Spec, u: Valuation, v: Variable, p: Prim) {
    && Passes(v, p)
    && if Assigned(spec.nexts, v.name) then AssignedTo(spec.nexts, v.name, u, Literals(spec), p)
       else v.name in u && p == u[v.name]
  }

  /** `p` passes for a value of `v`, and the last `init` of `v` denotes it, or it is any declared value. */
  ghost predicate Begins(spec: Spec, v: Variable, p: Prim) {
    && Passes(v, p)
    && if Assigned(spec.inits, v.name) then AssignedTo(spec.inits, v.name, map[], Literals(spec), p)
       else Declared(v, p)
  }

  ghost predicate HasValues(spec: Spec, w: Valuation) {
    w.Keys == set v | v in spec.variables :: v.name
  }

  lemma OneMoves(spec: Spec, from: Option<Valuation>, v: Variable, p: Prim)
    ensures ChoicesFor(spec, from, v).Ok? && p in ChoicesFor(spec, from, v).value && ValueInDomain(p, v) == Ok(true)
            <==> if from.None? then Begins(spec, v, p) else Moves(spec, from.value, v, p)
  {
    ChoicesAreRead(spec, from, v, p);
    DomainCheckIsRead(v, p);
  }

  /** A step gives every variable a value that it may move to, independently of the others. */
  lemma StepsMean(spec: Spec, u: Valuation, w: Valuation)
    requires DistinctNames(spec.variables)
    ensures Admits(spec, Some(u), w) <==> HasValues(spec, w) && forall v :: v in spec.variables ==> Moves(spec, u, v, w[v.name])
  {
    AdmitsMeaning(spec, Some(u), w);
    forall v | v in spec.variables && v.name in w
      ensures (&& ChoicesFor(spec, Some(u), v).Ok? && w[v.name] in ChoicesFor(spec, Some(u), v).value
               && ValueInDomain(w[v.name], v) == Ok(true))
              <==> Moves(spec, u, v, w[v.name])
    {
      OneMoves(spec, Some(u), v, w[v.name]);
    }
  }

  /** An initial valuation gives every variable a value that it may begin with. */
  lemma StartsMean(spec: Spec, w: Valuation)
    requires DistinctNames(spec.variables)
    ensures Admits(spec, None, w) <==> HasValues(spec, w) && forall v :: v in spec.variables ==> Begins(spec, v, w[v.name])
  {
    AdmitsMeaning(spec, None, w);
    forall v | v in spec.variables && v.name in w
      ensures (&& ChoicesFor(spec, None, v).Ok? && w[v.name] in ChoicesFor(spec, None, v).value
               && ValueInDomain(w[v.name], v) == Ok(true))
              <==> Begins(spec, v, w[v.name])
    {
      OneMoves(spec, None, v, w[v.name]);
    }
  }

  /** A variable without `init` starts anywhere in its domain, whatever the others start with. */
  lemma FreeStart(spec: Spec, w: Valuation, v: Variable, p: Prim)
    requires DistinctNames(spec.variables) && v in spec.variables && !Assigned(spec.inits, v.name)
    requires Admits(spec, None, w) && Declared(v, p)
    ensures Admits(spec, None, w[v.name := p])
  {
    StartsMean(spec, w);
    StartsMean(spec, w[v.name := p]);
    DeclaredPasses(v, p);
  }

  /** Enumerating a step raises for a variable exactly if its last assignment does. */
  lemma RuleRaises(spec: Spec, from: Option<Valuation>, v: Variable)
    ensures var rules, u := if from.None? then spec.inits else spec.nexts, if from.None? then map[] else from.value;
            ChoicesFor(spec, from, v).Err? <==>
            exists i :: IsLastRule(rules, v.name, i) && Raises(rules[i].expr, u, Literals(spec))
  {
    LastRuleWins(if from.None? then spec.inits else spec.nexts, v.name);
  }
}
