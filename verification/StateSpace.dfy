/** Enumeration of the reachable valuations of a spec into a transition structure. */
module StateSpace {
  import opened Prelude
  import opened Syntax
  import opened Expressions
  import opened Kripke

  /** Cap on the number of reachable states. */
  const STATE_LIMIT := 4096

  function Literals(spec: Spec): set<string> {
    set v, x | v in spec.variables && v.EnumVar? && x in v.values :: x
  }

  /** The last assignment to a variable wins. */
  function RuleFor(rules: seq<Assignment>, name: string): Option<Expr> {
    if rules == [] then None
    else if rules[|rules| - 1].variable == name then Some(rules[|rules| - 1].expr)
    else RuleFor(rules[..|rules| - 1], name)
  }

  function Words(values: seq<string>): (ps: seq<Prim>) {
    seq(|values|, i requires 0 <= i < |values| => Str(values[i]))
  }

  function Domain(v: Variable): seq<Prim> {
    match v
    case EnumVar(_, values) => Words(values)
    case RangeVar(_, min, max) => if min <= max then seq(max - min + 1, i => Num(min + i)) else []
  }

  /**
   * The values variable `v` may take: initially when `from` is `None`, else in the step from that valuation.
   * Without a rule a variable starts anywhere in its domain and afterwards keeps its value.
   */
  function ChoicesFor(spec: Spec, from: Option<Valuation>, v: Variable): Result<seq<Prim>, EvalError> {
    var rules := if from.None? then spec.inits else spec.nexts;
    match RuleFor(rules, v.name)
    case Some(rule) =>
      var value :- Eval(rule, if from.None? then map[] else from.value, Literals(spec));
      Ok(if value.Many? then value.members else [value.prim])
    case None =>
      if from.None? then Ok(Domain(v))
      else Ok(if v.name in from.value then [from.value[v.name]] else [])
  }

  function ValueInDomain(p: Prim, v: Variable): Result<bool, EvalError> {
    match v
    case EnumVar(_, values) => SomeEqual(Words(values), p)
    case RangeVar(_, min, max) => var n :- AsNum(p); Ok(min <= n <= max)
  }

  /** Checks variables in order and stops at the first value outside its domain. */
  function InDomains(variables: seq<Variable>, w: Valuation): Result<bool, EvalError> {
    if variables == [] then Ok(true)
    else if variables[0].name !in w then Ok(false)
    else
      var inside :- ValueInDomain(w[variables[0].name], variables[0]);
      if inside then InDomains(variables[1..], w) else Ok(false)
  }

  // ---- The transition relation of a spec, stated without loops -----------------------

  function Given(u: Valuation, name: string, value: Prim): Valuation {
    u[name := value]
  }

  function ChoicesOf(spec: Spec, from: Option<Valuation>): Variable -> Result<seq<Prim>, EvalError> {
    (v: Variable) => ChoicesFor(spec, from, v)
  }

  /** `w` assigns the first `n` variables in turn, each from its choices. */
  ghost predicate PicksBy(choices: Variable -> Result<seq<Prim>, EvalError>, vars: seq<Variable>, n: nat, w: Valuation)
    requires n <= |vars|
  {
    if n == 0 then w == map[]
    else
      var v := vars[n - 1];
      choices(v).Ok? &&
      exists u, c :: PicksBy(choices, vars, n - 1, u) && c in choices(v).value && w == Given(u, v.name, c)
  }

  ghost predicate Picks(spec: Spec, from: Option<Valuation>, n: nat, w: Valuation)
    requires n <= |spec.variables|
  {
    PicksBy(ChoicesOf(spec, from), spec.variables, n, w)
  }

  /** `w` is an initial valuation (`from` is `None`) or a successor of the given one. */
  ghost predicate Admits(spec: Spec, from: Option<Valuation>, w: Valuation) {
    Picks(spec, from, |spec.variables|, w) && InDomains(spec.variables, w) == Ok(true)
  }

  ghost predicate Throws(spec: Spec, from: Option<Valuation>) {
    || (exists v :: v in spec.variables && ChoicesFor(spec, from, v).Err?)
    || (exists w :: Picks(spec, from, |spec.variables|, w) && InDomains(spec.variables, w).Err?)
  }

  function Names(spec: Spec): set<string> {
    set v | v in spec.variables :: v.name
  }

  lemma {:induction false} PicksAssigns(choices: Variable -> Result<seq<Prim>, EvalError>, vars: seq<Variable>, n: nat, w: Valuation)
    requires n <= |vars| && PicksBy(choices, vars, n, w)
    ensures w.Keys == set v | v in vars[..n] :: v.name
  {
    if n > 0 {
      var v := vars[n - 1];
      var u, c :| PicksBy(choices, vars, n - 1, u) && c in choices(v).value && w == Given(u, v.name, c);
      PicksAssigns(choices, vars, n - 1, u);
      assert vars[..n] == vars[..n - 1] + [v];
    }
  }

  lemma AdmitsAssigns(spec: Spec, from: Option<Valuation>, w: Valuation)
    requires Admits(spec, from, w)
    ensures w.Keys == Names(spec)
  {
    PicksAssigns(ChoicesOf(spec, from), spec.variables, |spec.variables|, w);
    assert spec.variables[..|spec.variables|] == spec.variables;
  }

  ghost predicate DistinctNames(vars: seq<Variable>) {
    forall i, j :: 0 <= i < j < |vars| ==> vars[i].name != vars[j].name
  }

  /** Value by value reading of `PicksBy` when no variable is declared twice. */
  ghost predicate PicksEach(choices: Variable -> Result<seq<Prim>, EvalError>, vars: seq<Variable>, w: Valuation) {
    && w.Keys == (set v | v in vars :: v.name)
    && forall v :: v in vars ==> choices(v).Ok? && w[v.name] in choices(v).value
  }

  lemma {:induction false} PicksIsPicksEach(choices: Variable -> Result<seq<Prim>, EvalError>, vars: seq<Variable>, n: nat, w: Valuation)
    requires n <= |vars| && DistinctNames(vars)
    ensures PicksBy(choices, vars, n, w) <==> PicksEach(choices, vars[..n], w)
  {
    if n > 0 {
      var v, rest := vars[n - 1], vars[..n - 1];
      assert vars[..n] == rest + [v];
      assert forall x :: x in rest ==> x.name != v.name;
      if PicksBy(choices, vars, n, w) {
        var u, c :| PicksBy(choices, vars, n - 1, u) && c in choices(v).value && w == Given(u, v.name, c);
        PicksIsPicksEach(choices, vars, n - 1, u);
        PicksEachAfter(choices, rest, v, u, c);
      }
      if PicksEach(choices, vars[..n], w) {
        var u := PicksEachBefore(choices, rest, v, w);
        PicksIsPicksEach(choices, vars, n - 1, u);
      }
    }
  }

  lemma PicksEachAfter(choices: Variable -> Result<seq<Prim>, EvalError>, rest: seq<Variable>, v: Variable, u: Valuation, c: Prim)
    requires PicksEach(choices, rest, u) && choices(v).Ok? && c in choices(v).value
    requires forall x :: x in rest ==> x.name != v.name
    ensures PicksEach(choices, rest + [v], Given(u, v.name, c))
  {
  }

  lemma PicksEachBefore(choices: Variable -> Result<seq<Prim>, EvalError>, rest: seq<Variable>, v: Variable, w: Valuation) returns (u: Valuation)
    requires PicksEach(choices, rest + [v], w) && forall x :: x in rest ==> x.name != v.name
    ensures PicksEach(choices, rest, u) && choices(v).Ok? && w[v.name] in choices(v).value && w == Given(u, v.name, w[v.name])
  {
    assert v in rest + [v];
    u := w - {v.name};
    assert u.Keys == set x | x in rest :: x.name;
  }

  /** A step changes every variable as its own rule allows, within its domain, and nothing else. */
  lemma AdmitsMeaning(spec: Spec, from: Option<Valuation>, w: Valuation)
    requires DistinctNames(spec.variables)
    ensures Admits(spec, from, w) <==>
      (w.Keys == Names(spec) && forall v :: v in spec.variables ==>
         && ChoicesFor(spec, from, v).Ok? && w[v.name] in ChoicesFor(spec, from, v).value
         && ValueInDomain(w[v.name], v) == Ok(true))
  {
    PicksIsPicksEach(ChoicesOf(spec, from), spec.variables, |spec.variables|, w);
    assert spec.variables[..|spec.variables|] == spec.variables;
    assert forall v :: v in spec.variables ==> ChoicesOf(spec, from)(v) == ChoicesFor(spec, from, v);
    if w.Keys == Names(spec) {
      InDomainsMeaning(spec.variables, w);
    }
  }

  lemma {:induction false} InDomainsMeaning(variables: seq<Variable>, w: Valuation)
    requires forall v :: v in variables ==> v.name in w
    ensures InDomains(variables, w) == Ok(true) <==>
            forall v :: v in variables ==> ValueInDomain(w[v.name], v) == Ok(true)
  {
    if variables != [] {
      InDomainsMeaning(variables[1..], w);
      assert forall v :: v in variables <==> v == variables[0] || v in variables[1..];
    }
  }

  // ---- Enumeration -------------------------------------------------------------------

  ghost predicate Extension(partials: seq<Valuation>, name: string, choices: seq<Prim>, w: Valuation) {
    exists u, c :: u in partials && c in choices && w == Given(u, name, c)
  }

  /** Every way of giving one more variable a value. */
  method Extend(partials: seq<Valuation>, name: string, choices: seq<Prim>) returns (next: seq<Valuation>)
    ensures forall w :: w in next <==> Extension(partials, name, choices, w)
  {
    next := [];
    var i := 0;
    while i < |partials|
      invariant i <= |partials|
      invariant forall w :: w in next <==> Extension(partials[..i], name, choices, w)
    {
      var more := ExtendOne(partials[i], name, choices);
      assert partials[..i + 1] == partials[..i] + [partials[i]];
      forall w
        ensures w in next + more <==> Extension(partials[..i + 1], name, choices, w)
      {
        if w in more {
          assert partials[i] in partials[..i + 1];
        }
      }
      next := next + more;
      i := i + 1;
    }
    assert partials[..i] == partials;
  }

  method ExtendOne(partial: Valuation, name: string, choices: seq<Prim>) returns (next: seq<Valuation>)
    ensures forall w :: w in next <==> exists c :: c in choices && w == Given(partial, name, c)
  {
    next := [];
    var j := 0;
    while j < |choices|
      invariant j <= |choices| && |next| == j
      invariant forall x :: 0 <= x < j ==> next[x] == Given(partial, name, choices[x])
    {
      next := next + [Given(partial, name, choices[j])];
      j := j + 1;
    }
    forall w
      ensures w in next <==> exists c :: c in choices && w == Given(partial, name, c)
    {
      if c :| c in choices && w == Given(partial, name, c) {
        var x :| 0 <= x < |choices| && choices[x] == c;
        assert next[x] == w;
      }
    }
  }

  method Successors(spec: Spec, from: Option<Valuation>) returns (r: Result<seq<Valuation>, EvalError>)
    ensures r.Err? <==> Throws(spec, from)
    ensures r.Ok? ==> forall w :: w in r.value <==> Admits(spec, from, w)
  {
    var acc: seq<Valuation> := [map[]];
    var i := 0;
    while i < |spec.variables|
      invariant i <= |spec.variables|
      invariant forall v :: v in spec.variables[..i] ==> ChoicesFor(spec, from, v).Ok?
      invariant forall w :: w in acc <==> Picks(spec, from, i, w)
    {
      var v := spec.variables[i];
      var choices := ChoicesFor(spec, from, v);
      if choices.Err? {
        return Err(choices.error);
      }
      ghost var shorter := acc;
      assert ChoicesOf(spec, from)(v) == choices;
      acc := Extend(acc, v.name, choices.value);
      assert spec.variables[..i + 1] == spec.variables[..i] + [v];
      forall w
        ensures w in acc <==> Picks(spec, from, i + 1, w)
      {
        assert w in acc <==> Extension(shorter, v.name, choices.value, w);
      }
      i := i + 1;
    }
    assert spec.variables[..i] == spec.variables;
    var kept: seq<Valuation> := [];
    var j := 0;
    while j < |acc|
      invariant j <= |acc|
      invariant forall w :: w in acc[..j] ==> InDomains(spec.variables, w).Ok?
      invariant forall w :: w in kept <==> w in acc[..j] && InDomains(spec.variables, w) == Ok(true)
    {
      var inside := InDomains(spec.variables, acc[j]);
      if inside.Err? {
        assert acc[j] in acc;
        return Err(inside.error);
      }
      assert acc[..j + 1] == acc[..j] + [acc[j]];
      if inside.value {
        kept := kept + [acc[j]];
      }
      j := j + 1;
    }
    assert acc[..j] == acc;
    return Ok(kept);
  }

  // ---- Breadth-first search --------------------------------------------------------------

  /**
   * A transition relation over valuations of fixed variables; `None` is the source of the initial ones.
   * `throws` says where enumerating successors raises an exception.
   */
  datatype System = System(
    names: set<string>,
    admits: (Option<Valuation>, Valuation) -> bool,
    throws: Option<Valuation> -> bool)

  ghost predicate Proper(sys: System) {
    forall from, w :: sys.admits(from, w) ==> w.Keys == sys.names
  }

  ghost function SystemOf(spec: Spec): System {
    System(Names(spec), (from, w) => Admits(spec, from, w), from => Throws(spec, from))
  }

  lemma SystemOfIsProper(spec: Spec)
    ensures Proper(SystemOf(spec))
  {
    forall from, w | SystemOf(spec).admits(from, w)
      ensures w.Keys == Names(spec)
    {
      AdmitsAssigns(spec, from, w);
    }
  }

  ghost predicate ReachableIn(sys: System, n: nat, w: Valuation) {
    if n == 0 then sys.admits(None, w)
    else exists u :: ReachableIn(sys, n - 1, u) && sys.admits(Some(u), w)
  }

  ghost predicate Reachable(sys: System, w: Valuation) {
    exists n: nat :: ReachableIn(sys, n, w)
  }

  lemma ReachableAssigns(sys: System, w: Valuation)
    requires Proper(sys) && Reachable(sys, w)
    ensures w.Keys == sys.names
  {
    var n: nat :| ReachableIn(sys, n, w);
    if n > 0 {
      var u :| ReachableIn(sys, n - 1, u) && sys.admits(Some(u), w);
    }
  }

  datatype BuildError = EvaluationFailed | TooManyStates

  ghost predicate Dead(sys: System, u: Valuation) {
    forall w :: !sys.admits(Some(u), w)
  }

  /** The identifier tells apart valuations of the same variables. */
  ghost predicate Identifies(idOf: Valuation -> Id) {
    forall v: Valuation, w: Valuation :: v.Keys == w.Keys && idOf(v) == idOf(w) ==> v == w
  }

  ghost predicate NamesOne(idOf: Valuation -> Id, found: seq<Valuation>, id: Id) {
    exists w :: w in found && id == idOf(w)
  }

  ghost predicate NamesSuccessor(idOf: Valuation -> Id, sys: System, from: Option<Valuation>, id: Id) {
    exists w :: sys.admits(from, w) && id == idOf(w)
  }

  /** An edge leads to a successor, or back to a state that has none. */
  ghost predicate Edge(idOf: Valuation -> Id, sys: System, u: Valuation, t: Id) {
    NamesSuccessor(idOf, sys, Some(u), t) || (Dead(sys, u) && t == idOf(u))
  }

  ghost predicate HasEdges(idOf: Valuation -> Id, sys: System, u: Valuation, targets: seq<Id>) {
    targets != [] && forall t :: t in targets <==> Edge(idOf, sys, u, t)
  }

  ghost predicate Named(idOf: Valuation -> Id, states: map<Id, Valuation>) {
    forall id :: id in states ==> idOf(states[id]) == id
  }

  ghost predicate Holds(idOf: Valuation -> Id, states: map<Id, Valuation>, w: Valuation) {
    idOf(w) in states && states[idOf(w)] == w
  }

  /** What the finished structure says about the sys. */
  ghost predicate Represents(idOf: Valuation -> Id, sys: System, k: Structure) {
    && Total(k)
    && Named(idOf, k.states)
    && |k.states| <= STATE_LIMIT
    && (forall w :: Reachable(sys, w) <==> Holds(idOf, k.states, w))
    && (forall id :: id in k.initial <==> NamesSuccessor(idOf, sys, None, id))
    && (forall id :: id in k.states ==> HasEdges(idOf, sys, k.states[id], k.transitions[id]))
  }

  ghost predicate EvaluationFails(sys: System) {
    sys.throws(None) || exists u :: Reachable(sys, u) && sys.throws(Some(u))
  }

  ghost predicate NoRepeats(queue: seq<Valuation>) {
    forall i, j :: 0 <= i < j < |queue| ==> queue[i] != queue[j]
  }

  /** `states` is `states0` plus the new ones among `found`, which are exactly what the queue gained. */
  ghost predicate Absorbed(idOf: Valuation -> Id, states0: map<Id, Valuation>, queue0: seq<Valuation>, found: seq<Valuation>,
                           states: map<Id, Valuation>, queue: seq<Valuation>)
  {
    && Named(idOf, states)
    && (forall id :: id in states0 ==> id in states && states[id] == states0[id])
    && (forall id :: id in states && id !in states0 ==> states[id] in found && states[id] in queue)
    && (forall v :: v in queue0 ==> v in queue)
    && (forall v :: v in queue ==> Holds(idOf, states, v))
    && (forall v :: v in queue && v !in queue0 ==> idOf(v) !in states0)
    && NoRepeats(queue)
  }

  /** Records valuations not seen before and queues them; lists the identifiers without repetition. */
  method Absorb(idOf: Valuation -> Id, states0: map<Id, Valuation>, queue0: seq<Valuation>, found: seq<Valuation>)
    returns (states: map<Id, Valuation>, queue: seq<Valuation>, ids: seq<Id>)
    requires Named(idOf, states0) && NoRepeats(queue0) && forall v :: v in queue0 ==> Holds(idOf, states0, v)
    ensures Absorbed(idOf, states0, queue0, found, states, queue)
    ensures forall w :: w in found ==> idOf(w) in states
    ensures forall id :: id in ids <==> NamesOne(idOf, found, id)
    ensures queue == [] ==> states == states0
  {
    states, queue, ids := states0, queue0, [];
    var i := 0;
    while i < |found|
      invariant i <= |found|
      invariant Absorbed(idOf, states0, queue0, found, states, queue)
      invariant forall w :: w in found[..i] ==> idOf(w) in states
      invariant forall id :: id in ids <==> NamesOne(idOf, found[..i], id)
      invariant queue == [] ==> states == states0
    {
      var w := found[i];
      var id := idOf(w);
      assert found[..i + 1] == found[..i] + [w];
      if id !in states {
        assert w !in queue;
        states, queue := states[id := w], queue + [w];
      }
      forall t
        ensures NamesOne(idOf, found[..i + 1], t) <==> NamesOne(idOf, found[..i], t) || t == id
      {
        if NamesOne(idOf, found[..i], t) {
          var x :| x in found[..i] && t == idOf(x);
          assert x in found[..i + 1];
        }
        assert w in found[..i + 1];
      }
      if id !in ids {
        ids := ids + [id];
      }
      i := i + 1;
    }
    assert found[..i] == found;
  }

  ghost predicate Found(idOf: Valuation -> Id, sys: System, states: map<Id, Valuation>) {
    && Named(idOf, states)
    && (forall id :: id in states ==> Reachable(sys, states[id]))
    && (forall w :: sys.admits(None, w) ==> idOf(w) in states)
  }

  ghost predicate Waiting(idOf: Valuation -> Id, states: map<Id, Valuation>, expanded: set<Id>, queue: seq<Valuation>) {
    && (forall id :: id in states ==> id in expanded || states[id] in queue)
    && (forall v :: v in queue ==> Holds(idOf, states, v) && idOf(v) !in expanded)
    && NoRepeats(queue)
  }

  ghost predicate Expanded(idOf: Valuation -> Id, sys: System, states: map<Id, Valuation>, transitions: map<Id, seq<Id>>) {
    && transitions.Keys <= states.Keys
    && (forall id :: id in transitions ==> HasEdges(idOf, sys, states[id], transitions[id]) && !sys.throws(Some(states[id])))
    && (forall id, t :: id in transitions && t in transitions[id] ==> t in states)
  }

  lemma SameIdSameState(idOf: Valuation -> Id, sys: System, v: Valuation, w: Valuation)
    requires Proper(sys) && Identifies(idOf) && Reachable(sys, v) && Reachable(sys, w) && idOf(v) == idOf(w)
    ensures v == w
  {
    ReachableAssigns(sys, v);
    ReachableAssigns(sys, w);
  }

  lemma StepReaches(sys: System, u: Valuation, w: Valuation)
    requires Reachable(sys, u) && sys.admits(Some(u), w)
    ensures Reachable(sys, w)
  {
    var n: nat :| ReachableIn(sys, n, u);
    assert ReachableIn(sys, n + 1, w);
  }

  lemma {:induction false} SearchCovers(idOf: Valuation -> Id,
      sys: System, states: map<Id, Valuation>, transitions: map<Id, seq<Id>>, n: nat, w: Valuation)
    requires Found(idOf, sys, states) && Expanded(idOf, sys, states, transitions) && transitions.Keys == states.Keys
    requires Proper(sys) && Identifies(idOf) && ReachableIn(sys, n, w)
    ensures Holds(idOf, states, w)
  {
    assert Reachable(sys, w);
    if n > 0 {
      var u :| ReachableIn(sys, n - 1, u) && sys.admits(Some(u), w);
      SearchCovers(idOf, sys, states, transitions, n - 1, u);
      assert NamesSuccessor(idOf, sys, Some(u), idOf(w));
      assert Edge(idOf, sys, u, idOf(w));
      assert HasEdges(idOf, sys, u, transitions[idOf(u)]);
      assert idOf(w) in transitions[idOf(u)];
    }
    SameIdSameState(idOf, sys, states[idOf(w)], w);
  }

  lemma ProperSubsetIsSmaller<T>(a: set<T>, b: set<T>)
    requires a < b
    ensures |a| < |b|
  {
    assert |b| == |a| + |b - a| by {
      assert a + (b - a) == b;
    }
  }

  lemma FoundGrows(idOf: Valuation -> Id, sys: System, states0: map<Id, Valuation>, u: Valuation, queue0: seq<Valuation>,
                   states: map<Id, Valuation>, queue: seq<Valuation>, found: seq<Valuation>)
    requires Found(idOf, sys, states0) && Holds(idOf, states0, u) && Absorbed(idOf, states0, queue0, found, states, queue)
    requires forall w :: w in found <==> sys.admits(Some(u), w)
    ensures Found(idOf, sys, states)
  {
    assert Reachable(sys, states0[idOf(u)]);
    forall id | id in states
      ensures Reachable(sys, states[id])
    {
      if id !in states0 {
        StepReaches(sys, u, states[id]);
      }
    }
  }

  lemma WaitingShifts(idOf: Valuation -> Id, states0: map<Id, Valuation>, expanded: set<Id>, u: Valuation, queue0: seq<Valuation>,
                      states: map<Id, Valuation>, queue: seq<Valuation>, found: seq<Valuation>)
    requires Waiting(idOf, states0, expanded, [u] + queue0) && expanded <= states0.Keys
    requires Absorbed(idOf, states0, queue0, found, states, queue)
    ensures Waiting(idOf, states, expanded + {idOf(u)}, queue)
  {
    var waiting := [u] + queue0;
    assert waiting[0] == u && waiting[1..] == queue0;
    assert u !in queue0 by {
      assert forall i :: 0 <= i < |queue0| ==> queue0[i] == waiting[i + 1];
    }
    forall id | id in states
      ensures id in expanded + {idOf(u)} || states[id] in queue
    {
      if id in states0 && id !in expanded {
        assert states0[id] in waiting;
      }
    }
    forall v | v in queue
      ensures idOf(v) !in expanded + {idOf(u)}
    {
      assert u in waiting;
      if v in queue0 {
        assert v in waiting;
      }
    }
  }

  lemma ExpandedGrows(idOf: Valuation -> Id, sys: System, states0: map<Id, Valuation>, transitions: map<Id, seq<Id>>, u: Valuation,
                      states: map<Id, Valuation>, found: seq<Valuation>, targets: seq<Id>)
    requires Expanded(idOf, sys, states0, transitions) && Holds(idOf, states0, u) && !sys.throws(Some(u))
    requires forall id :: id in states0 ==> id in states && states[id] == states0[id]
    requires forall w :: w in found <==> sys.admits(Some(u), w)
    requires forall w :: w in found ==> idOf(w) in states
    requires targets != []
    requires forall t :: t in targets <==> NamesOne(idOf, found, t) || (found == [] && t == idOf(u))
    ensures Expanded(idOf, sys, states, transitions[idOf(u) := targets])
  {
    assert Dead(sys, u) <==> found == [] by {
      assert found != [] ==> sys.admits(Some(u), found[0]);
    }
    forall t
      ensures NamesOne(idOf, found, t) <==> NamesSuccessor(idOf, sys, Some(u), t)
    {
    }
    assert HasEdges(idOf, sys, u, targets);
  }

  ghost predicate Searching(
      idOf: Valuation -> Id, sys: System, states: map<Id, Valuation>, transitions: map<Id, seq<Id>>, queue: seq<Valuation>)
  {
    && Found(idOf, sys, states)
    && Waiting(idOf, states, transitions.Keys, queue)
    && Expanded(idOf, sys, states, transitions)
  }

  /** `sys` is the relation the spec's rules define. */
  ghost predicate Describes(sys: System, spec: Spec) {
    && Proper(sys)
    && (forall from, w :: sys.admits(from, w) <==> Admits(spec, from, w))
    && (forall from :: sys.throws(from) <==> Throws(spec, from))
  }

  method SuccessorsOf(spec: Spec, ghost sys: System, from: Option<Valuation>) returns (r: Result<seq<Valuation>, EvalError>)
    requires Describes(sys, spec)
    ensures r.Err? <==> sys.throws(from)
    ensures r.Ok? ==> forall w :: w in r.value <==> sys.admits(from, w)
  {
    r := Successors(spec, from);
  }

  /** Total-transition convention: a state without successors loops to itself. */
  method LoopIfDead(idOf: Valuation -> Id, ghost found: seq<Valuation>, ids: seq<Id>, u: Valuation) returns (targets: seq<Id>)
    requires forall id :: id in ids <==> NamesOne(idOf, found, id)
    ensures targets != []
    ensures forall t :: t in targets <==> NamesOne(idOf, found, t) || (found == [] && t == idOf(u))
  {
    assert found != [] ==> NamesOne(idOf, found, idOf(found[0]));
    assert ids != [] ==> ids[0] in ids;
    targets := if ids == [] then [idOf(u)] else ids;
  }

  /** Records the edges of the dequeued valuation `u` and queues what it newly leads to. */
  method Expand(
      idOf: Valuation -> Id, ghost sys: System, states0: map<Id, Valuation>, transitions0: map<Id, seq<Id>>,
      u: Valuation, queue0: seq<Valuation>, found: seq<Valuation>)
    returns (states: map<Id, Valuation>, transitions: map<Id, seq<Id>>, queue: seq<Valuation>)
    requires Searching(idOf, sys, states0, transitions0, [u] + queue0) && Holds(idOf, states0, u) && !sys.throws(Some(u))
    requires NoRepeats(queue0) && forall v :: v in queue0 ==> Holds(idOf, states0, v)
    requires idOf(u) !in transitions0
    requires forall w :: w in found <==> sys.admits(Some(u), w)
    ensures Searching(idOf, sys, states, transitions, queue)
    ensures |transitions| == |transitions0| + 1
    ensures queue == [] ==> states == states0
  {
    var ids;
    states, queue, ids := Absorb(idOf, states0, queue0, found);
    ids := LoopIfDead(idOf, found, ids, u);
    transitions := transitions0[idOf(u) := ids];
    SearchGrows(idOf, sys, states0, transitions0, u, queue0, states, queue, found, ids);
  }

  lemma HeadWaits(
      idOf: Valuation -> Id, sys: System, states: map<Id, Valuation>, transitions: map<Id, seq<Id>>, queue: seq<Valuation>)
    requires queue != [] && Searching(idOf, sys, states, transitions, queue)
    ensures queue == [queue[0]] + queue[1..] && Reachable(sys, queue[0])
    ensures Holds(idOf, states, queue[0]) && idOf(queue[0]) !in transitions
    ensures NoRepeats(queue[1..]) && forall v :: v in queue[1..] ==> Holds(idOf, states, v)
  {
    assert queue[0] in queue && forall v :: v in queue[1..] ==> v in queue;
    assert Reachable(sys, states[idOf(queue[0])]);
  }

  lemma SearchGrows(
      idOf: Valuation -> Id, sys: System, states0: map<Id, Valuation>, transitions: map<Id, seq<Id>>, u: Valuation,
      queue0: seq<Valuation>, states: map<Id, Valuation>, queue: seq<Valuation>, found: seq<Valuation>, targets: seq<Id>)
    requires Searching(idOf, sys, states0, transitions, [u] + queue0) && Holds(idOf, states0, u) && !sys.throws(Some(u))
    requires Absorbed(idOf, states0, queue0, found, states, queue)
    requires forall w :: w in found <==> sys.admits(Some(u), w)
    requires forall w :: w in found ==> idOf(w) in states
    requires targets != []
    requires forall t :: t in targets <==> NamesOne(idOf, found, t) || (found == [] && t == idOf(u))
    ensures Searching(idOf, sys, states, transitions[idOf(u) := targets], queue)
  {
    FoundGrows(idOf, sys, states0, u, queue0, states, queue, found);
    WaitingShifts(idOf, states0, transitions.Keys, u, queue0, states, queue, found);
    ExpandedGrows(idOf, sys, states0, transitions, u, states, found, targets);
    assert transitions[idOf(u) := targets].Keys == transitions.Keys + {idOf(u)};
  }

  /**
   * Breadth-first construction. It succeeds exactly when evaluation never fails on a reachable valuation
   * and there are at most STATE_LIMIT of them; the result then represents the sys.
   */
  method BuildKripke(idOf: Valuation -> Id, spec: Spec) returns (r: Result<Structure, BuildError>)
    requires Identifies(idOf)
    ensures var sys := SystemOf(spec);
            match r
            case Ok(k) => Represents(idOf, sys, k) && !EvaluationFails(sys)
            case Err(EvaluationFailed) => EvaluationFails(sys)
            case Err(TooManyStates) => TooMany(sys)
  {
    ghost var sys := SystemOf(spec);
    SystemOfIsProper(spec);
    assert Describes(sys, spec);
    r := Search(idOf, spec, sys);
  }

  method Search(idOf: Valuation -> Id, spec: Spec, ghost sys: System) returns (r: Result<Structure, BuildError>)
    requires Identifies(idOf) && Describes(sys, spec)
    ensures match r
            case Ok(k) => Represents(idOf, sys, k) && !EvaluationFails(sys)
            case Err(EvaluationFailed) => EvaluationFails(sys)
            case Err(TooManyStates) => TooMany(sys)
  {
    var starts := SuccessorsOf(spec, sys, None);
    if starts.Err? {
      return Err(EvaluationFailed);
    }
    var states, queue, initial := Absorb(idOf, map[], [], starts.value);
    StartsFound(idOf, sys, starts.value, states, queue, initial);
    var transitions: map<Id, seq<Id>> := map[];
    while queue != []
      invariant Searching(idOf, sys, states, transitions, queue)
      invariant queue == [] ==> |states| <= STATE_LIMIT
      decreases STATE_LIMIT - |transitions|
    {
      if |states| > STATE_LIMIT {
        ManyStates(idOf, sys, states);
        return Err(TooManyStates);
      }
      SomeUnexpanded(idOf, states, transitions, queue);
      HeadWaits(idOf, sys, states, transitions, queue);
      var successors := SuccessorsOf(spec, sys, Some(queue[0]));
      if successors.Err? {
        return Err(EvaluationFailed);
      }
      states, transitions, queue := Expand(idOf, sys, states, transitions, queue[0], queue[1..], successors.value);
    }
    r := Ok(Structure(states, initial, transitions));
    Finished(idOf, sys, r.value);
  }

  lemma SomeUnexpanded(
      idOf: Valuation -> Id, states: map<Id, Valuation>, transitions: map<Id, seq<Id>>, queue: seq<Valuation>)
    requires queue != [] && Waiting(idOf, states, transitions.Keys, queue) && transitions.Keys <= states.Keys
    ensures |transitions| < |states|
  {
    assert queue[0] in queue;
    assert idOf(queue[0]) in states.Keys;
    ProperSubsetIsSmaller(transitions.Keys, states.Keys);
  }

  lemma StartsFound(idOf: Valuation -> Id, sys: System, starts: seq<Valuation>, states: map<Id, Valuation>, queue: seq<Valuation>, initial: seq<Id>)
    requires forall w :: w in starts <==> sys.admits(None, w)
    requires Absorbed(idOf, map[], [], starts, states, queue) && forall w :: w in starts ==> idOf(w) in states
    requires forall id :: id in initial <==> NamesOne(idOf, starts, id)
    ensures Found(idOf, sys, states) && Waiting(idOf, states, {}, queue)
    ensures forall id :: id in initial <==> NamesSuccessor(idOf, sys, None, id)
  {
    forall w | sys.admits(None, w)
      ensures Reachable(sys, w)
    {
      assert ReachableIn(sys, 0, w);
    }
    forall id
      ensures NamesOne(idOf, starts, id) <==> NamesSuccessor(idOf, sys, None, id)
    {
    }
  }

  ghost predicate TooMany(sys: System) {
    exists many: set<Valuation> :: |many| > STATE_LIMIT && forall w :: w in many ==> Reachable(sys, w)
  }

  lemma ManyStates(idOf: Valuation -> Id, sys: System, states: map<Id, Valuation>)
    requires Named(idOf, states) && |states| > STATE_LIMIT && forall id :: id in states ==> Reachable(sys, states[id])
    ensures TooMany(sys)
  {
    NamedIsInjective(idOf, states, states.Keys);
    assert forall w :: w in states.Values ==> Reachable(sys, w);
    assert states.Values == set id | id in states.Keys :: states[id];
  }

  lemma {:induction false} NamedIsInjective(idOf: Valuation -> Id, states: map<Id, Valuation>, ids: set<Id>)
    requires Named(idOf, states) && ids <= states.Keys
    ensures |set id | id in ids :: states[id]| == |ids|
  {
    if ids != {} {
      var a :| a in ids;
      NamedIsInjective(idOf, states, ids - {a});
      var rest := set id | id in ids - {a} :: states[id];
      assert states[a] !in rest;
      assert (set id | id in ids :: states[id]) == rest + {states[a]};
    }
  }

  lemma EverythingFound(idOf: Valuation -> Id, sys: System, states: map<Id, Valuation>, transitions: map<Id, seq<Id>>)
    requires Proper(sys) && Identifies(idOf) && Found(idOf, sys, states) && Expanded(idOf, sys, states, transitions)
    requires transitions.Keys == states.Keys
    ensures forall w :: Reachable(sys, w) <==> Holds(idOf, states, w)
  {
    forall w | Reachable(sys, w)
      ensures Holds(idOf, states, w)
    {
      var n: nat :| ReachableIn(sys, n, w);
      SearchCovers(idOf, sys, states, transitions, n, w);
    }
  }

  lemma NothingThrows(idOf: Valuation -> Id, sys: System, states: map<Id, Valuation>, transitions: map<Id, seq<Id>>)
    requires Expanded(idOf, sys, states, transitions) && transitions.Keys == states.Keys
    requires !sys.throws(None) && forall w :: Reachable(sys, w) <==> Holds(idOf, states, w)
    ensures !EvaluationFails(sys)
  {
    forall u | Reachable(sys, u)
      ensures !sys.throws(Some(u))
    {
      assert idOf(u) in transitions;
    }
  }

  lemma Finished(idOf: Valuation -> Id, sys: System, k: Structure)
    requires Proper(sys) && Identifies(idOf)
    requires Found(idOf, sys, k.states) && Waiting(idOf, k.states, k.transitions.Keys, []) && Expanded(idOf, sys, k.states, k.transitions)
    requires |k.states| <= STATE_LIMIT && !sys.throws(None)
    requires forall id :: id in k.initial <==> NamesSuccessor(idOf, sys, None, id)
    ensures Represents(idOf, sys, k) && !EvaluationFails(sys)
  {
    assert k.transitions.Keys == k.states.Keys;
    EverythingFound(idOf, sys, k.states, k.transitions);
    NothingThrows(idOf, sys, k.states, k.transitions);
    assert Total(k) by {
      forall s | s in k.transitions
        ensures k.transitions[s] != []
      {
        assert HasEdges(idOf, sys, k.states[s], k.transitions[s]);
      }
    }
  }
}
