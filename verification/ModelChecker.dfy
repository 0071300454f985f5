/** The explicit-state CTL checker: worklists, fixed points and duality, proved against path semantics. */
module ModelChecker {
  import opened Prelude
  import opened Syntax
  import opened Expressions
  import opened Kripke

  datatype CheckError = AtomFailed | UntranslatedLtl

  ghost predicate PredecessorMap(k: Structure, preds: map<Id, seq<Id>>) {
    && preds.Keys == k.states.Keys
    && forall s, t :: t in preds ==> (s in preds[t] <==> Step(k, s, t))
  }

  /** Inverts the edge lists. */
  method Predecessors(k: Structure) returns (preds: map<Id, seq<Id>>)
    requires Total(k)
    ensures PredecessorMap(k, preds)
  {
    preds := map s | s in k.states :: [];
    var todo := k.transitions.Keys;
    while todo != {}
      invariant todo <= k.transitions.Keys && preds.Keys == k.states.Keys
      invariant forall s, t :: t in preds ==> (s in preds[t] <==> Step(k, s, t) && s !in todo)
    {
      var from :| from in todo;
      var targets := k.transitions[from];
      var i := 0;
      while i < |targets|
        invariant i <= |targets| && preds.Keys == k.states.Keys
        invariant forall s, t :: t in preds ==>
          (s in preds[t] <==> (Step(k, s, t) && s !in todo) || (s == from && t in targets[..i]))
      {
        var to := targets[i];
        assert Step(k, from, to);
        assert targets[..i + 1] == targets[..i] + [to];
        if from !in preds[to] {
          preds := preds[to := preds[to] + [from]];
        }
        i := i + 1;
      }
      assert targets[..i] == targets;
      todo := todo - {from};
    }
  }

  // ---- Termination ------------------------------------------------------------

  /** Decreases from AF, AG and AU to the larger formulas the checker builds for them. */
  function Weight(f: Temporal): nat {
    match f
    case Atom(_) => 1
    case Not(g) => 1 + Weight(g)
    case Bin(_, l, r) => 1 + Weight(l) + Weight(r)
    case Prefix(op, g) => (if op == AF || op == AG then 3 else 1) + Weight(g)
    case Until(op, l, r) => if op == AU then 6 + Weight(l) + 2 * Weight(r) else 1 + Weight(l) + Weight(r)
  }

  // ---- The checker --------------------------------------------------------------

  ghost predicate Decidable(k: Structure, literals: set<string>, f: Temporal) {
    IsCtl(f) && Evaluable(k, literals, f)
  }

  method CheckAtom(k: Structure, literals: set<string>, e: Expr) returns (r: Result<set<Id>, CheckError>)
    ensures r.Ok? <==> Evaluable(k, literals, Atom(e))
    ensures r.Ok? ==> r.value == AtomStates(k, literals, e)
  {
    var out: set<Id> := {};
    var todo := k.states.Keys;
    while todo != {}
      invariant todo <= k.states.Keys
      invariant forall s :: s in k.states && s !in todo ==> AtomTruth(e, k.states[s], literals).Ok?
      invariant out == set s | s in AtomStates(k, literals, e) && s !in todo
    {
      var id :| id in todo;
      var truth := AtomTruth(e, k.states[id], literals);
      if truth.Err? {
        return Err(AtomFailed);
      }
      if truth.value {
        out := out + {id};
      }
      todo := todo - {id};
    }
    return Ok(out);
  }

  method CheckNext(k: Structure, inner: set<Id>, every: bool) returns (out: set<Id>)
    requires Total(k)
    ensures out == if every then ANext(k, inner) else ENext(k, inner)
  {
    forall s | s in k.states
      ensures s in ENext(k, inner) <==> exists t :: t in k.transitions[s] && t in inner
      ensures s in ANext(k, inner) <==> forall t :: t in k.transitions[s] ==> t in inner
    {
      ENextIsSomeSuccessor(k, inner, s);
      ANextIsEverySuccessor(k, inner, s);
    }
    if every {
      out := set s | s in k.states && |k.transitions[s]| > 0 && forall t | t in k.transitions[s] :: t in inner;
    } else {
      out := set s | s in k.states && exists t :: t in k.transitions[s] && t in inner;
    }
  }

  /** `x` holds every `within` predecessor of its members, except possibly those of queued states. */
  ghost predicate ClosedBut(k: Structure, within: set<Id>, x: set<Id>, queue: seq<Id>) {
    forall s, t :: s in within && Step(k, s, t) && t in x && t !in queue ==> s in x
  }

  /** Backward worklist for E[left U right]; EF is the case where `left` is every state. */
  method CheckEUntil(k: Structure, preds: map<Id, seq<Id>>, left: set<Id>, right: set<Id>) returns (out: set<Id>)
    requires Total(k) && PredecessorMap(k, preds) && left <= k.states.Keys && right <= k.states.Keys
    ensures out == EUntil(k, left, right)
  {
    EUntilIsClosed(k, left, right);
    out := right;
    var queue := Listing(right);
    while queue != []
      invariant right <= out <= EUntil(k, left, right)
      invariant forall s :: s in queue ==> s in out
      invariant ClosedBut(k, left, out, queue)
      decreases k.states.Keys - out, |queue|
    {
      var s := queue[0];
      assert s in EUntil(k, left, right) && s in k.states && ([s] + queue[1..] == queue);
      queue := queue[1..];
      out, queue := PullPredecessors(k, preds, left, EUntil(k, left, right), s, out, queue);
    }
    EUntilIsLeast(k, left, right, out);
  }

  /** One turn of the worklist: adds the unvisited `left` predecessors of `s`, all within `bound`, to `out` and the queue. */
  method PullPredecessors(k: Structure, preds: map<Id, seq<Id>>, left: set<Id>, ghost bound: set<Id>, s: Id,
                          before: set<Id>, pending: seq<Id>)
    returns (out: set<Id>, queue: seq<Id>)
    requires PredecessorMap(k, preds) && s in preds
    requires s in before && before <= bound && forall t :: t in pending ==> t in before
    requires forall p :: p in left && Step(k, p, s) ==> p in bound
    requires ClosedBut(k, left, before, [s] + pending)
    ensures before <= out <= bound
    ensures forall t :: t in queue ==> t in out
    ensures ClosedBut(k, left, out, queue)
    ensures out == before ==> queue == pending
  {
    out, queue := before, pending;
    var sources := preds[s];
    var i := 0;
    while i < |sources|
      invariant i <= |sources|
      invariant before <= out <= bound
      invariant forall t :: t in queue ==> t in out
      invariant forall t :: t in pending ==> t in queue
      invariant forall t :: t in out && t !in before ==> t in queue
      invariant forall t :: t in sources[..i] && t in left ==> t in out
      invariant out == before ==> queue == pending
    {
      var p := sources[i];
      assert sources[..i + 1] == sources[..i] + [p];
      assert Step(k, p, s);
      if p !in out && p in left {
        out := out + {p};
        queue := queue + [p];
      }
      i := i + 1;
    }
    assert sources[..i] == sources;
  }

  /** The members of a set in some order. */
  method Listing(x: set<Id>) returns (xs: seq<Id>)
    ensures forall s :: s in xs <==> s in x
  {
    xs := [];
    var todo := x;
    while todo != {}
      invariant todo <= x && forall s :: s in xs <==> s in x && s !in todo
    {
      var s :| s in todo;
      xs := xs + [s];
      todo := todo - {s};
    }
  }

  /** Shrinks `phi` to its largest subset in which every state keeps a successor. */
  method CheckEGlobally(k: Structure, phi: set<Id>) returns (current: set<Id>)
    requires Total(k) && phi <= k.states.Keys
    ensures current == EGlobally(k, phi)
  {
    current := phi;
    var reachedFixedPoint := false;
    forall s | s in EGlobally(k, phi)
      ensures s in phi && SuccessorIn(k, EGlobally(k, phi), s)
    {
      EGloballyIsConsistent(k, phi, s);
    }
    while !reachedFixedPoint
      invariant EGlobally(k, phi) <= current <= phi
      invariant reachedFixedPoint ==> Consistent(k, current)
      decreases !reachedFixedPoint, current
    {
      var next := set s | s in current && exists t :: t in k.transitions[s] && t in current;
      forall s | s in EGlobally(k, phi)
        ensures s in next
      {
        var t :| Step(k, s, t) && t in EGlobally(k, phi);
      }
      if next == current {
        reachedFixedPoint := true;
        forall s | s in current
          ensures SuccessorIn(k, current, s)
        {
          assert s in next;
          var t :| t in k.transitions[s] && t in current;
          assert Step(k, s, t);
        }
      }
      current := next;
    }
    EGloballyIsGreatest(k, phi, current);
  }

  /**
   * The states satisfying `f`: exactly those of the infinite-path semantics. It fails exactly when `f`
   * holds an LTL operator or an atom without a truth value in some state.
   */
  method CheckCtl(k: Structure, preds: map<Id, seq<Id>>, literals: set<string>, f: Temporal)
    returns (r: Result<set<Id>, CheckError>)
    requires Total(k) && PredecessorMap(k, preds)
    ensures r.Ok? <==> Decidable(k, literals, f)
    ensures r.Ok? ==> r.value == Sat(k, literals, f)
    decreases Weight(f), 1
  {
    var all := k.states.Keys;
    match f
    case Atom(e) =>
      r := CheckAtom(k, literals, e);
    case Not(g) =>
      var inner :- CheckCtl(k, preds, literals, g);
      r := Ok(set s | s in all && s !in inner);
    case Bin(c, l, rt) =>
      r := CheckBin(k, preds, literals, c, l, rt);
    case Prefix(op, g) =>
      r := CheckPrefix(k, preds, literals, op, g);
    case Until(op, l, rt) =>
      SatInStates(k, literals, l);
      SatInStates(k, literals, rt);
      match op {
        case EU =>
          var a :- CheckCtl(k, preds, literals, l);
          var b :- CheckCtl(k, preds, literals, rt);
          var out := CheckEUntil(k, preds, a, b);
          r := Ok(out);
        case AU =>
          r := CheckAUntil(k, preds, literals, l, rt);
        case U =>
          r := Err(UntranslatedLtl);
      }
  }

  method CheckBin(k: Structure, preds: map<Id, seq<Id>>, literals: set<string>, c: Connective, l: Temporal, rt: Temporal)
    returns (r: Result<set<Id>, CheckError>)
    requires Total(k) && PredecessorMap(k, preds)
    ensures r.Ok? <==> Decidable(k, literals, Bin(c, l, rt))
    ensures r.Ok? ==> r.value == Sat(k, literals, Bin(c, l, rt))
    decreases Weight(Bin(c, l, rt)), 0
  {
    var all := k.states.Keys;
    var a :- CheckCtl(k, preds, literals, l);
    var b :- CheckCtl(k, preds, literals, rt);
    SatInStates(k, literals, l);
    SatInStates(k, literals, rt);
    match c {
      case Conj => r := Ok(set s | s in a && s in b);
      case Disj => r := Ok(a + b);
      case Impl => r := Ok(set s | s in all && (s !in a || s in b));
      case Equiv => r := Ok(set s | s in all && (s in a) == (s in b));
    }
  }

  /** `AF g` and `AG g` are what `EG !g` and `EF !g` leave out, and need the same atoms. */
  lemma AllByDual(k: Structure, literals: set<string>, g: Temporal)
    requires Total(k)
    ensures Sat(k, literals, Prefix(AF, g)) == k.states.Keys - Sat(k, literals, Prefix(EG, Not(g)))
    ensures Sat(k, literals, Prefix(AG, g)) == k.states.Keys - Sat(k, literals, Prefix(EF, Not(g)))
    ensures Decidable(k, literals, Prefix(AF, g)) <==> Decidable(k, literals, Prefix(EG, Not(g)))
    ensures Decidable(k, literals, Prefix(AG, g)) <==> Decidable(k, literals, Prefix(EF, Not(g)))
    ensures Weight(Prefix(EG, Not(g))) < Weight(Prefix(AF, g)) && Weight(Prefix(EF, Not(g))) < Weight(Prefix(AG, g))
  {
    SatInStates(k, literals, g);
    AFinallyDual(k, Sat(k, literals, g));
    AGloballyDual(k, Sat(k, literals, g));
    assert Weight(Not(g)) == 1 + Weight(g) && (Decidable(k, literals, Not(g)) <==> Decidable(k, literals, g));
    assert Sat(k, literals, Not(g)) == k.states.Keys - Sat(k, literals, g);
  }

  method CheckPrefix(k: Structure, preds: map<Id, seq<Id>>, literals: set<string>, op: PrefixOp, g: Temporal)
    returns (r: Result<set<Id>, CheckError>)
    requires Total(k) && PredecessorMap(k, preds)
    ensures r.Ok? <==> Decidable(k, literals, Prefix(op, g))
    ensures r.Ok? ==> r.value == Sat(k, literals, Prefix(op, g))
    decreases Weight(Prefix(op, g)), 0
  {
    var all := k.states.Keys;
    SatInStates(k, literals, g);
    match op {
      case EX =>
        var inner :- CheckCtl(k, preds, literals, g);
        var out := CheckNext(k, inner, false);
        r := Ok(out);
      case AX =>
        var inner :- CheckCtl(k, preds, literals, g);
        var out := CheckNext(k, inner, true);
        r := Ok(out);
      case EF =>
        var target :- CheckCtl(k, preds, literals, g);
        EFinallyIsEUntil(k, target);
        var out := CheckEUntil(k, preds, all, target);
        r := Ok(out);
      case AF =>
        AllByDual(k, literals, g);
        var notG := Not(g);
        var egNeg :- CheckCtl(k, preds, literals, Prefix(EG, notG));
        r := Ok(set s | s in all && s !in egNeg);
      case EG =>
        var phi :- CheckCtl(k, preds, literals, g);
        var out := CheckEGlobally(k, phi);
        r := Ok(out);
      case AG =>
        AllByDual(k, literals, g);
        var notG := Not(g);
        var efNeg :- CheckCtl(k, preds, literals, Prefix(EF, notG));
        r := Ok(set s | s in all && s !in efNeg);
      case _ =>
        r := Err(UntranslatedLtl);
    }
  }

  /** `A[p U q]` is what neither `E[!q U !p & !q]` nor `EG !q` satisfies, and needs the same atoms. */
  lemma AUntilByDual(k: Structure, literals: set<string>, p: Temporal, q: Temporal)
    requires Total(k)
    ensures var notQ := Not(q); var both := Bin(Conj, Not(p), notQ);
            Sat(k, literals, Until(AU, p, q)) ==
            k.states.Keys - Sat(k, literals, Until(EU, notQ, both)) - Sat(k, literals, Prefix(EG, notQ))
    ensures Decidable(k, literals, Until(EU, Not(q), Bin(Conj, Not(p), Not(q)))) <==> Decidable(k, literals, Until(AU, p, q))
    ensures Decidable(k, literals, Until(AU, p, q)) ==> Decidable(k, literals, Prefix(EG, Not(q)))
  {
    SatInStates(k, literals, p);
    SatInStates(k, literals, q);
    AUntilDual(k, Sat(k, literals, p), Sat(k, literals, q));
    assert Sat(k, literals, Bin(Conj, Not(p), Not(q))) == k.states.Keys - Sat(k, literals, q) - Sat(k, literals, p);
    assert Decidable(k, literals, Not(p)) <==> Decidable(k, literals, p);
    assert Decidable(k, literals, Not(q)) <==> Decidable(k, literals, q);
    assert Decidable(k, literals, Bin(Conj, Not(p), Not(q))) <==> Decidable(k, literals, p) && Decidable(k, literals, q);
  }

  lemma AUntilWeights(p: Temporal, q: Temporal)
    ensures Weight(Until(EU, Not(q), Bin(Conj, Not(p), Not(q)))) < Weight(Until(AU, p, q))
    ensures Weight(Prefix(EG, Not(q))) < Weight(Until(AU, p, q))
  {
    assert Weight(Bin(Conj, Not(p), Not(q))) == 1 + Weight(Not(p)) + Weight(Not(q));
    assert Weight(Not(p)) == 1 + Weight(p) && Weight(Not(q)) == 1 + Weight(q);
  }

  method CheckAUntil(k: Structure, preds: map<Id, seq<Id>>, literals: set<string>, p: Temporal, q: Temporal)
    returns (r: Result<set<Id>, CheckError>)
    requires Total(k) && PredecessorMap(k, preds)
    ensures r.Ok? <==> Decidable(k, literals, Until(AU, p, q))
    ensures r.Ok? ==> r.value == Sat(k, literals, Until(AU, p, q))
    decreases Weight(Until(AU, p, q)), 0
  {
    AUntilByDual(k, literals, p, q);
    AUntilWeights(p, q);
    var notQ := Not(q);
    var notP := Not(p);
    var notPAndNotQ := Bin(Conj, notP, notQ);
    var euNeg :- CheckCtl(k, preds, literals, Until(EU, notQ, notPAndNotQ));
    var egNotQ := CheckCtl(k, preds, literals, Prefix(EG, notQ));
    r := Ok(set s | s in k.states && s !in euNeg && s !in egNotQ.value);
  }
}
