/** Transition structures, infinite paths, and the path semantics of CTL and LTL. */
module Kripke {
  import opened Prelude
  import opened Syntax
  import opened Expressions

  type Id = string

  datatype Structure = Structure(
    states: map<Id, Valuation>,
    initial: seq<Id>,
    transitions: map<Id, seq<Id>>)

  predicate Step(k: Structure, s: Id, t: Id) {
    s in k.transitions && t in k.transitions[s]
  }

  /** Every state has at least one successor and every edge stays inside the structure. */
  ghost predicate Total(k: Structure) {
    && k.transitions.Keys == k.states.Keys
    && (forall s :: s in k.transitions ==> k.transitions[s] != [])
    && (forall s, t :: Step(k, s, t) ==> t in k.states)
    && (forall s :: s in k.initial ==> s in k.states)
  }

  // ---- Infinite paths -------------------------------------------------------

  type Path = nat -> Id

  ghost predicate StepAt(k: Structure, p: Path, i: nat) {
    Step(k, p(i), p(i + 1))
  }

  ghost predicate From(k: Structure, p: Path, s: Id) {
    p(0) == s && s in k.states && forall i: nat :: StepAt(k, p, i)
  }

  ghost predicate Globally(p: Path, a: set<Id>) {
    forall i: nat :: p(i) in a
  }

  ghost predicate Finally(p: Path, a: set<Id>) {
    exists i: nat :: p(i) in a
  }

  ghost predicate UntilAt(p: Path, a: set<Id>, b: set<Id>, j: nat) {
    p(j) in b && forall i: nat :: i < j ==> p(i) in a
  }

  ghost predicate UntilOn(p: Path, a: set<Id>, b: set<Id>) {
    exists j: nat :: UntilAt(p, a, b, j)
  }

  // ---- CTL: the states satisfying a formula ---------------------------------

  ghost function ENext(k: Structure, a: set<Id>): set<Id> {
    set s | s in k.states && exists p: Path :: From(k, p, s) && p(1) in a
  }

  ghost function ANext(k: Structure, a: set<Id>): set<Id> {
    set s | s in k.states && forall p: Path :: From(k, p, s) ==> p(1) in a
  }

  ghost function EFinally(k: Structure, a: set<Id>): set<Id> {
    set s | s in k.states && exists p: Path :: From(k, p, s) && Finally(p, a)
  }

  ghost function AFinally(k: Structure, a: set<Id>): set<Id> {
    set s | s in k.states && forall p: Path :: From(k, p, s) ==> Finally(p, a)
  }

  ghost function EGlobally(k: Structure, a: set<Id>): set<Id> {
    set s | s in k.states && exists p: Path :: From(k, p, s) && Globally(p, a)
  }

  ghost function AGlobally(k: Structure, a: set<Id>): set<Id> {
    set s | s in k.states && forall p: Path :: From(k, p, s) ==> Globally(p, a)
  }

  ghost function EUntil(k: Structure, a: set<Id>, b: set<Id>): set<Id> {
    set s | s in k.states && exists p: Path :: From(k, p, s) && UntilOn(p, a, b)
  }

  ghost function AUntil(k: Structure, a: set<Id>, b: set<Id>): set<Id> {
    set s | s in k.states && forall p: Path :: From(k, p, s) ==> UntilOn(p, a, b)
  }

  ghost function AtomStates(k: Structure, literals: set<string>, e: Expr): set<Id> {
    set s | s in k.states && AtomTruth(e, k.states[s], literals) == Ok(true)
  }

  predicate Connects(c: Connective, x: bool, y: bool) {
    match c
    case Conj => x && y
    case Disj => x || y
    case Impl => x ==> y
    case Equiv => x <==> y
  }

  /** The states of `k` satisfying the CTL formula `f`: quantifiers range over infinite paths. */
  ghost function Sat(k: Structure, literals: set<string>, f: Temporal): set<Id> {
    match f
    case Atom(e) => AtomStates(k, literals, e)
    case Not(g) => k.states.Keys - Sat(k, literals, g)
    case Bin(c, l, r) =>
      set s | s in k.states && Connects(c, s in Sat(k, literals, l), s in Sat(k, literals, r))
    case Prefix(EX, g) => ENext(k, Sat(k, literals, g))
    case Prefix(AX, g) => ANext(k, Sat(k, literals, g))
    case Prefix(EF, g) => EFinally(k, Sat(k, literals, g))
    case Prefix(AF, g) => AFinally(k, Sat(k, literals, g))
    case Prefix(EG, g) => EGlobally(k, Sat(k, literals, g))
    case Prefix(AG, g) => AGlobally(k, Sat(k, literals, g))
    case Until(EU, l, r) => EUntil(k, Sat(k, literals, l), Sat(k, literals, r))
    case Until(AU, l, r) => AUntil(k, Sat(k, literals, l), Sat(k, literals, r))
    case _ => {}
  }

  /** No untranslated LTL operator occurs in `f`. */
  predicate IsCtl(f: Temporal) {
    match f
    case Atom(_) => true
    case Not(g) => IsCtl(g)
    case Bin(_, l, r) => IsCtl(l) && IsCtl(r)
    case Prefix(op, g) => op !in {G, F, X} && IsCtl(g)
    case Until(op, l, r) => op != U && IsCtl(l) && IsCtl(r)
  }

  predicate IsLtl(f: Temporal) {
    match f
    case Atom(_) => true
    case Not(g) => IsLtl(g)
    case Bin(_, l, r) => IsLtl(l) && IsLtl(r)
    case Prefix(op, g) => op in {G, F, X} && IsLtl(g)
    case Until(op, l, r) => op == U && IsLtl(l) && IsLtl(r)
  }

  predicate Propositional(f: Temporal) {
    match f
    case Atom(_) => true
    case Not(g) => Propositional(g)
    case Bin(_, l, r) => Propositional(l) && Propositional(r)
    case _ => false
  }

  /** Every atom of `f` evaluates to a truth value in every state. */
  ghost predicate Evaluable(k: Structure, literals: set<string>, f: Temporal) {
    match f
    case Atom(e) => forall s :: s in k.states ==> AtomTruth(e, k.states[s], literals).Ok?
    case Not(g) => Evaluable(k, literals, g)
    case Bin(_, l, r) => Evaluable(k, literals, l) && Evaluable(k, literals, r)
    case Prefix(_, g) => Evaluable(k, literals, g)
    case Until(_, l, r) => Evaluable(k, literals, l) && Evaluable(k, literals, r)
  }

  // ---- LTL: truth of a formula along one path from position i ----------------

  ghost predicate Models(k: Structure, literals: set<string>, f: Temporal, p: Path, i: nat) {
    match f
    case Atom(e) => p(i) in AtomStates(k, literals, e)
    case Not(g) => !Models(k, literals, g, p, i)
    case Bin(c, l, r) => Connects(c, Models(k, literals, l, p, i), Models(k, literals, r, p, i))
    case Prefix(G, g) => forall j: nat :: i <= j ==> Models(k, literals, g, p, j)
    case Prefix(F, g) => exists j: nat :: i <= j && Models(k, literals, g, p, j)
    case Prefix(X, g) => Models(k, literals, g, p, i + 1)
    case Until(U, l, r) =>
      exists j: nat :: i <= j && Models(k, literals, r, p, j) &&
                       forall n: nat :: i <= n < j ==> Models(k, literals, l, p, n)
    case _ => false
  }

  /** `s` satisfies the LTL formula: every infinite path from `s` does. */
  ghost predicate LtlHolds(k: Structure, literals: set<string>, f: Temporal, s: Id) {
    s in k.states && forall p: Path :: From(k, p, s) ==> Models(k, literals, f, p, 0)
  }

  // ---- Path surgery ----------------------------------------------------------

  /** The path that follows first-listed successors forever. */
  ghost function Onward(k: Structure, s: Id, i: nat): Id
    requires Total(k) && s in k.states
    ensures Onward(k, s, i) in k.states
    decreases i
  {
    if i == 0 then s
    else
      var t := Onward(k, s, i - 1);
      assert Step(k, t, k.transitions[t][0]);
      k.transitions[t][0]
  }

  lemma SomePath(k: Structure, s: Id) returns (p: Path)
    requires Total(k) && s in k.states
    ensures From(k, p, s)
  {
    p := (i: nat) => if Total(k) && s in k.states then Onward(k, s, i) else s;
    forall i: nat
      ensures StepAt(k, p, i)
    {
      assert Onward(k, s, i + 1) == k.transitions[Onward(k, s, i)][0];
    }
  }

  ghost function Suffix(p: Path, n: nat): Path {
    (i: nat) => p(n + i)
  }

  lemma PathStates(k: Structure, p: Path, s: Id, i: nat)
    requires Total(k) && From(k, p, s)
    ensures p(i) in k.states
  {
    if i > 0 {
      assert StepAt(k, p, i - 1);
    }
  }

  lemma SuffixIsPath(k: Structure, p: Path, s: Id, n: nat)
    requires Total(k) && From(k, p, s)
    ensures From(k, Suffix(p, n), p(n))
  {
    PathStates(k, p, s, n);
    forall i: nat
      ensures StepAt(k, Suffix(p, n), i)
    {
      assert StepAt(k, p, n + i);
    }
  }

  /** Follow `p` for `n` steps, then `q`. */
  ghost function Splice(p: Path, n: nat, q: Path): Path {
    (i: nat) => if i < n then p(i) else q(i - n)
  }

  lemma SpliceIsPath(k: Structure, p: Path, s: Id, n: nat, q: Path)
    requires Total(k) && From(k, p, s) && From(k, q, p(n))
    ensures From(k, Splice(p, n, q), s)
  {
    forall i: nat
      ensures StepAt(k, Splice(p, n, q), i)
    {
      if i < n {
        assert StepAt(k, p, i);
      } else {
        assert StepAt(k, q, i - n);
      }
    }
  }

  /** One edge followed by a path. */
  lemma Prepend(k: Structure, s: Id, t: Id, q: Path) returns (p: Path)
    requires Total(k) && Step(k, s, t) && From(k, q, t)
    ensures From(k, p, s) && p(1) == t && forall i: nat :: p(i + 1) == q(i)
  {
    p := (i: nat) => if i == 0 then s else q(i - 1);
    forall i: nat
      ensures StepAt(k, p, i)
    {
      if i > 0 {
        assert StepAt(k, q, i - 1);
      }
    }
  }

  // ---- Fixed-point characterisations -----------------------------------------

  lemma ENextIsSomeSuccessor(k: Structure, a: set<Id>, s: Id)
    requires Total(k) && s in k.states
    ensures s in ENext(k, a) <==> exists t :: t in k.transitions[s] && t in a
  {
    if s in ENext(k, a) {
      var p: Path :| From(k, p, s) && p(1) in a;
      assert StepAt(k, p, 0);
    }
    if t :| t in k.transitions[s] && t in a {
      assert Step(k, s, t);
      var q := SomePath(k, t);
      var p := Prepend(k, s, t, q);
    }
  }

  lemma ANextIsEverySuccessor(k: Structure, a: set<Id>, s: Id)
    requires Total(k) && s in k.states
    ensures s in ANext(k, a) <==> forall t :: t in k.transitions[s] ==> t in a
  {
    ENextIsSomeSuccessor(k, k.states.Keys - a, s);
    if s in ANext(k, a) {
      forall t | t in k.transitions[s]
        ensures t in a
      {
        assert Step(k, s, t);
        var q := SomePath(k, t);
        var p := Prepend(k, s, t, q);
      }
    }
    if forall t :: t in k.transitions[s] ==> t in a {
      forall p: Path | From(k, p, s)
        ensures p(1) in a
      {
        assert StepAt(k, p, 0);
      }
    }
  }

  /** `b` states are in, and an `a` state with an edge into the set is in. */
  lemma EUntilIsClosed(k: Structure, a: set<Id>, b: set<Id>)
    requires Total(k) && b <= k.states.Keys
    ensures b <= EUntil(k, a, b)
    ensures forall s, t :: s in a && Step(k, s, t) && t in EUntil(k, a, b) ==> s in EUntil(k, a, b)
  {
    forall s | s in b
      ensures s in EUntil(k, a, b)
    {
      var p := SomePath(k, s);
      assert UntilAt(p, a, b, 0);
    }
    forall s, t | s in a && Step(k, s, t) && t in EUntil(k, a, b)
      ensures s in EUntil(k, a, b)
    {
      var q: Path :| From(k, q, t) && UntilOn(q, a, b);
      var j: nat :| UntilAt(q, a, b, j);
      var p := Prepend(k, s, t, q);
      assert p(j + 1) == q(j);
      forall i: nat | i < j + 1
        ensures p(i) in a
      {
        if i > 0 {
          assert p((i - 1) + 1) == q(i - 1);
        }
      }
      assert UntilAt(p, a, b, j + 1);
    }
  }

  /** EU is the least set closed under the two rules above. */
  lemma EUntilIsLeast(k: Structure, a: set<Id>, b: set<Id>, x: set<Id>)
    requires Total(k) && b <= x
    requires forall s, t :: s in a && Step(k, s, t) && t in x ==> s in x
    ensures EUntil(k, a, b) <= x
  {
    forall s | s in EUntil(k, a, b)
      ensures s in x
    {
      var p: Path :| From(k, p, s) && UntilOn(p, a, b);
      var j: nat :| UntilAt(p, a, b, j);
      UntilWalksBack(k, a, x, p, j);
    }
  }

  lemma {:induction false} UntilWalksBack(k: Structure, a: set<Id>, x: set<Id>, p: Path, j: nat)
    requires forall s, t :: s in a && Step(k, s, t) && t in x ==> s in x
    requires (forall i: nat :: StepAt(k, p, i)) && (forall i: nat :: i < j ==> p(i) in a)
    requires p(j) in x
    ensures p(0) in x
  {
    if j > 0 {
      assert StepAt(k, p, j - 1);
      UntilWalksBack(k, a, x, p, j - 1);
    }
  }

  lemma EFinallyIsEUntil(k: Structure, b: set<Id>)
    requires Total(k)
    ensures EFinally(k, b) == EUntil(k, k.states.Keys, b)
  {
    forall s, p: Path | From(k, p, s)
      ensures Finally(p, b) <==> UntilOn(p, k.states.Keys, b)
    {
      if i: nat :| p(i) in b {
        forall n: nat | n < i
          ensures p(n) in k.states
        {
          PathStates(k, p, s, n);
        }
        assert UntilAt(p, k.states.Keys, b, i);
      }
      if j: nat :| UntilAt(p, k.states.Keys, b, j) {
        assert p(j) in b;
      }
    }
  }

  ghost predicate SuccessorIn(k: Structure, x: set<Id>, s: Id) {
    exists t :: Step(k, s, t) && t in x
  }

  ghost predicate Consistent(k: Structure, x: set<Id>) {
    forall s {:trigger SuccessorIn(k, x, s)} :: s in x ==> SuccessorIn(k, x, s)
  }

  /** EG is inside `a` and each of its states has a successor in it. */
  lemma EGloballyIsConsistent(k: Structure, a: set<Id>, s: Id)
    requires Total(k) && s in EGlobally(k, a)
    ensures s in a && SuccessorIn(k, EGlobally(k, a), s)
  {
    var p: Path :| From(k, p, s) && Globally(p, a);
    assert p(0) in a && StepAt(k, p, 0);
    SuffixIsPath(k, p, s, 1);
    var q := Suffix(p, 1);
    assert Globally(q, a) by {
      forall i: nat
        ensures q(i) in a
      {
        assert p(1 + i) in a;
      }
    }
    assert p(1) in k.states by { PathStates(k, p, s, 1); }
    assert p(1) in EGlobally(k, a);
  }

  ghost predicate Guided(k: Structure, next: map<Id, Id>) {
    forall s {:trigger next[s]} :: s in next ==> Step(k, s, next[s]) && next[s] in next
  }

  ghost function Follow(k: Structure, next: map<Id, Id>, s: Id, i: nat): Id
    requires Guided(k, next) && s in next
    ensures Follow(k, next, s, i) in next
  {
    if i == 0 then s else next[Follow(k, next, s, i - 1)]
  }

  lemma GuidedPath(k: Structure, next: map<Id, Id>, s: Id) returns (p: Path)
    requires Guided(k, next) && s in next && s in k.states
    ensures From(k, p, s) && Globally(p, next.Keys)
  {
    p := (i: nat) => if Guided(k, next) && s in next then Follow(k, next, s, i) else s;
    forall i: nat
      ensures StepAt(k, p, i)
    {
      assert Follow(k, next, s, i + 1) == next[Follow(k, next, s, i)];
    }
  }

  ghost function Pick(k: Structure, x: set<Id>, s: Id): Id
    requires SuccessorIn(k, x, s)
    ensures Step(k, s, Pick(k, x, s)) && Pick(k, x, s) in x
  {
    var t :| Step(k, s, t) && t in x;
    t
  }

  /** EG is the greatest consistent subset of `a`. */
  lemma EGloballyIsGreatest(k: Structure, a: set<Id>, x: set<Id>)
    requires Total(k) && x <= a && x <= k.states.Keys && Consistent(k, x)
    ensures x <= EGlobally(k, a)
  {
    assert forall s :: s in x ==> SuccessorIn(k, x, s);
    var next := map s | s in x :: Pick(k, x, s);
    forall s | s in x
      ensures s in EGlobally(k, a)
    {
      var p := GuidedPath(k, next, s);
      assert Globally(p, a) by {
        forall i: nat
          ensures p(i) in a
        {
          assert p(i) in next.Keys;
        }
      }
    }
  }

  // ---- Dualities --------------------------------------------------------------

  lemma AFinallyDual(k: Structure, a: set<Id>)
    requires Total(k) && a <= k.states.Keys
    ensures AFinally(k, a) == k.states.Keys - EGlobally(k, k.states.Keys - a)
  {
    forall s, p: Path | From(k, p, s)
      ensures Finally(p, a) <==> !Globally(p, k.states.Keys - a)
    {
      forall i: nat
        ensures p(i) in k.states
      {
        PathStates(k, p, s, i);
      }
    }
  }

  lemma AGloballyDual(k: Structure, a: set<Id>)
    requires Total(k) && a <= k.states.Keys
    ensures AGlobally(k, a) == k.states.Keys - EFinally(k, k.states.Keys - a)
  {
    forall s, p: Path | From(k, p, s)
      ensures Globally(p, a) <==> !Finally(p, k.states.Keys - a)
    {
      forall i: nat
        ensures p(i) in k.states
      {
        PathStates(k, p, s, i);
      }
    }
  }

  /** On one path, `a U b` fails exactly when `!b` holds forever or up to a state with neither. */
  lemma UntilFails(k: Structure, p: Path, s: Id, a: set<Id>, b: set<Id>)
    requires Total(k) && From(k, p, s)
    ensures var notB := k.states.Keys - b;
            !UntilOn(p, a, b) <==> Globally(p, notB) || UntilOn(p, notB, notB - a)
  {
    var notB := k.states.Keys - b;
    forall i: nat
      ensures p(i) in k.states
    {
      PathStates(k, p, s, i);
    }
    if UntilOn(p, a, b) {
      var j: nat :| UntilAt(p, a, b, j);
      assert p(j) !in notB;
      forall n: nat
        ensures !UntilAt(p, notB, notB - a, n)
      {
        assert p(j) in b;
      }
    } else if n: nat :| p(n) !in notB {
      var j := FirstIn(p, b, n);
      assert !UntilAt(p, a, b, j);
      var m: nat :| m < j && p(m) !in a;
      assert UntilAt(p, notB, notB - a, m);
    }
  }

  lemma {:induction false} FirstIn(p: Path, b: set<Id>, n: nat) returns (j: nat)
    requires p(n) in b
    ensures j <= n && p(j) in b && forall i: nat :: i < j ==> p(i) !in b
    decreases n
  {
    if m: nat :| m < n && p(m) in b {
      j := FirstIn(p, b, m);
    } else {
      j := n;
    }
  }

  lemma AUntilDual(k: Structure, a: set<Id>, b: set<Id>)
    requires Total(k) && a <= k.states.Keys && b <= k.states.Keys
    ensures var notB := k.states.Keys - b;
            AUntil(k, a, b) == k.states.Keys - EUntil(k, notB, notB - a) - EGlobally(k, notB)
  {
    forall s, p: Path | From(k, p, s)
      ensures var notB := k.states.Keys - b;
              !UntilOn(p, a, b) <==> Globally(p, notB) || UntilOn(p, notB, notB - a)
    {
      UntilFails(k, p, s, a, b);
    }
  }

  lemma {:induction false} SatInStates(k: Structure, literals: set<string>, f: Temporal)
    ensures Sat(k, literals, f) <= k.states.Keys
  {
  }
}
