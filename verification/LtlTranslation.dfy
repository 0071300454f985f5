/** The LTL-to-CTL translation: where its verdicts are sound, where they are exact, where they are neither. */
module LtlTranslation {
  import opened Prelude
  import opened Syntax
  import opened Expressions
  import opened Kripke

  /** Puts a universal path quantifier in front of every LTL operator. */
  function Translate(f: Temporal): Temporal {
    match f
    case Atom(_) => f
    case Not(g) => Not(Translate(g))
    case Bin(c, l, r) => Bin(c, Translate(l), Translate(r))
    case Prefix(op, g) =>
      Prefix(match op case G => AG case F => AF case X => AX case _ => op, Translate(g))
    case Until(op, l, r) => Until(if op == U then AU else op, Translate(l), Translate(r))
  }

  /** Negation, left sides of `->` and both sides of `<->` are propositional. */
  predicate Sound(f: Temporal) {
    match f
    case Atom(_) => true
    case Not(g) => Propositional(g)
    case Bin(Impl, l, r) => Propositional(l) && Sound(r)
    case Bin(Equiv, l, r) => Propositional(l) && Propositional(r)
    case Bin(_, l, r) => Sound(l) && Sound(r)
    case Prefix(op, g) => op in {G, F, X} && Sound(g)
    case Until(op, l, r) => op == U && Sound(l) && Sound(r)
  }

  /**
   * Additionally one side of `|`, the operand of F and the right side of U are propositional, or a propositional
   * guard tells the two sides of `|` or `U` apart: `(p & f) | (!p & g)` and `(p & f) U (!p & g)`.
   */
  predicate Exact(f: Temporal)
    decreases f, 1
  {
    || Propositional(f)
    || Guarded(f)
    || match f
       case Bin(Conj, l, r) => Exact(l) && Exact(r)
       case Bin(Disj, l, r) => (Propositional(l) && Exact(r)) || (Exact(l) && Propositional(r))
       case Bin(Impl, l, r) => Propositional(l) && Exact(r)
       case Prefix(X, g) => Exact(g)
       case Prefix(G, g) => Exact(g)
       case Prefix(F, g) => Propositional(g)
       case Until(U, l, r) => Exact(l) && Propositional(r)
       case _ => false
  }

  predicate Guarded(f: Temporal)
    decreases f, 0
  {
    match f
    case Bin(Disj, Bin(Conj, p, g), Bin(Conj, Not(q), h)) => p == q && Propositional(p) && Exact(g) && Exact(h)
    case Until(U, Bin(Conj, p, g), Bin(Conj, Not(q), h)) => p == q && Propositional(p) && Exact(g) && Exact(h)
    case _ => false
  }

  lemma {:induction false} TranslationIsCtl(f: Temporal)
    ensures IsCtl(Translate(f))
  {
    match f
    case Atom(_) =>
    case Not(g) => TranslationIsCtl(g);
    case Bin(_, l, r) => TranslationIsCtl(l); TranslationIsCtl(r);
    case Prefix(_, g) => TranslationIsCtl(g);
    case Until(_, l, r) => TranslationIsCtl(l); TranslationIsCtl(r);
  }

  lemma {:induction false} PropositionalIsSound(f: Temporal)
    requires Propositional(f)
    ensures Sound(f)
  {
    match f
    case Atom(_) =>
    case Not(_) =>
    case Bin(_, l, r) => PropositionalIsSound(l); PropositionalIsSound(r);
  }

  lemma {:induction false} ExactIsSound(f: Temporal)
    requires Exact(f)
    ensures Sound(f)
    decreases f, 1
  {
    if Propositional(f) {
      PropositionalIsSound(f);
    } else if Guarded(f) {
      GuardedIsSound(f);
    } else {
      match f
      case Bin(Conj, l, r) => ExactIsSound(l); ExactIsSound(r);
      case Bin(Disj, l, r) =>
        if Propositional(l) { PropositionalIsSound(l); ExactIsSound(r); }
        else { PropositionalIsSound(r); ExactIsSound(l); }
      case Bin(Impl, _, r) => ExactIsSound(r);
      case Prefix(op, g) => if op == F { PropositionalIsSound(g); } else { ExactIsSound(g); }
      case Until(_, l, r) => ExactIsSound(l); PropositionalIsSound(r);
    }
  }

  lemma {:induction false} GuardedIsSound(f: Temporal)
    requires Guarded(f)
    ensures Sound(f)
    decreases f, 0
  {
    var l, r := f.left, f.right;
    PropositionalIsSound(l.left);
    ExactIsSound(l.right);
    ExactIsSound(r.right);
    assert Sound(l) && Sound(r);
  }

  /** A propositional formula is about the current state only. */
  lemma {:induction false} PropositionalIsLocal(k: Structure, literals: set<string>, f: Temporal, p: Path, i: nat)
    requires Propositional(f) && p(i) in k.states
    ensures Models(k, literals, f, p, i) <==> p(i) in Sat(k, literals, Translate(f))
  {
    match f
    case Atom(_) =>
    case Not(g) => PropositionalIsLocal(k, literals, g, p, i);
    case Bin(_, l, r) => PropositionalIsLocal(k, literals, l, p, i); PropositionalIsLocal(k, literals, r, p, i);
  }

  /** What a translated formula promises at a state holds on every path through that state. */
  lemma {:induction false} SoundOnPath(
      k: Structure, literals: set<string>, f: Temporal, p: Path, s: Id, i: nat)
    requires Total(k) && From(k, p, s) && Sound(f)
    requires p(i) in Sat(k, literals, Translate(f))
    ensures Models(k, literals, f, p, i)
    decreases f
  {
    SatInStates(k, literals, Translate(f));
    var q := Suffix(p, i);
    SuffixIsPath(k, p, s, i);
    match f
    case Atom(_) =>
    case Not(g) => PropositionalIsLocal(k, literals, g, p, i);
    case Bin(Conj, l, r) =>
      SoundOnPath(k, literals, l, p, s, i);
      SoundOnPath(k, literals, r, p, s, i);
    case Bin(Disj, l, r) =>
      if p(i) in Sat(k, literals, Translate(l)) {
        SoundOnPath(k, literals, l, p, s, i);
      } else {
        SoundOnPath(k, literals, r, p, s, i);
      }
    case Bin(Impl, l, r) =>
      PropositionalIsLocal(k, literals, l, p, i);
      if p(i) in Sat(k, literals, Translate(l)) {
        SoundOnPath(k, literals, r, p, s, i);
      }
    case Bin(Equiv, l, r) =>
      PropositionalIsLocal(k, literals, l, p, i);
      PropositionalIsLocal(k, literals, r, p, i);
    case Prefix(G, g) =>
      forall j: nat | i <= j
        ensures Models(k, literals, g, p, j)
      {
        assert q(j - i) in Sat(k, literals, Translate(g));
        SoundOnPath(k, literals, g, p, s, j);
      }
    case Prefix(F, g) =>
      var n: nat :| q(n) in Sat(k, literals, Translate(g));
      SoundOnPath(k, literals, g, p, s, i + n);
    case Prefix(X, g) =>
      assert q(1) in Sat(k, literals, Translate(g));
      SoundOnPath(k, literals, g, p, s, i + 1);
    case Until(U, l, r) =>
      var n: nat :| UntilAt(q, Sat(k, literals, Translate(l)), Sat(k, literals, Translate(r)), n);
      SoundOnPath(k, literals, r, p, s, i + n);
      forall m: nat | i <= m < i + n
        ensures Models(k, literals, l, p, m)
      {
        assert q(m - i) in Sat(k, literals, Translate(l));
        SoundOnPath(k, literals, l, p, s, m);
      }
  }

  ghost predicate Aligned(p: Path, i: nat, q: Path, j: nat) {
    forall m: nat, n: nat :: i <= m && j <= n && m - i == n - j ==> p(m) == q(n)
  }

  ghost predicate Mirrored(k: Structure, literals: set<string>, f: Temporal, p: Path, i: nat, q: Path, j: nat) {
    forall m: nat, n: nat :: i <= m && j <= n && m - i == n - j ==>
      (Models(k, literals, f, p, m) <==> Models(k, literals, f, q, n))
  }

  /** Truth at a position depends only on the states from there on. */
  lemma {:induction false} SameTail(
      k: Structure, literals: set<string>, f: Temporal, p: Path, i: nat, q: Path, j: nat)
    requires Aligned(p, i, q, j)
    ensures Mirrored(k, literals, f, p, i, q, j) && Mirrored(k, literals, f, q, j, p, i)
  {
    match f
    case Atom(_) =>
    case Not(g) => SameTail(k, literals, g, p, i, q, j);
    case Bin(_, l, r) => SameTail(k, literals, l, p, i, q, j); SameTail(k, literals, r, p, i, q, j);
    case Prefix(op, g) =>
      SameTail(k, literals, g, p, i, q, j);
      MirrorPrefix(k, literals, op, g, p, i, q, j);
      MirrorPrefix(k, literals, op, g, q, j, p, i);
    case Until(op, l, r) =>
      SameTail(k, literals, l, p, i, q, j);
      SameTail(k, literals, r, p, i, q, j);
      MirrorUntil(k, literals, l, r, p, i, q, j);
      MirrorUntil(k, literals, l, r, q, j, p, i);
  }

  lemma MirrorPrefix(k: Structure, literals: set<string>, op: PrefixOp, g: Temporal, p: Path, i: nat, q: Path, j: nat)
    requires Mirrored(k, literals, g, p, i, q, j) && Mirrored(k, literals, g, q, j, p, i)
    ensures forall m: nat, n: nat :: i <= m && j <= n && m - i == n - j ==>
      (Models(k, literals, Prefix(op, g), p, m) ==> Models(k, literals, Prefix(op, g), q, n))
  {
    forall m: nat, n: nat | i <= m && j <= n && m - i == n - j && Models(k, literals, Prefix(op, g), p, m)
      ensures Models(k, literals, Prefix(op, g), q, n)
    {
      if op == G {
        forall y: nat | n <= y
          ensures Models(k, literals, g, q, y)
        {
          assert Models(k, literals, g, p, i + (y - j));
        }
      } else if op == F {
        assert Models(k, literals, Prefix(F, g), p, m);
        var x: nat :| m <= x && Models(k, literals, g, p, x);
        assert Models(k, literals, g, q, j + (x - i));
      } else if op == X {
        assert Models(k, literals, Prefix(X, g), p, m);
        assert Models(k, literals, g, q, n + 1);
      }
    }
  }

  lemma MirrorUntil(
      k: Structure, literals: set<string>, l: Temporal, r: Temporal, p: Path, i: nat, q: Path, j: nat)
    requires Mirrored(k, literals, l, p, i, q, j) && Mirrored(k, literals, r, p, i, q, j)
    ensures forall m: nat, n: nat :: i <= m && j <= n && m - i == n - j ==>
      (Models(k, literals, Until(U, l, r), p, m) ==> Models(k, literals, Until(U, l, r), q, n))
  {
    forall m: nat, n: nat | i <= m && j <= n && m - i == n - j && Models(k, literals, Until(U, l, r), p, m)
      ensures Models(k, literals, Until(U, l, r), q, n)
    {
      assert Models(k, literals, Until(U, l, r), p, m);
      var x: nat :| m <= x && Models(k, literals, r, p, x) &&
                    forall z: nat :: m <= z < x ==> Models(k, literals, l, p, z);
      assert Models(k, literals, r, q, j + (x - i));
      forall z: nat | n <= z < j + (x - i)
        ensures Models(k, literals, l, q, z)
      {
        assert Models(k, literals, l, p, i + (z - j));
      }
    }
  }

  /** If every path from `s` satisfies `f` from position `n` on whenever it starts like `p`, then so does every path from p(n). */
  lemma HoldsAfter(k: Structure, literals: set<string>, g: Temporal, p: Path, s: Id, n: nat)
    requires Total(k) && From(k, p, s)
    requires forall q: Path :: From(k, q, p(n)) ==> Models(k, literals, g, Splice(p, n, q), n)
    ensures LtlHolds(k, literals, g, p(n))
  {
    PathStates(k, p, s, n);
    forall q: Path | From(k, q, p(n))
      ensures Models(k, literals, g, q, 0)
    {
      SameTail(k, literals, g, Splice(p, n, q), n, q, 0);
    }
  }

  lemma {:induction false} CompleteAt(k: Structure, literals: set<string>, f: Temporal, s: Id)
    requires Total(k) && Exact(f) && LtlHolds(k, literals, f, s)
    ensures s in Sat(k, literals, Translate(f))
    decreases f, 2
  {
    var p0 := SomePath(k, s);
    if Propositional(f) {
      PropositionalIsLocal(k, literals, f, p0, 0);
    } else if Guarded(f) {
      if f.Bin? {
        CompleteChoice(k, literals, f.left.left, f.left.right, f.right.right, s);
      } else {
        CompleteGuardedUntil(k, literals, f.left.left, f.left.right, f.right.right, s);
      }
    } else {
      match f
      case Bin(Conj, l, r) =>
        CompleteAt(k, literals, l, s);
        CompleteAt(k, literals, r, s);
      case Bin(Disj, l, r) =>
        var (a, b) := if Propositional(l) && Exact(r) then (l, r) else (r, l);
        CompleteGuarded(k, literals, a, s);
        if s !in Sat(k, literals, Translate(a)) {
          CompleteAt(k, literals, b, s);
        }
      case Bin(Impl, l, r) =>
        CompleteGuarded(k, literals, l, s);
        if s in Sat(k, literals, Translate(l)) {
          CompleteAt(k, literals, r, s);
        }
      case Prefix(X, g) => CompleteNext(k, literals, g, s);
      case Prefix(G, g) => CompleteGlobally(k, literals, g, s);
      case Prefix(F, g) => CompleteFinally(k, literals, g, s);
      case Until(_, l, r) => CompleteUntil(k, literals, l, r, s);
    }
  }

  /** A propositional guard has the same truth on every path from `s`. */
  lemma CompleteGuarded(k: Structure, literals: set<string>, a: Temporal, s: Id)
    requires Total(k) && Propositional(a) && s in k.states
    ensures forall p: Path :: From(k, p, s) ==>
      (Models(k, literals, a, p, 0) <==> s in Sat(k, literals, Translate(a)))
  {
    forall p: Path | From(k, p, s)
      ensures Models(k, literals, a, p, 0) <==> s in Sat(k, literals, Translate(a))
    {
      PropositionalIsLocal(k, literals, a, p, 0);
    }
  }

  lemma {:induction false} CompleteNext(k: Structure, literals: set<string>, g: Temporal, s: Id)
    requires Total(k) && Exact(g) && LtlHolds(k, literals, Prefix(X, g), s)
    ensures s in Sat(k, literals, Translate(Prefix(X, g)))
    decreases g, 3
  {
    forall p: Path | From(k, p, s)
      ensures p(1) in Sat(k, literals, Translate(g))
    {
      forall q: Path | From(k, q, p(1))
        ensures Models(k, literals, g, Splice(p, 1, q), 1)
      {
        SpliceIsPath(k, p, s, 1, q);
        assert Models(k, literals, Prefix(X, g), Splice(p, 1, q), 0);
      }
      HoldsAfter(k, literals, g, p, s, 1);
      CompleteAt(k, literals, g, p(1));
    }
  }

  lemma {:induction false} CompleteGlobally(k: Structure, literals: set<string>, g: Temporal, s: Id)
    requires Total(k) && Exact(g) && LtlHolds(k, literals, Prefix(G, g), s)
    ensures s in Sat(k, literals, Translate(Prefix(G, g)))
    decreases g, 3
  {
    forall p: Path, i: nat | From(k, p, s)
      ensures p(i) in Sat(k, literals, Translate(g))
    {
      forall q: Path | From(k, q, p(i))
        ensures Models(k, literals, g, Splice(p, i, q), i)
      {
        SpliceIsPath(k, p, s, i, q);
        assert Models(k, literals, Prefix(G, g), Splice(p, i, q), 0);
      }
      HoldsAfter(k, literals, g, p, s, i);
      CompleteAt(k, literals, g, p(i));
    }
    assert forall p: Path :: From(k, p, s) ==> Globally(p, Sat(k, literals, Translate(g)));
  }

  lemma CompleteFinally(k: Structure, literals: set<string>, g: Temporal, s: Id)
    requires Total(k) && Propositional(g) && LtlHolds(k, literals, Prefix(F, g), s)
    ensures s in Sat(k, literals, Translate(Prefix(F, g)))
  {
    forall p: Path | From(k, p, s)
      ensures Finally(p, Sat(k, literals, Translate(g)))
    {
      assert Models(k, literals, Prefix(F, g), p, 0);
      var j: nat :| Models(k, literals, g, p, j);
      PathStates(k, p, s, j);
      PropositionalIsLocal(k, literals, g, p, j);
    }
  }

  lemma {:induction false} CompleteUntil(k: Structure, literals: set<string>, l: Temporal, r: Temporal, s: Id)
    requires Total(k) && Exact(l) && Propositional(r) && LtlHolds(k, literals, Until(U, l, r), s)
    ensures s in Sat(k, literals, Translate(Until(U, l, r)))
    decreases l, 3
  {
    var a, b := Sat(k, literals, Translate(l)), Sat(k, literals, Translate(r));
    forall p: Path | From(k, p, s)
      ensures UntilOn(p, a, b)
    {
      forall q: Path, n: nat | From(k, q, s)
        ensures Models(k, literals, r, q, n) <==> q(n) in b
      {
        PathStates(k, q, s, n);
        PropositionalIsLocal(k, literals, r, q, n);
      }
      assert Models(k, literals, Until(U, l, r), p, 0);
      var m: nat :| Models(k, literals, r, p, m);
      var j := FirstIn(p, b, m);
      forall i: nat | i < j
        ensures p(i) in a
      {
        forall q: Path | From(k, q, p(i))
          ensures Models(k, literals, l, Splice(p, i, q), i)
        {
          var sp := Splice(p, i, q);
          SpliceIsPath(k, p, s, i, q);
          assert Models(k, literals, Until(U, l, r), sp, 0);
          var n: nat :| Models(k, literals, r, sp, n) &&
                        forall x: nat :: 0 <= x < n ==> Models(k, literals, l, sp, x);
          assert sp(n) in b;
          assert n > i;
        }
        HoldsAfter(k, literals, l, p, s, i);
        CompleteAt(k, literals, l, p(i));
      }
      assert UntilAt(p, a, b, j);
    }
  }

  lemma GuardedModels(k: Structure, literals: set<string>, a: Temporal, g: Temporal, h: Temporal, p: Path, i: nat)
    ensures Models(k, literals, Bin(Conj, a, g), p, i) <==> Models(k, literals, a, p, i) && Models(k, literals, g, p, i)
    ensures Models(k, literals, Bin(Conj, Not(a), h), p, i) <==> !Models(k, literals, a, p, i) && Models(k, literals, h, p, i)
  {
    assert Models(k, literals, Not(a), p, i) <==> !Models(k, literals, a, p, i);
  }

  lemma GuardedStates(k: Structure, literals: set<string>, a: Temporal, g: Temporal, h: Temporal, s: Id)
    requires s in k.states
    ensures s in Sat(k, literals, Translate(Bin(Conj, a, g))) <==>
            s in Sat(k, literals, Translate(a)) && s in Sat(k, literals, Translate(g))
    ensures s in Sat(k, literals, Translate(Bin(Conj, Not(a), h))) <==>
            s !in Sat(k, literals, Translate(a)) && s in Sat(k, literals, Translate(h))
  {
    assert Translate(Bin(Conj, a, g)) == Bin(Conj, Translate(a), Translate(g));
    assert Translate(Not(a)) == Not(Translate(a));
    assert Translate(Bin(Conj, Not(a), h)) == Bin(Conj, Not(Translate(a)), Translate(h));
    assert s in Sat(k, literals, Not(Translate(a))) <==> s !in Sat(k, literals, Translate(a));
  }

  /** On all paths from `s` the guard decides alike, so one of the two sides holds on all of them. */
  lemma {:induction false} CompleteChoice(k: Structure, literals: set<string>, a: Temporal, g: Temporal, h: Temporal, s: Id)
    requires Total(k) && Propositional(a) && Exact(g) && Exact(h)
    requires LtlHolds(k, literals, Choice(a, g, h), s)
    ensures s in Sat(k, literals, Translate(Choice(a, g, h)))
    decreases Choice(a, g, h), 1
  {
    var p0 := SomePath(k, s);
    CompleteGuarded(k, literals, a, s);
    GuardedStates(k, literals, a, g, h, s);
    var side := if s in Sat(k, literals, Translate(a)) then g else h;
    forall p: Path | From(k, p, s) ensures Models(k, literals, side, p, 0) {
      assert Models(k, literals, Choice(a, g, h), p, 0);
      GuardedModels(k, literals, a, g, h, p, 0);
    }
    CompleteAt(k, literals, side, s);
  }

  function Choice(a: Temporal, g: Temporal, h: Temporal): Temporal {
    Bin(Disj, Bin(Conj, a, g), Bin(Conj, Not(a), h))
  }

  function GuardedUntil(a: Temporal, g: Temporal, h: Temporal): Temporal {
    Until(U, Bin(Conj, a, g), Bin(Conj, Not(a), h))
  }

  /** The guard fails first at the position where the until is fulfilled, on every path that starts like `p`. */
  lemma GuardMarksEnd(k: Structure, literals: set<string>, a: Temporal, g: Temporal, h: Temporal, p: Path, s: Id) returns (m: nat)
    requires Total(k) && Propositional(a) && From(k, p, s) && Models(k, literals, GuardedUntil(a, g, h), p, 0)
    ensures p(m) !in Sat(k, literals, Translate(a)) && Models(k, literals, h, p, m)
    ensures forall i: nat :: i < m ==> p(i) in Sat(k, literals, Translate(a)) && Models(k, literals, g, p, i)
  {
    forall i: nat ensures Models(k, literals, a, p, i) <==> p(i) in Sat(k, literals, Translate(a)) {
      PathStates(k, p, s, i);
      PropositionalIsLocal(k, literals, a, p, i);
    }
    m :| Models(k, literals, Bin(Conj, Not(a), h), p, m) &&
         forall n: nat :: 0 <= n < m ==> Models(k, literals, Bin(Conj, a, g), p, n);
    GuardedModels(k, literals, a, g, h, p, m);
    forall i: nat | i < m ensures p(i) in Sat(k, literals, Translate(a)) && Models(k, literals, g, p, i) {
      assert Models(k, literals, Bin(Conj, a, g), p, i);
      GuardedModels(k, literals, a, g, h, p, i);
    }
  }

  /** Every path that starts like `p` keeps `g` at `i` before the end, and `h` at the end. */
  lemma GuardedAt(k: Structure, literals: set<string>, a: Temporal, g: Temporal, h: Temporal, p: Path, s: Id, m: nat, i: nat)
    requires Total(k) && Propositional(a) && From(k, p, s) && LtlHolds(k, literals, GuardedUntil(a, g, h), s) && i <= m
    requires p(m) !in Sat(k, literals, Translate(a))
    requires forall x: nat :: x < m ==> p(x) in Sat(k, literals, Translate(a))
    ensures LtlHolds(k, literals, if i < m then g else h, p(i))
  {
    forall q: Path | From(k, q, p(i))
      ensures Models(k, literals, if i < m then g else h, Splice(p, i, q), i)
    {
      var sp := Splice(p, i, q);
      SpliceIsPath(k, p, s, i, q);
      var n := GuardMarksEnd(k, literals, a, g, h, sp, s);
      assert forall x: nat :: x <= i ==> sp(x) == p(x);
      assert i < m ==> i < n;
      assert i == m ==> n == m;
    }
    HoldsAfter(k, literals, if i < m then g else h, p, s, i);
  }

  lemma {:induction false} CompleteGuardedUntil(k: Structure, literals: set<string>, a: Temporal, g: Temporal, h: Temporal, s: Id)
    requires Total(k) && Propositional(a) && Exact(g) && Exact(h)
    requires LtlHolds(k, literals, GuardedUntil(a, g, h), s)
    ensures s in Sat(k, literals, Translate(GuardedUntil(a, g, h)))
    decreases GuardedUntil(a, g, h), 1
  {
    var x := Sat(k, literals, Translate(Bin(Conj, a, g)));
    var y := Sat(k, literals, Translate(Bin(Conj, Not(a), h)));
    forall p: Path | From(k, p, s) ensures UntilOn(p, x, y) {
      var m := GuardMarksEnd(k, literals, a, g, h, p, s);
      forall i: nat | i <= m ensures if i < m then p(i) in x else p(i) in y {
        PathStates(k, p, s, i);
        GuardedAt(k, literals, a, g, h, p, s, m, i);
        CompleteAt(k, literals, if i < m then g else h, p(i));
        GuardedStates(k, literals, a, g, h, p(i));
      }
      assert p(m) in y;
      assert UntilAt(p, x, y, m);
    }
  }

  // ---- Main results -----------------------------------------------------------

  /** A state in the translation's CTL set satisfies the LTL formula on all its paths. */
  lemma TranslationSound(k: Structure, literals: set<string>, f: Temporal, s: Id)
    requires Total(k) && Sound(f) && s in Sat(k, literals, Translate(f))
    ensures LtlHolds(k, literals, f, s)
  {
    SatInStates(k, literals, Translate(f));
    forall p: Path | From(k, p, s)
      ensures Models(k, literals, f, p, 0)
    {
      SoundOnPath(k, literals, f, p, s, 0);
    }
  }

  /** On the exact fragment CTL checking of the translation decides LTL truth. */
  lemma TranslationExact(k: Structure, literals: set<string>, f: Temporal, s: Id)
    requires Total(k) && Exact(f) && s in k.states
    ensures s in Sat(k, literals, Translate(f)) <==> LtlHolds(k, literals, f, s)
  {
    ExactIsSound(f);
    if s in Sat(k, literals, Translate(f)) {
      TranslationSound(k, literals, f, s);
    }
    if LtlHolds(k, literals, f, s) {
      CompleteAt(k, literals, f, s);
    }
  }

  /** The documented patterns all lie in the exact fragment. */
  lemma DocumentedPatternsAreExact(a: Temporal, b: Temporal)
    requires Propositional(a) && Propositional(b)
    ensures Exact(Prefix(G, a)) && Exact(Prefix(F, a)) && Exact(Prefix(X, a)) && Exact(Until(U, a, b))
    ensures Exact(Prefix(G, Bin(Impl, a, Prefix(F, b)))) && Exact(Prefix(G, Bin(Impl, a, Prefix(X, b))))
  {
    assert Exact(a) && Exact(b);
    assert Exact(Prefix(F, b)) && Exact(Prefix(X, b));
    assert Exact(Bin(Impl, a, Prefix(F, b))) && Exact(Bin(Impl, a, Prefix(X, b)));
  }

  // ---- Outside the fragments ---------------------------------------------------

  const P := Atom(Ident("p"))

  function Here(p: bool): Valuation {
    map["p" := Str(if p then "TRUE" else "FALSE")]
  }

  /** Stays at `a`, or leaves for `b` for good. */
  const LEAVING := Structure(map["a" := Here(true), "b" := Here(false)], ["a"],
                             map["a" := ["a", "b"], "b" := ["b"]])

  /** Stays at `a`, or passes once through `b` into `c`. */
  const PASSING := Structure(map["a" := Here(true), "b" := Here(false), "c" := Here(true)], ["a"],
                             map["a" := ["a", "b"], "b" := ["c"], "c" := ["c"]])

  lemma TruthOfP(b: bool)
    ensures AtomTruth(Ident("p"), Here(b), {}) == Ok(b)
  {
    assert Eval(Ident("p"), Here(b), {}) == Ok(Scalar(Str(if b then "TRUE" else "FALSE")));
  }

  /** Negated temporal formulas are unsound: `!G p` passes although the path that stays violates it. */
  lemma NegationIsUnsound()
    ensures Total(LEAVING)
    ensures "a" in Sat(LEAVING, {}, Translate(Not(Prefix(G, P))))
    ensures !LtlHolds(LEAVING, {}, Not(Prefix(G, P)), "a")
  {
    PHolds();
    SomePathKeepsP();
    SomePathLeavesP();
    assert Sat(LEAVING, {}, Translate(P)) == {"a"};
    assert Sat(LEAVING, {}, Translate(Prefix(G, P))) == AGlobally(LEAVING, {"a"});
  }

  lemma PHolds()
    ensures AtomStates(LEAVING, {}, Ident("p")) == {"a"}
  {
    TruthOfP(true);
    TruthOfP(false);
  }

  lemma SomePathKeepsP()
    ensures !LtlHolds(LEAVING, {}, Not(Prefix(G, P)), "a")
  {
    PHolds();
    var stay: Path := (i: nat) => "a";
    assert From(LEAVING, stay, "a") by {
      assert forall i: nat :: StepAt(LEAVING, stay, i);
    }
    assert Models(LEAVING, {}, Prefix(G, P), stay, 0);
  }

  lemma SomePathLeavesP()
    ensures "a" !in AGlobally(LEAVING, {"a"})
  {
    var leave: Path := (i: nat) => if i == 0 then "a" else "b";
    assert From(LEAVING, leave, "a") by {
      assert forall i: nat :: StepAt(LEAVING, leave, i);
    }
    assert leave(1) == "b";
    assert !Globally(leave, {"a"});
  }

  /** `F G p` is incomplete: every path satisfies it, yet the checker reports a failure. */
  lemma EventuallyAlwaysIsIncomplete()
    ensures Total(PASSING)
    ensures LtlHolds(PASSING, {}, Prefix(F, Prefix(G, P)), "a")
    ensures "a" !in Sat(PASSING, {}, Translate(Prefix(F, Prefix(G, P))))
  {
    PassingSatisfies();
    PassingRefuted();
  }

  lemma StatesOfP()
    ensures AtomStates(PASSING, {}, Ident("p")) == {"a", "c"}
    ensures Total(PASSING)
  {
    TruthOfP(true);
    TruthOfP(false);
  }

  lemma PassingSatisfies()
    ensures LtlHolds(PASSING, {}, Prefix(F, Prefix(G, P)), "a")
  {
    var k := PASSING;
    var a := {"a", "c"};
    StatesOfP();
    forall p: Path | From(k, p, "a")
      ensures Models(k, {}, Prefix(F, Prefix(G, P)), p, 0)
    {
      if n: nat :| p(n) !in a {
        PathStates(k, p, "a", n);
        assert StepAt(k, p, n);
        forall j: nat | n + 1 <= j
          ensures Models(k, {}, P, p, j)
        {
          StaysAtC(p, n + 1, j);
        }
        assert Models(k, {}, Prefix(G, P), p, n + 1);
      } else {
        forall j: nat
          ensures Models(k, {}, P, p, j)
        {
          assert p(j) in a;
        }
        assert Models(k, {}, Prefix(G, P), p, 0);
      }
    }
  }

  lemma PassingRefuted()
    ensures "a" !in Sat(PASSING, {}, Translate(Prefix(F, Prefix(G, P))))
  {
    var k := PASSING;
    var a := {"a", "c"};
    StatesOfP();
    var stay: Path := (i: nat) => "a";
    assert From(k, stay, "a") by {
      assert forall i: nat :: StepAt(k, stay, i);
    }
    var leave: Path := (i: nat) => if i == 0 then "a" else if i == 1 then "b" else "c";
    assert From(k, leave, "a") by {
      forall i: nat
        ensures StepAt(k, leave, i)
      {
      }
    }
    assert leave(1) !in a;
    assert !Globally(leave, a);
    assert Sat(k, {}, Translate(P)) == a;
    assert Sat(k, {}, Translate(Prefix(G, P))) == AGlobally(k, a);
    assert "a" !in AGlobally(k, a);
    assert !Finally(stay, AGlobally(k, a));
  }

  lemma {:induction false} StaysAtC(p: Path, m: nat, j: nat)
    requires forall i: nat :: StepAt(PASSING, p, i)
    requires p(m) == "c" && m <= j
    ensures p(j) == "c"
    decreases j
  {
    if m < j {
      StaysAtC(p, m, j - 1);
      assert StepAt(PASSING, p, j - 1);
    }
  }
}
