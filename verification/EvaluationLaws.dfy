/** What evaluation computes, said of outcomes: numbers, truth values, equality, and every operator. */
module EvaluationLaws {
  import opened Decimal
  import opened Prelude
  import opened Syntax
  import opened Expressions

  // ---- Numbers and truth values ----------------------------------------------------------

  function Power(n: nat): nat {
    if n == 0 then 1 else 10 * Power(n - 1)
  }

  /** The value of a digit run read from its first digit on. */
  function Positional(s: string): nat
    requires AllDigits(s)
  {
    if s == "" then 0
    else
      assert IsDigit(s[0]);
      (s[0] as int - '0' as int) * Power(|s| - 1) + Positional(s[1..])
  }

  lemma TimesTen(d: int, p: int)
    ensures d * (10 * p) == 10 * (d * p)
  {
  }

  lemma {:induction false} PositionalAtEnd(s: string, c: char)
    requires AllDigits(s) && IsDigit(c)
    ensures AllDigits(s + [c]) && Positional(s + [c]) == 10 * Positional(s) + (c as int - '0' as int)
  {
    var all := s + [c];
    if s == "" {
      assert all == [c] && all[1..] == "" && Power(0) == 1;
    } else {
      PositionalAtEnd(s[1..], c);
      assert all[1..] == s[1..] + [c] && all[0] == s[0];
      TimesTen(s[0] as int - '0' as int, Power(|s| - 1));
    }
  }

  lemma {:induction false} DigitsArePositional(s: string)
    requires AllDigits(s)
    ensures DigitsValue(s) == Positional(s)
  {
    if s != "" {
      DigitsArePositional(s[..|s| - 1]);
      PositionalAtEnd(s[..|s| - 1], s[|s| - 1]);
      assert s == s[..|s| - 1] + [s[|s| - 1]];
    }
  }

  /** `p` counts as the number `n`. */
  ghost predicate Counts(p: Prim, n: int) {
    match p
    case Num(m) => m == n
    case Bool(b) => n == if b then 1 else 0
    case Str(s) => s != "" && AllDigits(s) && n == Positional(s)
  }

  /** `p` counts as the truth value `b`. */
  ghost predicate Means(p: Prim, b: bool) {
    match p
    case Bool(c) => b == c
    case Num(n) => b <==> n != 0
    case Str(s) => s == if b then "TRUE" else "FALSE"
  }

  lemma NumbersAreRead(p: Prim, n: int)
    ensures AsNum(p) == Ok(n) <==> Counts(p, n)
  {
    if p.Str? && AllDigits(p.s) {
      DigitsArePositional(p.s);
    }
  }

  lemma TruthIsRead(p: Prim)
    ensures AsBool(p) == Ok(true) <==> Means(p, true)
    ensures AsBool(p) == Ok(false) <==> Means(p, false)
  {
  }

  /** Equal scalars: truth values if one side is a truth value, else the same scalar or a word and its number. */
  ghost predicate Same(p: Prim, q: Prim) {
    if p.Bool? || q.Bool? then exists b :: Means(p, b) && Means(q, b)
    else p == q || (p.Str? && q.Num? && Counts(p, q.n)) || (p.Num? && q.Str? && Counts(q, p.n))
  }

  /** Only a truth value next to a scalar without one cannot be compared. */
  ghost predicate Comparable(p: Prim, q: Prim) {
    p.Bool? || q.Bool? ==> (exists b :: Means(p, b)) && (exists b :: Means(q, b))
  }

  lemma EqualityIsRead(p: Prim, q: Prim)
    ensures PrimEqual(p, q) == if Comparable(p, q) then Ok(Same(p, q)) else Err(EvalError)
  {
    forall x: Prim | x.Str? && AllDigits(x.s) ensures DigitsValue(x.s) == Positional(x.s) {
      DigitsArePositional(x.s);
    }
    assert forall x: Prim :: Means(x, true) || Means(x, false) <==> AsBool(x).Ok?;
  }

  lemma SameIsSymmetric(p: Prim, q: Prim)
    ensures PrimEqual(p, q) == PrimEqual(q, p) && (Comparable(p, p) ==> Same(p, p))
  {
    EqualityIsRead(p, q);
    EqualityIsRead(q, p);
  }

  // ---- Operators ---------------------------------------------------------------------------

  /** `e` evaluates to the scalar `p`. */
  ghost predicate Gives(e: Expr, v: Valuation, literals: set<string>, p: Prim) {
    Eval(e, v, literals) == Ok(Scalar(p))
  }

  ghost predicate Holds(e: Expr, v: Valuation, literals: set<string>) {
    Gives(e, v, literals, Bool(true))
  }

  ghost predicate Fails(e: Expr, v: Valuation, literals: set<string>) {
    Gives(e, v, literals, Bool(false))
  }

  ghost predicate Raises(e: Expr, v: Valuation, literals: set<string>) {
    Eval(e, v, literals).Err?
  }

  /** Both operands are scalars that count as numbers. */
  ghost predicate Numbers(l: Expr, r: Expr, v: Valuation, literals: set<string>, x: int, y: int) {
    exists p, q :: Gives(l, v, literals, p) && Gives(r, v, literals, q) && Counts(p, x) && Counts(q, y)
  }

  lemma NumbersRead(l: Expr, r: Expr, v: Valuation, literals: set<string>, x: int, y: int) returns (p: Prim, q: Prim)
    requires Numbers(l, r, v, literals, x, y)
    ensures Gives(l, v, literals, p) && Gives(r, v, literals, q) && AsNum(p) == Ok(x) && AsNum(q) == Ok(y)
  {
    p, q :| Gives(l, v, literals, p) && Gives(r, v, literals, q) && Counts(p, x) && Counts(q, y);
    NumbersAreRead(p, x);
    NumbersAreRead(q, y);
  }

  /** `n` above `y`. */
  function Above(y: int, n: nat): int {
    y + n
  }

  /** What a scalar operator makes of two scalars. */
  lemma Applied(op: BinOp, l: Expr, r: Expr, v: Valuation, literals: set<string>, p: Prim, q: Prim)
    requires op != In && Gives(l, v, literals, p) && Gives(r, v, literals, q)
    ensures Eval(Binary(op, l, r), v, literals) == match EvalBinary(op, p, q) case Ok(x) => Ok(Scalar(x)) case Err(e) => Err(e)
  {
  }

  /** `>=` holds exactly if the left number is some number above the right one; the other comparisons follow from it. */
  lemma Comparisons(l: Expr, r: Expr, v: Valuation, literals: set<string>, x: int, y: int)
    requires Numbers(l, r, v, literals, x, y)
    ensures Holds(Binary(Ge, l, r), v, literals) <==> exists n: nat :: x == Above(y, n)
    ensures Holds(Binary(Ge, l, r), v, literals) || Fails(Binary(Ge, l, r), v, literals)
    ensures Holds(Binary(Lt, l, r), v, literals) <==> Fails(Binary(Ge, l, r), v, literals)
    ensures Holds(Binary(Lt, l, r), v, literals) || Fails(Binary(Lt, l, r), v, literals)
    ensures Eval(Binary(Le, l, r), v, literals) == Eval(Binary(Ge, r, l), v, literals)
    ensures Eval(Binary(Gt, l, r), v, literals) == Eval(Binary(Lt, r, l), v, literals)
  {
    var p, q := NumbersRead(l, r, v, literals, x, y);
    if x >= y {
      assert x == Above(y, x - y);
    }
  }

  /** Adding nothing changes nothing, and adding one more gives one more. */
  lemma Sums(l: Expr, r: Expr, v: Valuation, literals: set<string>, x: int, y: int) returns (sum: int)
    requires Numbers(l, r, v, literals, x, y)
    ensures Gives(Binary(Add, l, IntLit(0)), v, literals, Num(x))
    ensures Gives(Binary(Add, l, r), v, literals, Num(sum))
    ensures Gives(Binary(Add, l, Binary(Add, r, IntLit(1))), v, literals, Num(sum + 1))
  {
    var p, q := NumbersRead(l, r, v, literals, x, y);
    sum := x + y;
    Applied(Add, l, r, v, literals, p, q);
    Applied(Add, l, IntLit(0), v, literals, p, Num(0));
    Applied(Add, r, IntLit(1), v, literals, q, Num(1));
    Applied(Add, l, Binary(Add, r, IntLit(1)), v, literals, p, Num(y + 1));
  }

  /** Subtracting undoes adding, and adding undoes subtracting. */
  lemma Differences(l: Expr, r: Expr, v: Valuation, literals: set<string>, x: int, y: int)
    requires Numbers(l, r, v, literals, x, y)
    ensures Gives(Binary(Sub, Binary(Add, l, r), r), v, literals, Num(x))
    ensures Gives(Binary(Add, Binary(Sub, l, r), r), v, literals, Num(x))
  {
    var p, q := NumbersRead(l, r, v, literals, x, y);
    Applied(Add, l, r, v, literals, p, q);
    Applied(Sub, Binary(Add, l, r), r, v, literals, Num(x + y), q);
    Applied(Sub, l, r, v, literals, p, q);
    Applied(Add, Binary(Sub, l, r), r, v, literals, Num(x - y), q);
  }

  /** Equality is that of scalars; on numbers it is `<=` and `>=` together. */
  lemma Equalities(l: Expr, r: Expr, v: Valuation, literals: set<string>, p: Prim, q: Prim)
    requires Gives(l, v, literals, p) && Gives(r, v, literals, q)
    ensures Holds(Binary(Eq, l, r), v, literals) <==> Comparable(p, q) && Same(p, q)
    ensures Fails(Binary(Eq, l, r), v, literals) <==> Comparable(p, q) && !Same(p, q)
    ensures Raises(Binary(Eq, l, r), v, literals) <==> !Comparable(p, q)
    ensures Holds(Binary(Ne, l, r), v, literals) <==> Fails(Binary(Eq, l, r), v, literals)
    ensures Fails(Binary(Ne, l, r), v, literals) <==> Holds(Binary(Eq, l, r), v, literals)
    ensures p.Num? && q.Num? ==>
              (Holds(Binary(Eq, l, r), v, literals) <==>
               Holds(Binary(Le, l, r), v, literals) && Holds(Binary(Ge, l, r), v, literals))
  {
    EqualityIsRead(p, q);
  }

  /** Arithmetic and comparisons raise exactly if a side does not count as a number. */
  lemma ArithmeticRaises(op: BinOp, l: Expr, r: Expr, v: Valuation, literals: set<string>, p: Prim, q: Prim)
    requires op in {Add, Sub, Lt, Le, Gt, Ge} && Gives(l, v, literals, p) && Gives(r, v, literals, q)
    ensures Raises(Binary(op, l, r), v, literals) <==> !((exists x :: Counts(p, x)) && (exists y :: Counts(q, y)))
  {
    forall x: Prim ensures AsNum(x).Ok? <==> exists n :: Counts(x, n) {
      if AsNum(x).Ok? {
        NumbersAreRead(x, AsNum(x).value);
      }
      forall n | Counts(x, n) ensures AsNum(x) == Ok(n) {
        NumbersAreRead(x, n);
      }
    }
  }

  /** Conjunction and disjunction of scalars; the right side matters only if the left one does not decide. */
  lemma Conjunctions(l: Expr, r: Expr, v: Valuation, literals: set<string>, p: Prim, q: Prim)
    requires Gives(l, v, literals, p) && Gives(r, v, literals, q)
    ensures Holds(Binary(And, l, r), v, literals) <==> Means(p, true) && Means(q, true)
    ensures Fails(Binary(And, l, r), v, literals) <==> Means(p, false) || (Means(p, true) && Means(q, false))
    ensures Holds(Binary(Or, l, r), v, literals) <==> Means(p, true) || (Means(p, false) && Means(q, true))
    ensures Fails(Binary(Or, l, r), v, literals) <==> Means(p, false) && Means(q, false)
  {
    Applied(And, l, r, v, literals, p, q);
    Applied(Or, l, r, v, literals, p, q);
    TruthIsRead(p);
    TruthIsRead(q);
  }

  lemma Implications(l: Expr, r: Expr, v: Valuation, literals: set<string>, p: Prim, q: Prim)
    requires Gives(l, v, literals, p) && Gives(r, v, literals, q)
    ensures Holds(Binary(Implies, l, r), v, literals) <==> Means(p, false) || (Means(p, true) && Means(q, true))
    ensures Fails(Binary(Implies, l, r), v, literals) <==> Means(p, true) && Means(q, false)
    ensures Holds(Binary(Iff, l, r), v, literals) <==> exists b :: Means(p, b) && Means(q, b)
    ensures Fails(Binary(Iff, l, r), v, literals) <==> exists b :: Means(p, b) && Means(q, !b)
  {
    Applied(Implies, l, r, v, literals, p, q);
    Applied(Iff, l, r, v, literals, p, q);
    TruthIsRead(p);
    TruthIsRead(q);
  }

  /** Any other outcome of a connective is an error. */
  lemma ConnectivesAreTruthValues(op: BinOp, l: Expr, r: Expr, v: Valuation, literals: set<string>)
    requires op in {And, Or, Implies, Iff, Eq, Ne, Lt, Le, Gt, Ge, In}
    ensures Holds(Binary(op, l, r), v, literals) || Fails(Binary(op, l, r), v, literals) || Raises(Binary(op, l, r), v, literals)
  {
  }

  /** A failing operand, or a set where a scalar is expected, makes every operator fail. */
  lemma OperandsMatter(op: BinOp, l: Expr, r: Expr, v: Valuation, literals: set<string>)
    requires Raises(l, v, literals) || Raises(r, v, literals) || Eval(l, v, literals).value.Many?
             || (op != In && Eval(r, v, literals).value.Many?) || (op == In && Eval(r, v, literals).value.Scalar?)
    ensures Raises(Binary(op, l, r), v, literals)
  {
  }

  // ---- Membership, negation, names and cases -------------------------------------------------

  lemma {:induction false} MembershipIsRead(members: seq<Prim>, p: Prim)
    ensures SomeEqual(members, p) == Ok(true) <==>
            exists i :: 0 <= i < |members| && PrimEqual(members[i], p) == Ok(true)
                        && forall j :: 0 <= j < i ==> PrimEqual(members[j], p).Ok?
    ensures SomeEqual(members, p) == Ok(false) <==> forall i :: 0 <= i < |members| ==> PrimEqual(members[i], p) == Ok(false)
  {
    if members != [] {
      var rest := members[1..];
      MembershipIsRead(rest, p);
      assert forall i :: 0 <= i < |rest| ==> rest[i] == members[i + 1];
      if SomeEqual(rest, p) == Ok(true) && PrimEqual(members[0], p) == Ok(false) {
        var i :| 0 <= i < |rest| && PrimEqual(rest[i], p) == Ok(true) && forall j :: 0 <= j < i ==> PrimEqual(rest[j], p).Ok?;
        assert PrimEqual(members[i + 1], p) == Ok(true);
      }
      if i :| 0 <= i < |members| && PrimEqual(members[i], p) == Ok(true) && forall j :: 0 <= j < i ==> PrimEqual(members[j], p).Ok? {
        if i > 0 {
          assert PrimEqual(rest[i - 1], p) == Ok(true);
        }
      }
    }
  }

  lemma EqualBothWays(members: seq<Prim>, p: Prim)
    ensures forall i :: 0 <= i < |members| ==>
              PrimEqual(members[i], p) == (if Comparable(members[i], p) then Ok(Same(members[i], p)) else Err(EvalError))
  {
    forall i | 0 <= i < |members| {
      EqualityIsRead(members[i], p);
    }
  }

  /** `in` finds the first equal member, and raises if a member before it cannot be compared. */
  lemma Memberships(l: Expr, members: seq<Prim>, v: Valuation, literals: set<string>, p: Prim)
    requires Gives(l, v, literals, p)
    ensures var e := Binary(In, l, SetLit(members));
            && (Holds(e, v, literals) <==>
                 exists i :: 0 <= i < |members| && Comparable(members[i], p) && Same(members[i], p)
                             && forall j :: 0 <= j < i ==> Comparable(members[j], p))
            && (Fails(e, v, literals) <==>
                 forall i :: 0 <= i < |members| ==> Comparable(members[i], p) && !Same(members[i], p))
  {
    EqualBothWays(members, p);
    MembershipIsRead(members, p);
    assert Eval(SetLit(members), v, literals) == Ok(Many(members));
  }

  /** Negation turns truth values around and accepts nothing else. */
  lemma Negations(e: Expr, v: Valuation, literals: set<string>)
    ensures Holds(Negate(e), v, literals) <==> Fails(e, v, literals)
    ensures Fails(Negate(e), v, literals) <==> Holds(e, v, literals)
    ensures Holds(Negate(e), v, literals) || Fails(Negate(e), v, literals) || Raises(Negate(e), v, literals)
  {
  }

  /** A name is the variable's value if there is one, else itself if it is a value of some variable. */
  lemma NamesAndLiterals(name: string, v: Valuation, literals: set<string>)
    ensures forall p :: Gives(Ident(name), v, literals, p) <==>
                        (name in v && p == v[name]) || (name !in v && name in literals && p == Str(name))
    ensures Raises(Ident(name), v, literals) <==> name !in v && name !in literals
    ensures forall n: nat :: Gives(IntLit(n), v, literals, Num(n))
    ensures forall b :: Gives(BoolLit(b), v, literals, Bool(b))
    ensures forall members :: Eval(SetLit(members), v, literals) == Ok(Many(members))
  {
  }

  /** Every guard before `i` is false. */
  ghost predicate Passed(branches: seq<Branch>, i: nat, v: Valuation, literals: set<string>)
    requires i <= |branches|
  {
    forall j :: 0 <= j < i ==> exists p :: Gives(branches[j].guard, v, literals, p) && Means(p, false)
  }

  /** Branch `i` is the first one whose guard is true. */
  ghost predicate Taken(branches: seq<Branch>, i: nat, v: Valuation, literals: set<string>) {
    && i < |branches| && Passed(branches, i, v, literals)
    && exists p :: Gives(branches[i].guard, v, literals, p) && Means(p, true)
  }

  /** A `case` has the value of the first branch whose guard is true, and raises if there is none. */
  lemma {:induction false} Cases(branches: seq<Branch>, v: Valuation, literals: set<string>)
    ensures forall i: nat :: Taken(branches, i, v, literals) ==>
              Eval(Case(branches), v, literals) == Eval(branches[i].value, v, literals)
    ensures (forall i: nat :: !Taken(branches, i, v, literals)) ==> Raises(Case(branches), v, literals)
    decreases |branches|
  {
    if branches != [] {
      var rest := branches[1..];
      Cases(rest, v, literals);
      var guard := Eval(branches[0].guard, v, literals);
      assert Eval(Case(rest), v, literals) == EvalCase(rest, v, literals);
      if guard.Ok? && guard.value.Scalar? {
        TruthIsRead(guard.value.prim);
        assert Gives(branches[0].guard, v, literals, guard.value.prim);
      }
      forall i: nat | Taken(branches, i, v, literals) && i > 0 ensures Taken(rest, i - 1, v, literals) {
        assert forall j :: 0 <= j < i - 1 ==> rest[j] == branches[j + 1];
      }
      forall i: nat | Taken(rest, i, v, literals) && Passed(branches, 1, v, literals) ensures Taken(branches, i + 1, v, literals) {
        forall j | 0 <= j < i + 1 ensures exists p :: Gives(branches[j].guard, v, literals, p) && Means(p, false) {
          assert j > 0 ==> branches[j] == rest[j - 1];
        }
      }
    }
  }

  /** An atom is true or false as its scalar is; a set or a scalar without truth value has none. */
  lemma Atoms(e: Expr, v: Valuation, literals: set<string>, b: bool)
    ensures AtomTruth(e, v, literals) == Ok(b) <==> exists p :: Gives(e, v, literals, p) && Means(p, b)
  {
    var value := Eval(e, v, literals);
    if value.Ok? && value.value.Scalar? {
      TruthIsRead(value.value.prim);
      assert Gives(e, v, literals, value.value.prim);
    }
  }
}
