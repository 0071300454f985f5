/** How expressions without parentheses are read: sums, relations, negation, then the four connectives. */
module ExpressionPrecedence {
  import opened Prelude
  import opened Syntax
  import opened Grammar
  import opened Reading

  // ---- Sums and relations ------------------------------------------------------------------------------

  /** `xs` is read as the sum `e`, in front of a token that adds nothing. */
  ghost predicate SumReads(xs: seq<Token>, e: Expr) {
    && xs != []
    && forall toks: seq<Token>, pos: nat {:trigger At(toks, pos, xs)} ::
         At(toks, pos, xs) && !IsAdd(Peek(toks, pos + |xs|)) ==> ParseAdditive(toks, pos) == Parsed(e, pos + |xs|)
  }

  /** After `xs` the loop of sums goes on with `e` as its left operand. */
  ghost predicate SumChains(xs: seq<Token>, e: Expr) {
    && xs != []
    && forall toks: seq<Token>, pos: nat {:trigger At(toks, pos, xs)} ::
         At(toks, pos, xs) ==> ParseAdditive(toks, pos) == ParseAdditiveRest(toks, e, pos + |xs|)
  }

  lemma PrimaryChains(xs: seq<Token>, e: Expr)
    requires PrimaryReads(xs, Some(e))
    ensures SumChains(xs, e)
  {
  }

  lemma SumChainIsRead(xs: seq<Token>, e: Expr)
    requires SumChains(xs, e)
    ensures SumReads(xs, e)
  {
    forall toks: seq<Token>, pos: nat | At(toks, pos, xs) && !IsAdd(Peek(toks, pos + |xs|))
      ensures ParseAdditive(toks, pos) == Parsed(e, pos + |xs|)
    {
      assert ParseAdditiveRest(toks, e, pos + |xs|) == Parsed(e, pos + |xs|);
    }
  }

  /** Sums lean to the left, whatever their signs. */
  lemma SumGrows(xs: seq<Token>, l: Expr, minus: bool, ys: seq<Token>, r: Expr)
    requires SumChains(xs, l) && PrimaryReads(ys, Some(r))
    ensures SumChains(xs + [S(if minus then Minus else Plus)] + ys, Binary(if minus then Sub else Add, l, r))
  {
    var t := S(if minus then Minus else Plus);
    var all := xs + [t] + ys;
    forall toks: seq<Token>, pos: nat | At(toks, pos, all)
      ensures ParseAdditive(toks, pos) == ParseAdditiveRest(toks, Binary(if minus then Sub else Add, l, r), pos + |all|)
    {
      AtInfix(toks, pos, xs, t, ys);
      assert ParsePrimary(toks, pos + |xs| + 1) == Parsed(r, pos + |all|);
    }
  }

  /** `l op r` for one of the six relation symbols. */
  ghost predicate RelationAs(xs: seq<Token>, s: Sym, ys: seq<Token>, e: Expr) {
    RelationReads(xs + [S(s)] + ys, Some(e))
  }

  lemma RelationOfSums(xs: seq<Token>, l: Expr, t: Token, ys: seq<Token>, r: Expr)
    requires SumReads(xs, l) && SumReads(ys, r) && IsRel(t)
    ensures RelationReads(xs + [t] + ys, Some(Binary(RelOp(t), l, r)))
  {
    var all := xs + [t] + ys;
    forall toks: seq<Token>, pos: nat | At(toks, pos, all) && !Continues(Peek(toks, pos + |all|))
      ensures ParseRelation(toks, pos) == Parsed(Binary(RelOp(t), l, r), pos + |all|)
    {
      AtInfix(toks, pos, xs, t, ys);
      assert ParseAdditive(toks, pos) == Parsed(l, pos + |xs|);
      assert ParseAdditive(toks, pos + |xs| + 1) == Parsed(r, pos + |all|);
    }
  }

  /** Each relation symbol compares the sums on its two sides. */
  lemma RelationsCompareSums(xs: seq<Token>, l: Expr, ys: seq<Token>, r: Expr)
    requires SumReads(xs, l) && SumReads(ys, r)
    ensures RelationAs(xs, Equal, ys, Binary(Eq, l, r)) && RelationAs(xs, NotEqual, ys, Binary(Ne, l, r))
    ensures RelationAs(xs, Less, ys, Binary(Lt, l, r)) && RelationAs(xs, LessEq, ys, Binary(Le, l, r))
    ensures RelationAs(xs, Greater, ys, Binary(Gt, l, r)) && RelationAs(xs, GreaterEq, ys, Binary(Ge, l, r))
  {
    forall s: Sym | IsRel(S(s)) ensures RelationReads(xs + [S(s)] + ys, Some(Binary(RelOp(S(s)), l, r))) {
      RelationOfSums(xs, l, S(s), ys, r);
    }
  }

  /** `!` covers the whole relation behind it. */
  lemma NotCoversRelation(xs: seq<Token>, e: Expr)
    requires RelationReads(xs, Some(e)) && xs[0] != S(Bang)
    ensures NotReads([S(Bang)] + xs, Some(Negate(e)))
  {
    RelationIsNot(xs, Some(e));
    BangReads(xs, Some(e));
  }

  // ---- Connectives -------------------------------------------------------------------------------------

  predicate Ends(k: nat, t: Token) {
    !Continues(t) && !(0 < JoinLevel(t) <= k)
  }

  /** `xs` is read as `e` at level `k`. */
  ghost predicate ReadsAt(k: nat, xs: seq<Token>, e: Expr)
    requires k <= 4
  {
    && xs != []
    && forall toks: seq<Token>, pos: nat {:trigger At(toks, pos, xs)} ::
         At(toks, pos, xs) && Ends(k, Peek(toks, pos + |xs|)) ==> ParseExprLevel(toks, k, pos) == Parsed(e, pos + |xs|)
  }

  ghost predicate ChainsAt(k: Level, xs: seq<Token>, e: Expr) {
    && xs != []
    && forall toks: seq<Token>, pos: nat {:trigger At(toks, pos, xs)} ::
         At(toks, pos, xs) && Ends(k - 1, Peek(toks, pos + |xs|)) ==>
           ParseExprLevel(toks, k, pos) == ParseExprRest(toks, k, e, pos + |xs|)
  }

  lemma NotAtLowest(xs: seq<Token>, e: Expr)
    requires NotReads(xs, Some(e))
    ensures ReadsAt(0, xs, e)
  {
  }

  lemma BelowChains(k: Level, xs: seq<Token>, e: Expr)
    requires !RightAssociative(k) && ReadsAt(k - 1, xs, e)
    ensures ChainsAt(k, xs, e)
  {
  }

  lemma ChainIsRead(k: Level, xs: seq<Token>, e: Expr)
    requires !RightAssociative(k) && ChainsAt(k, xs, e)
    ensures ReadsAt(k, xs, e)
  {
    forall toks: seq<Token>, pos: nat | At(toks, pos, xs) && Ends(k, Peek(toks, pos + |xs|))
      ensures ParseExprLevel(toks, k, pos) == Parsed(e, pos + |xs|)
    {
      assert ParseExprRest(toks, k, e, pos + |xs|) == Parsed(e, pos + |xs|);
    }
  }

  lemma ReadHigher(k: nat, m: nat, xs: seq<Token>, e: Expr)
    requires k <= m <= 4 && ReadsAt(k, xs, e)
    ensures ReadsAt(m, xs, e)
  {
    forall toks: seq<Token>, pos: nat | At(toks, pos, xs) && Ends(m, Peek(toks, pos + |xs|))
      ensures ParseExprLevel(toks, m, pos) == Parsed(e, pos + |xs|)
    {
      RaiseResult(toks, k, m, pos, Some(e), pos + |xs|);
    }
  }

  lemma SymbolEnds(k: Level)
    ensures Ends(k - 1, S(LevelSym(k)))
  {
  }

  lemma RestGrows(toks: seq<Token>, k: Level, l: Expr, mid: nat, r: Expr, end: nat)
    requires mid < |toks| && Peek(toks, mid) == S(LevelSym(k)) && ParseExprLevel(toks, k - 1, mid + 1) == Parsed(r, end)
    ensures ParseExprRest(toks, k, l, mid) == ParseExprRest(toks, k, Binary(LevelOp(k), l, r), end)
  {
  }

  lemma RightJoins(toks: seq<Token>, k: Level, pos: nat, l: Expr, mid: nat, r: Expr, end: nat)
    requires RightAssociative(k) && pos <= |toks| && ParseExprLevel(toks, k - 1, pos) == Parsed(l, mid)
    requires mid < |toks| && Peek(toks, mid) == S(LevelSym(k)) && ParseExprLevel(toks, k, mid + 1) == Parsed(r, end)
    ensures ParseExprLevel(toks, k, pos) == Parsed(Binary(LevelOp(k), l, r), end)
  {
  }

  lemma ChainGrows(k: Level, xs: seq<Token>, l: Expr, ys: seq<Token>, r: Expr)
    requires !RightAssociative(k) && ChainsAt(k, xs, l) && ReadsAt(k - 1, ys, r)
    ensures ChainsAt(k, xs + [S(LevelSym(k))] + ys, Binary(LevelOp(k), l, r))
  {
    var all := xs + [S(LevelSym(k))] + ys;
    forall toks: seq<Token>, pos: nat | At(toks, pos, all) && Ends(k - 1, Peek(toks, pos + |all|))
      ensures ParseExprLevel(toks, k, pos) == ParseExprRest(toks, k, Binary(LevelOp(k), l, r), pos + |all|)
    {
      AtInfix(toks, pos, xs, S(LevelSym(k)), ys);
      SymbolEnds(k);
      assert ParseExprLevel(toks, k - 1, pos + |xs| + 1) == Parsed(r, pos + |all|);
      RestGrows(toks, k, l, pos + |xs|, r, pos + |all|);
    }
  }

  lemma RightReads(k: Level, xs: seq<Token>, l: Expr, ys: seq<Token>, r: Expr)
    requires RightAssociative(k) && ReadsAt(k - 1, xs, l) && ReadsAt(k, ys, r)
    ensures ReadsAt(k, xs + [S(LevelSym(k))] + ys, Binary(LevelOp(k), l, r))
  {
    var all := xs + [S(LevelSym(k))] + ys;
    forall toks: seq<Token>, pos: nat | At(toks, pos, all) && Ends(k, Peek(toks, pos + |all|))
      ensures ParseExprLevel(toks, k, pos) == Parsed(Binary(LevelOp(k), l, r), pos + |all|)
    {
      var mid := pos + |xs|;
      AtInfix(toks, pos, xs, S(LevelSym(k)), ys);
      SymbolEnds(k);
      assert pos + |all| == mid + 1 + |ys|;
      RightJoins(toks, k, pos, l, mid, r, mid + 1 + |ys|);
    }
  }

  lemma JoinReads(k: Level, xs: seq<Token>, l: Expr, ys: seq<Token>, r: Expr)
    requires ReadsAt(k - 1, xs, l) && ReadsAt(if k == 3 then 3 else k - 1, ys, r)
    ensures ReadsAt(k, xs + [S(LevelSym(k))] + ys, Binary(LevelOp(k), l, r))
  {
    if k == 3 {
      RightReads(k, xs, l, ys, r);
    } else {
      BelowChains(k, xs, l);
      ChainGrows(k, xs, l, ys, r);
      ChainIsRead(k, xs + [S(LevelSym(k))] + ys, Binary(LevelOp(k), l, r));
    }
  }

  ghost predicate ThreeRead(xs: seq<Token>, s: Sym, ys: seq<Token>, t: Sym, zs: seq<Token>, e: Expr) {
    ExprReads(xs + [S(s)] + ys + [S(t)] + zs, Some(e))
  }

  lemma LeftFirst(a: Level, b: Level, xs: seq<Token>, x: Expr, ys: seq<Token>, y: Expr, zs: seq<Token>, z: Expr)
    requires a < b || (a == b && a != 3)
    requires ReadsAt(0, xs, x) && ReadsAt(0, ys, y) && ReadsAt(0, zs, z)
    ensures ThreeRead(xs, LevelSym(a), ys, LevelSym(b), zs, Binary(LevelOp(b), Binary(LevelOp(a), x, y), z))
  {
    var xys, xy := xs + [S(LevelSym(a))] + ys, Binary(LevelOp(a), x, y);
    ReadHigher(0, a - 1, xs, x);
    ReadHigher(0, if a == 3 then 3 else a - 1, ys, y);
    ReadHigher(0, if b == 3 then 3 else b - 1, zs, z);
    if a < b {
      JoinReads(a, xs, x, ys, y);
      ReadHigher(a, b - 1, xys, xy);
      JoinReads(b, xys, xy, zs, z);
    } else {
      BelowChains(a, xs, x);
      ChainGrows(a, xs, x, ys, y);
      ChainGrows(a, xys, xy, zs, z);
      ChainIsRead(a, xys + [S(LevelSym(b))] + zs, Binary(LevelOp(b), xy, z));
    }
    ReadHigher(b, 4, xys + [S(LevelSym(b))] + zs, Binary(LevelOp(b), xy, z));
  }

  lemma RightFirst(a: Level, b: Level, xs: seq<Token>, x: Expr, ys: seq<Token>, y: Expr, zs: seq<Token>, z: Expr)
    requires b < a || (a == b && a == 3)
    requires ReadsAt(0, xs, x) && ReadsAt(0, ys, y) && ReadsAt(0, zs, z)
    ensures ThreeRead(xs, LevelSym(a), ys, LevelSym(b), zs, Binary(LevelOp(a), x, Binary(LevelOp(b), y, z)))
  {
    var yzs, yz := ys + [S(LevelSym(b))] + zs, Binary(LevelOp(b), y, z);
    var all := xs + [S(LevelSym(a))] + yzs;
    ReadHigher(0, b - 1, ys, y);
    ReadHigher(0, if b == 3 then 3 else b - 1, zs, z);
    ReadHigher(0, a - 1, xs, x);
    JoinReads(b, ys, y, zs, z);
    ReadHigher(b, if a == 3 then 3 else a - 1, yzs, yz);
    JoinReads(a, xs, x, yzs, yz);
    ReadHigher(a, 4, all, Binary(LevelOp(a), x, yz));
    assert all == xs + [S(LevelSym(a))] + ys + [S(LevelSym(b))] + zs;
  }

  /** The connectives of expressions bind and lean as those of formulas do. */
  lemma ConnectivesInOrder(xs: seq<Token>, x: Expr, ys: seq<Token>, y: Expr, zs: seq<Token>, z: Expr)
    requires NotReads(xs, Some(x)) && NotReads(ys, Some(y)) && NotReads(zs, Some(z))
    ensures ThreeRead(xs, Amp, ys, Amp, zs, Binary(And, Binary(And, x, y), z))
    ensures ThreeRead(xs, Amp, ys, Bar, zs, Binary(Or, Binary(And, x, y), z))
    ensures ThreeRead(xs, Amp, ys, Arrow, zs, Binary(Implies, Binary(And, x, y), z))
    ensures ThreeRead(xs, Amp, ys, DoubleArrow, zs, Binary(Iff, Binary(And, x, y), z))
    ensures ThreeRead(xs, Bar, ys, Amp, zs, Binary(Or, x, Binary(And, y, z)))
    ensures ThreeRead(xs, Bar, ys, Bar, zs, Binary(Or, Binary(Or, x, y), z))
    ensures ThreeRead(xs, Bar, ys, Arrow, zs, Binary(Implies, Binary(Or, x, y), z))
    ensures ThreeRead(xs, Bar, ys, DoubleArrow, zs, Binary(Iff, Binary(Or, x, y), z))
    ensures ThreeRead(xs, Arrow, ys, Amp, zs, Binary(Implies, x, Binary(And, y, z)))
    ensures ThreeRead(xs, Arrow, ys, Bar, zs, Binary(Implies, x, Binary(Or, y, z)))
    ensures ThreeRead(xs, Arrow, ys, Arrow, zs, Binary(Implies, x, Binary(Implies, y, z)))
    ensures ThreeRead(xs, Arrow, ys, DoubleArrow, zs, Binary(Iff, Binary(Implies, x, y), z))
    ensures ThreeRead(xs, DoubleArrow, ys, Amp, zs, Binary(Iff, x, Binary(And, y, z)))
    ensures ThreeRead(xs, DoubleArrow, ys, Bar, zs, Binary(Iff, x, Binary(Or, y, z)))
    ensures ThreeRead(xs, DoubleArrow, ys, Arrow, zs, Binary(Iff, x, Binary(Implies, y, z)))
    ensures ThreeRead(xs, DoubleArrow, ys, DoubleArrow, zs, Binary(Iff, Binary(Iff, x, y), z))
  {
    NotAtLowest(xs, x);
    NotAtLowest(ys, y);
    NotAtLowest(zs, z);
    forall a: Level, b: Level | a < b || (a == b && a != 3)
      ensures ThreeRead(xs, LevelSym(a), ys, LevelSym(b), zs, Binary(LevelOp(b), Binary(LevelOp(a), x, y), z))
    {
      LeftFirst(a, b, xs, x, ys, y, zs, z);
    }
    forall a: Level, b: Level | b < a || (a == b && a == 3)
      ensures ThreeRead(xs, LevelSym(a), ys, LevelSym(b), zs, Binary(LevelOp(a), x, Binary(LevelOp(b), y, z)))
    {
      RightFirst(a, b, xs, x, ys, y, zs, z);
    }
    assert LevelSym(1) == Amp && LevelSym(2) == Bar && LevelSym(3) == Arrow && LevelSym(4) == DoubleArrow;
  }
}
