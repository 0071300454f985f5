/** How runs without parentheses are read: which operator binds tighter, and to which side chains lean. */
module Precedence {
  import opened Prelude
  import opened Syntax
  import opened Kripke
  import opened Grammar
  import opened Reading
  import opened RoundTrip

  // ---- Formulas at a level ---------------------------------------------------------------------------

  /** A token that ends a formula of level `k`: it continues no sum or relation, is no infix `U` and joins higher up. */
  predicate Ends(logic: Logic, k: nat, t: Token) {
    !Continues(t) && (logic == LTL ==> t != K(UntilWord)) && !(0 < JoinLevel(t) <= k)
  }

  /** `xs` is read as `f` at level `k`. */
  ghost predicate ReadsAt(logic: Logic, k: nat, xs: seq<Token>, f: Temporal)
    requires k <= 4
  {
    && xs != []
    && forall toks: seq<Token>, pos: nat {:trigger At(toks, pos, xs)} ::
         At(toks, pos, xs) && Ends(logic, k, Peek(toks, pos + |xs|)) ==>
           ParseTemporalLevel(toks, logic, k, pos) == Parsed(f, pos + |xs|)
  }

  /** After `xs` the loop of level `k` goes on with `f` as its left operand. */
  ghost predicate ChainsAt(logic: Logic, k: Level, xs: seq<Token>, f: Temporal) {
    && xs != []
    && forall toks: seq<Token>, pos: nat {:trigger At(toks, pos, xs)} ::
         At(toks, pos, xs) && Ends(logic, k - 1, Peek(toks, pos + |xs|)) ==>
           ParseTemporalLevel(toks, logic, k, pos) == ParseTemporalRest(toks, logic, k, f, pos + |xs|)
  }

  lemma UnaryAtLowest(logic: Logic, xs: seq<Token>, f: Temporal)
    requires UnaryReads(logic, xs, Some(f))
    ensures ReadsAt(logic, 0, xs, f)
  {
    forall toks: seq<Token>, pos: nat | At(toks, pos, xs) && Ends(logic, 0, Peek(toks, pos + |xs|))
      ensures ParseTemporalLevel(toks, logic, 0, pos) == Parsed(f, pos + |xs|)
    {
      UnaryIsLowest(toks, logic, pos, Some(f), pos + |xs|);
    }
  }

  /** `U` binds tighter than every connective. */
  lemma UntilAtLowest(xs: seq<Token>, l: Temporal, ys: seq<Token>, r: Temporal)
    requires UnaryReads(LTL, xs, Some(l)) && UnaryReads(LTL, ys, Some(r))
    ensures ReadsAt(LTL, 0, xs + [K(UntilWord)] + ys, Until(U, l, r))
  {
    var all := xs + [K(UntilWord)] + ys;
    forall toks: seq<Token>, pos: nat | At(toks, pos, all) && Ends(LTL, 0, Peek(toks, pos + |all|))
      ensures ParseTemporalLevel(toks, LTL, 0, pos) == Parsed(Until(U, l, r), pos + |all|)
    {
      AtInfix(toks, pos, xs, K(UntilWord), ys);
      assert ParseUntil(toks, LTL, pos) == Parsed(Until(U, l, r), pos + |all|);
    }
  }

  lemma BelowChains(logic: Logic, k: Level, xs: seq<Token>, f: Temporal)
    requires !RightAssociative(k) && ReadsAt(logic, k - 1, xs, f)
    ensures ChainsAt(logic, k, xs, f)
  {
  }

  lemma ChainIsRead(logic: Logic, k: Level, xs: seq<Token>, f: Temporal)
    requires !RightAssociative(k) && ChainsAt(logic, k, xs, f)
    ensures ReadsAt(logic, k, xs, f)
  {
    forall toks: seq<Token>, pos: nat | At(toks, pos, xs) && Ends(logic, k, Peek(toks, pos + |xs|))
      ensures ParseTemporalLevel(toks, logic, k, pos) == Parsed(f, pos + |xs|)
    {
      assert ParseTemporalRest(toks, logic, k, f, pos + |xs|) == Parsed(f, pos + |xs|);
    }
  }

  lemma {:induction false} ReadHigher(logic: Logic, k: nat, m: nat, xs: seq<Token>, f: Temporal)
    requires k <= m <= 4 && ReadsAt(logic, k, xs, f)
    ensures ReadsAt(logic, m, xs, f)
  {
    forall toks: seq<Token>, pos: nat | At(toks, pos, xs) && Ends(logic, m, Peek(toks, pos + |xs|))
      ensures ParseTemporalLevel(toks, logic, m, pos) == Parsed(f, pos + |xs|)
    {
      RaiseFormulaResult(toks, logic, k, m, pos, Some(f), pos + |xs|);
    }
  }

  lemma SymbolEnds(logic: Logic, k: Level)
    ensures Ends(logic, k - 1, S(LevelSym(k)))
  {
  }

  lemma RestGrows(toks: seq<Token>, logic: Logic, k: Level, l: Temporal, mid: nat, r: Temporal, end: nat)
    requires mid < |toks| && Peek(toks, mid) == S(LevelSym(k)) && ParseTemporalLevel(toks, logic, k - 1, mid + 1) == Parsed(r, end)
    ensures ParseTemporalRest(toks, logic, k, l, mid) == ParseTemporalRest(toks, logic, k, Bin(LevelConn(k), l, r), end)
  {
  }

  lemma RightJoins(toks: seq<Token>, logic: Logic, k: Level, pos: nat, l: Temporal, mid: nat, r: Temporal, end: nat)
    requires RightAssociative(k) && pos <= |toks| && ParseTemporalLevel(toks, logic, k - 1, pos) == Parsed(l, mid)
    requires mid < |toks| && Peek(toks, mid) == S(LevelSym(k)) && ParseTemporalLevel(toks, logic, k, mid + 1) == Parsed(r, end)
    ensures ParseTemporalLevel(toks, logic, k, pos) == Parsed(Bin(LevelConn(k), l, r), end)
  {
  }

  /** One more operand of a chain that leans to the left. */
  lemma ChainGrows(logic: Logic, k: Level, xs: seq<Token>, l: Temporal, ys: seq<Token>, r: Temporal)
    requires !RightAssociative(k) && ChainsAt(logic, k, xs, l) && ReadsAt(logic, k - 1, ys, r)
    ensures ChainsAt(logic, k, xs + [S(LevelSym(k))] + ys, Bin(LevelConn(k), l, r))
  {
    var all := xs + [S(LevelSym(k))] + ys;
    forall toks: seq<Token>, pos: nat | At(toks, pos, all) && Ends(logic, k - 1, Peek(toks, pos + |all|))
      ensures ParseTemporalLevel(toks, logic, k, pos) ==
              ParseTemporalRest(toks, logic, k, Bin(LevelConn(k), l, r), pos + |all|)
    {
      AtInfix(toks, pos, xs, S(LevelSym(k)), ys);
      SymbolEnds(logic, k);
      assert ParseTemporalLevel(toks, logic, k - 1, pos + |xs| + 1) == Parsed(r, pos + |all|);
      RestGrows(toks, logic, k, l, pos + |xs|, r, pos + |all|);
    }
  }

  lemma RightReads(logic: Logic, k: Level, xs: seq<Token>, l: Temporal, ys: seq<Token>, r: Temporal)
    requires RightAssociative(k) && ReadsAt(logic, k - 1, xs, l) && ReadsAt(logic, k, ys, r)
    ensures ReadsAt(logic, k, xs + [S(LevelSym(k))] + ys, Bin(LevelConn(k), l, r))
  {
    var all := xs + [S(LevelSym(k))] + ys;
    forall toks: seq<Token>, pos: nat | At(toks, pos, all) && Ends(logic, k, Peek(toks, pos + |all|))
      ensures ParseTemporalLevel(toks, logic, k, pos) == Parsed(Bin(LevelConn(k), l, r), pos + |all|)
    {
      var mid := pos + |xs|;
      AtInfix(toks, pos, xs, S(LevelSym(k)), ys);
      SymbolEnds(logic, k);
      assert pos + |all| == mid + 1 + |ys|;
      RightJoins(toks, logic, k, pos, l, mid, r, mid + 1 + |ys|);
    }
  }

  lemma TopIsFormula(logic: Logic, xs: seq<Token>, f: Temporal)
    requires ReadsAt(logic, 4, xs, f)
    ensures TemporalReads(logic, xs, Some(f))
  {
  }

  /** `l c r` at the level of its connective. */
  lemma JoinReads(logic: Logic, k: Level, xs: seq<Token>, l: Temporal, ys: seq<Token>, r: Temporal)
    requires ReadsAt(logic, k - 1, xs, l) && ReadsAt(logic, if k == 3 then 3 else k - 1, ys, r)
    ensures ReadsAt(logic, k, xs + [S(LevelSym(k))] + ys, Bin(LevelConn(k), l, r))
  {
    if k == 3 {
      RightReads(logic, k, xs, l, ys, r);
    } else {
      BelowChains(logic, k, xs, l);
      ChainGrows(logic, k, xs, l, ys, r);
      ChainIsRead(logic, k, xs + [S(LevelSym(k))] + ys, Bin(LevelConn(k), l, r));
    }
  }

  // ---- Two connectives in a row -----------------------------------------------------------------------

  ghost predicate ThreeRead(logic: Logic, xs: seq<Token>, s: Sym, ys: seq<Token>, t: Sym, zs: seq<Token>, f: Temporal) {
    TemporalReads(logic, xs + [S(s)] + ys + [S(t)] + zs, Some(f))
  }

  lemma LeftFirst(logic: Logic, a: Level, b: Level, xs: seq<Token>, f: Temporal, ys: seq<Token>, g: Temporal,
                  zs: seq<Token>, h: Temporal)
    requires a < b || (a == b && a != 3)
    requires ReadsAt(logic, 0, xs, f) && ReadsAt(logic, 0, ys, g) && ReadsAt(logic, 0, zs, h)
    ensures ThreeRead(logic, xs, LevelSym(a), ys, LevelSym(b), zs, Bin(LevelConn(b), Bin(LevelConn(a), f, g), h))
  {
    var xys, fg := xs + [S(LevelSym(a))] + ys, Bin(LevelConn(a), f, g);
    ReadHigher(logic, 0, a - 1, xs, f);
    ReadHigher(logic, 0, if a == 3 then 3 else a - 1, ys, g);
    ReadHigher(logic, 0, if b == 3 then 3 else b - 1, zs, h);
    if a < b {
      JoinReads(logic, a, xs, f, ys, g);
      ReadHigher(logic, a, b - 1, xys, fg);
      JoinReads(logic, b, xys, fg, zs, h);
    } else {
      BelowChains(logic, a, xs, f);
      ChainGrows(logic, a, xs, f, ys, g);
      ChainGrows(logic, a, xys, fg, zs, h);
      ChainIsRead(logic, a, xys + [S(LevelSym(b))] + zs, Bin(LevelConn(b), fg, h));
    }
    ReadHigher(logic, b, 4, xys + [S(LevelSym(b))] + zs, Bin(LevelConn(b), fg, h));
    TopIsFormula(logic, xys + [S(LevelSym(b))] + zs, Bin(LevelConn(b), fg, h));
  }

  lemma RightFirst(logic: Logic, a: Level, b: Level, xs: seq<Token>, f: Temporal, ys: seq<Token>, g: Temporal,
                   zs: seq<Token>, h: Temporal)
    requires b < a || (a == b && a == 3)
    requires ReadsAt(logic, 0, xs, f) && ReadsAt(logic, 0, ys, g) && ReadsAt(logic, 0, zs, h)
    ensures ThreeRead(logic, xs, LevelSym(a), ys, LevelSym(b), zs, Bin(LevelConn(a), f, Bin(LevelConn(b), g, h)))
  {
    var yzs, gh := ys + [S(LevelSym(b))] + zs, Bin(LevelConn(b), g, h);
    var all := xs + [S(LevelSym(a))] + yzs;
    ReadHigher(logic, 0, b - 1, ys, g);
    ReadHigher(logic, 0, if b == 3 then 3 else b - 1, zs, h);
    ReadHigher(logic, 0, a - 1, xs, f);
    JoinReads(logic, b, ys, g, zs, h);
    ReadHigher(logic, b, if a == 3 then 3 else a - 1, yzs, gh);
    JoinReads(logic, a, xs, f, yzs, gh);
    ReadHigher(logic, a, 4, all, Bin(LevelConn(a), f, gh));
    TopIsFormula(logic, all, Bin(LevelConn(a), f, gh));
    assert all == xs + [S(LevelSym(a))] + ys + [S(LevelSym(b))] + zs;
  }

  /**
   * `&` binds tightest, then `|`, then `->`, then `<->`; `->` leans to the right and the others to the left. The
   * three runs are unary formulas, such as atoms, negations and prefixed or parenthesised formulas.
   */
  lemma ConnectivesInOrder(logic: Logic, xs: seq<Token>, f: Temporal, ys: seq<Token>, g: Temporal, zs: seq<Token>, h: Temporal)
    requires UnaryReads(logic, xs, Some(f)) && UnaryReads(logic, ys, Some(g)) && UnaryReads(logic, zs, Some(h))
    ensures ThreeRead(logic, xs, Amp, ys, Amp, zs, Bin(Conj, Bin(Conj, f, g), h))
    ensures ThreeRead(logic, xs, Amp, ys, Bar, zs, Bin(Disj, Bin(Conj, f, g), h))
    ensures ThreeRead(logic, xs, Amp, ys, Arrow, zs, Bin(Impl, Bin(Conj, f, g), h))
    ensures ThreeRead(logic, xs, Amp, ys, DoubleArrow, zs, Bin(Equiv, Bin(Conj, f, g), h))
    ensures ThreeRead(logic, xs, Bar, ys, Amp, zs, Bin(Disj, f, Bin(Conj, g, h)))
    ensures ThreeRead(logic, xs, Bar, ys, Bar, zs, Bin(Disj, Bin(Disj, f, g), h))
    ensures ThreeRead(logic, xs, Bar, ys, Arrow, zs, Bin(Impl, Bin(Disj, f, g), h))
    ensures ThreeRead(logic, xs, Bar, ys, DoubleArrow, zs, Bin(Equiv, Bin(Disj, f, g), h))
    ensures ThreeRead(logic, xs, Arrow, ys, Amp, zs, Bin(Impl, f, Bin(Conj, g, h)))
    ensures ThreeRead(logic, xs, Arrow, ys, Bar, zs, Bin(Impl, f, Bin(Disj, g, h)))
    ensures ThreeRead(logic, xs, Arrow, ys, Arrow, zs, Bin(Impl, f, Bin(Impl, g, h)))
    ensures ThreeRead(logic, xs, Arrow, ys, DoubleArrow, zs, Bin(Equiv, Bin(Impl, f, g), h))
    ensures ThreeRead(logic, xs, DoubleArrow, ys, Amp, zs, Bin(Equiv, f, Bin(Conj, g, h)))
    ensures ThreeRead(logic, xs, DoubleArrow, ys, Bar, zs, Bin(Equiv, f, Bin(Disj, g, h)))
    ensures ThreeRead(logic, xs, DoubleArrow, ys, Arrow, zs, Bin(Equiv, f, Bin(Impl, g, h)))
    ensures ThreeRead(logic, xs, DoubleArrow, ys, DoubleArrow, zs, Bin(Equiv, Bin(Equiv, f, g), h))
  {
    UnaryAtLowest(logic, xs, f);
    UnaryAtLowest(logic, ys, g);
    UnaryAtLowest(logic, zs, h);
    forall a: Level, b: Level | a < b || (a == b && a != 3)
      ensures ThreeRead(logic, xs, LevelSym(a), ys, LevelSym(b), zs, Bin(LevelConn(b), Bin(LevelConn(a), f, g), h))
    {
      LeftFirst(logic, a, b, xs, f, ys, g, zs, h);
    }
    forall a: Level, b: Level | b < a || (a == b && a == 3)
      ensures ThreeRead(logic, xs, LevelSym(a), ys, LevelSym(b), zs, Bin(LevelConn(a), f, Bin(LevelConn(b), g, h)))
    {
      RightFirst(logic, a, b, xs, f, ys, g, zs, h);
    }
    assert LevelSym(1) == Amp && LevelSym(2) == Bar && LevelSym(3) == Arrow && LevelSym(4) == DoubleArrow;
  }

  /** In LTL, `U` binds tighter than the connectives on either side of it. */
  lemma UntilBeforeConnectives(xs: seq<Token>, f: Temporal, ys: seq<Token>, g: Temporal, zs: seq<Token>, h: Temporal)
    requires UnaryReads(LTL, xs, Some(f)) && UnaryReads(LTL, ys, Some(g)) && UnaryReads(LTL, zs, Some(h))
    ensures TemporalReads(LTL, xs + [K(UntilWord)] + ys + [S(Amp)] + zs, Some(Bin(Conj, Until(U, f, g), h)))
    ensures TemporalReads(LTL, xs + [S(Amp)] + (ys + [K(UntilWord)] + zs), Some(Bin(Conj, f, Until(U, g, h))))
  {
    UnaryAtLowest(LTL, xs, f);
    UnaryAtLowest(LTL, zs, h);
    UntilAtLowest(xs, f, ys, g);
    UntilAtLowest(ys, g, zs, h);
    JoinReads(LTL, 1, xs + [K(UntilWord)] + ys, Until(U, f, g), zs, h);
    JoinReads(LTL, 1, xs, f, ys + [K(UntilWord)] + zs, Until(U, g, h));
    var left, right := xs + [K(UntilWord)] + ys + [S(Amp)] + zs, xs + [S(Amp)] + (ys + [K(UntilWord)] + zs);
    ReadHigher(LTL, 1, 4, left, Bin(Conj, Until(U, f, g), h));
    ReadHigher(LTL, 1, 4, right, Bin(Conj, f, Until(U, g, h)));
  }

  // ---- Printing with no more parentheses than needed --------------------------------------------------

  function Binding(c: Connective): Level {
    match c
    case Conj => 1
    case Disj => 2
    case Impl => 3
    case Equiv => 4
  }

  /** A relation or sum without its own parentheses. */
  function BareAtom(e: Expr): seq<Token> {
    if e.Binary? then PrintExpr(e.left) + [OpToken(e.op)] + PrintExpr(e.right) else PrintExpr(e)
  }

  /** `f` as an operand of a one-place operator or of `U`: a binary formula gets parentheses. */
  function Tight(f: Temporal): seq<Token>
    decreases f, 1
  {
    match f
    case Atom(e) => BareAtom(e)
    case Not(g) => [S(Bang)] + Tight(g)
    case Prefix(op, g) => [K(OpWord(op))] + Tight(g)
    case Bin(_, _, _) => [S(LParen)] + Loose(4, f) + [S(RParen)]
    case Until(U, _, _) => [S(LParen)] + Loose(4, f) + [S(RParen)]
    case Until(op, l, r) =>
      [K(if op == AU then AWord else EWord), S(LBracket)] + Loose(4, l) + [K(UntilWord)] + Loose(4, r) + [S(RBracket)]
  }

  /** `f` where connectives up to level `k` need no parentheses. */
  function Loose(k: nat, f: Temporal): seq<Token>
    decreases f, if (f.Bin? && Binding(f.conn) <= k) || (f.Until? && f.uop == U) then 0 else 2
  {
    match f
    case Bin(c, l, r) =>
      if Binding(c) > k then Tight(f)
      else if c == Impl then Loose(2, l) + [S(Arrow)] + Loose(3, r)
      else Loose(Binding(c), l) + [S(LevelSym(Binding(c)))] + Loose(Binding(c) - 1, r)
    case Until(U, l, r) => Tight(l) + [K(UntilWord)] + Tight(r)
    case _ => Tight(f)
  }

  lemma BareAtomReads(logic: Logic, e: Expr)
    requires PrintableAtom(e)
    ensures UnaryReads(logic, BareAtom(e), Some(Atom(e)))
  {
    RereadFixed(e);
    if e.Binary? {
      RereadFixed(e.left);
      RereadFixed(e.right);
      PrimaryPrints(e.left);
      RightOperand(e.right);
      PlainArith(e.op, e.left, e.right);
      Regroup(PrintExpr(e.left), OpToken(e.op), PrintExpr(e.right));
      BangsBeforeAtom(logic, e.left, [OpToken(e.op)] + PrintExpr(e.right), Some(e));
    } else {
      AtomPrints(logic, e);
    }
  }

  lemma {:induction false} TightReads(logic: Logic, f: Temporal)
    requires InLogic(logic, f) && Printable(f)
    ensures UnaryReads(logic, Tight(f), Some(f))
    decreases f, 1
  {
    match f
    case Atom(e) => BareAtomReads(logic, e);
    case Not(g) =>
      TightReads(logic, g);
      NotFormulaReads(logic, Tight(g), Some(g));
    case Prefix(op, g) =>
      TightReads(logic, g);
      PrefixReads(logic, op, Tight(g), Some(g));
    case Bin(_, _, _) => GroupTight(logic, f);
    case Until(op, l, r) =>
      if op == U {
        GroupTight(logic, f);
      } else {
        LooseReads(logic, 4, l);
        LooseReads(logic, 4, r);
        BracketReads(op, Loose(4, l), Some(l), Loose(4, r), Some(r));
        ClosedIsUnary(CTL, Tight(f), Some(f));
      }
  }

  lemma {:induction false} GroupTight(logic: Logic, f: Temporal)
    requires InLogic(logic, f) && Printable(f) && (f.Bin? || (f.Until? && f.uop == U))
    ensures UnaryReads(logic, Tight(f), Some(f))
    decreases f, 0, 2
  {
    LooseReads(logic, 4, f);
    FormulaGroupReads(logic, Loose(4, f), Some(f));
    ClosedIsUnary(logic, Tight(f), Some(f));
  }

  lemma {:induction false} LooseReads(logic: Logic, k: nat, f: Temporal)
    requires InLogic(logic, f) && Printable(f) && k <= 4
    ensures ReadsAt(logic, k, Loose(k, f), f)
    ensures k == 4 ==> TemporalReads(logic, Loose(k, f), Some(f))
    decreases f, if (f.Bin? && Binding(f.conn) <= k) || (f.Until? && f.uop == U) then 0 else 2, 1
  {
    if f.Bin? && Binding(f.conn) <= k {
      LooseBin(logic, f.conn, f.left, f.right);
      ReadHigher(logic, Binding(f.conn), k, Loose(k, f), f);
    } else if f.Until? && f.uop == U {
      TightReads(logic, f.left);
      TightReads(logic, f.right);
      UntilAtLowest(Tight(f.left), f.left, Tight(f.right), f.right);
      ReadHigher(logic, 0, k, Loose(k, f), f);
    } else {
      TightReads(logic, f);
      UnaryAtLowest(logic, Tight(f), f);
      ReadHigher(logic, 0, k, Loose(k, f), f);
    }
    if k == 4 {
      TopIsFormula(logic, Loose(k, f), f);
    }
  }

  lemma {:induction false} LooseBin(logic: Logic, c: Connective, l: Temporal, r: Temporal)
    requires InLogic(logic, Bin(c, l, r)) && Printable(Bin(c, l, r))
    ensures ReadsAt(logic, Binding(c), Loose(Binding(c), Bin(c, l, r)), Bin(c, l, r))
    decreases Bin(c, l, r), 0, 0
  {
    if c == Impl {
      LooseReads(logic, 2, l);
      LooseReads(logic, 3, r);
      RightReads(logic, 3, Loose(2, l), l, Loose(3, r), r);
    } else {
      LooseChain(logic, c, l, r);
      ChainIsRead(logic, Binding(c), Loose(Binding(c), Bin(c, l, r)), Bin(c, l, r));
    }
  }

  lemma {:induction false} LooseChain(logic: Logic, c: Connective, l: Temporal, r: Temporal)
    requires InLogic(logic, Bin(c, l, r)) && Printable(Bin(c, l, r)) && c != Impl
    ensures ChainsAt(logic, Binding(c), Loose(Binding(c), Bin(c, l, r)), Bin(c, l, r))
    decreases Bin(c, l, r), 0, 0, 0
  {
    var k: nat := Binding(c);
    if l.Bin? && l.conn == c {
      LooseChain(logic, c, l.left, l.right);
    } else {
      LooseReads(logic, k - 1, l);
      assert Loose(k, l) == Loose(k - 1, l);
      BelowChains(logic, k, Loose(k, l), l);
    }
    LooseReads(logic, k - 1, r);
    ChainGrows(logic, k, Loose(k, l), l, Loose(k - 1, r), r);
  }

  /** A formula printed with no more parentheses than needed is read back as itself. */
  lemma LooseRoundTrips(logic: Logic, f: Temporal)
    requires InLogic(logic, f) && Printable(f)
    ensures ParseTemporal(Loose(4, f) + [Eof], logic, 0) == Parsed(f, |Loose(4, f)|)
  {
    var toks := Loose(4, f) + [Eof];
    assert At(toks, 0, Loose(4, f)) && Peek(toks, |Loose(4, f)|) == Eof;
    LooseReads(logic, 4, f);
  }
}
