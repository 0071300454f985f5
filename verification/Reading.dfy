/** How runs of tokens are read wherever they stand, and how those readings combine. */
module Reading {
  import opened Prelude
  import opened Syntax
  import opened Grammar

  // ---- Token windows -----------------------------------------------------------------------------

  /** `xs` stands at position `pos`. */
  ghost predicate At(toks: seq<Token>, pos: nat, xs: seq<Token>) {
    pos + |xs| <= |toks| && toks[pos..pos + |xs|] == xs
  }

  lemma AtSplit(toks: seq<Token>, pos: nat, xs: seq<Token>, ys: seq<Token>)
    requires At(toks, pos, xs + ys)
    ensures At(toks, pos, xs) && At(toks, pos + |xs|, ys)
  {
    var whole := toks[pos..pos + |xs + ys|];
    assert toks[pos..pos + |xs|] == whole[..|xs|] == xs;
    assert toks[pos + |xs|..pos + |xs| + |ys|] == whole[|xs|..] == ys;
  }

  lemma AtOne(toks: seq<Token>, pos: nat, t: Token)
    requires At(toks, pos, [t])
    ensures pos < |toks| && Peek(toks, pos) == t
  {
    assert toks[pos..pos + 1][0] == t;
  }

  lemma AtHead(toks: seq<Token>, pos: nat, xs: seq<Token>)
    requires At(toks, pos, xs) && xs != []
    ensures pos < |toks| && Peek(toks, pos) == xs[0]
  {
    assert toks[pos..pos + |xs|][0] == xs[0];
  }

  /** Windows of `xs t ys`. */
  lemma AtInfix(toks: seq<Token>, pos: nat, xs: seq<Token>, t: Token, ys: seq<Token>)
    requires At(toks, pos, xs + [t] + ys)
    ensures At(toks, pos, xs) && Peek(toks, pos + |xs|) == t && At(toks, pos + |xs| + 1, ys)
  {
    AtSplit(toks, pos, xs + [t], ys);
    AtSplit(toks, pos, xs, [t]);
    AtOne(toks, pos + |xs|, t);
  }

  /** Windows of `u xs v`. */
  lemma AtFenced(toks: seq<Token>, pos: nat, u: Token, xs: seq<Token>, v: Token)
    requires At(toks, pos, [u] + xs + [v])
    ensures Peek(toks, pos) == u && At(toks, pos + 1, xs) && Peek(toks, pos + 1 + |xs|) == v
    ensures pos + |xs| + 2 <= |toks|
  {
    AtSplit(toks, pos, [u] + xs, [v]);
    AtSplit(toks, pos, [u], xs);
    AtOne(toks, pos, u);
    AtOne(toks, pos + 1 + |xs|, v);
  }

  lemma AtPrefix(toks: seq<Token>, pos: nat, u: Token, xs: seq<Token>)
    requires At(toks, pos, [u] + xs)
    ensures Peek(toks, pos) == u && At(toks, pos + 1, xs)
  {
    AtSplit(toks, pos, [u], xs);
    AtOne(toks, pos, u);
  }

  lemma BracketWindows(toks: seq<Token>, pos: nat, q: Token, xs: seq<Token>, ys: seq<Token>)
    requires At(toks, pos, [q, S(LBracket)] + xs + [K(UntilWord)] + ys + [S(RBracket)])
    ensures Peek(toks, pos) == q && Peek(toks, pos + 1) == S(LBracket) && At(toks, pos + 2, xs)
    ensures Peek(toks, pos + 2 + |xs|) == K(UntilWord) && At(toks, pos + 3 + |xs|, ys)
    ensures Peek(toks, pos + 3 + |xs| + |ys|) == S(RBracket) && pos + 3 + |xs| + |ys| < |toks|
  {
    var inner := xs + [K(UntilWord)] + ys;
    assert [q, S(LBracket)] + xs + [K(UntilWord)] + ys + [S(RBracket)] == [q] + ([S(LBracket)] + inner + [S(RBracket)]);
    AtPrefix(toks, pos, q, [S(LBracket)] + inner + [S(RBracket)]);
    AtFenced(toks, pos + 1, S(LBracket), inner, S(RBracket));
    AtInfix(toks, pos + 2, xs, K(UntilWord), ys);
  }

  // ---- Results ----------------------------------------------------------------------------------------

  ghost function Outcome<T>(r: Option<T>, end: nat): Parse<T> {
    match r
    case Some(n) => Parsed(n, end)
    case None => NoParse
  }

  predicate Logical(op: BinOp) {
    op in {And, Or, Implies, Iff}
  }

  function Both(op: BinOp, l: Option<Expr>, r: Option<Expr>): Option<Expr> {
    if l.Some? && r.Some? then Some(Binary(op, l.value, r.value)) else None
  }

  function Negated(r: Option<Expr>): Option<Expr> {
    match r
    case Some(x) => Some(Negate(x))
    case None => None
  }

  function JoinBranches(g: Option<Expr>, v: Option<Expr>, rest: Option<seq<Branch>>): Option<seq<Branch>> {
    if g.Some? && v.Some? && rest.Some? then Some([Branch(g.value, v.value)] + rest.value) else None
  }

  function LogicalConn(op: BinOp): Connective {
    match op
    case And => Conj
    case Or => Disj
    case Implies => Impl
    case _ => Equiv
  }

  function Join(c: Connective, l: Option<Temporal>, r: Option<Temporal>): Option<Temporal> {
    if l.Some? && r.Some? then Some(Bin(c, l.value, r.value)) else None
  }

  function JoinUntil(op: UntilOp, l: Option<Temporal>, r: Option<Temporal>): Option<Temporal> {
    if l.Some? && r.Some? then Some(Until(op, l.value, r.value)) else None
  }

  function NotOf(r: Option<Temporal>): Option<Temporal> {
    match r
    case Some(g) => Some(Not(g))
    case None => None
  }

  function PrefixOf(op: PrefixOp, r: Option<Temporal>): Option<Temporal> {
    match r
    case Some(g) => Some(Prefix(op, g))
    case None => None
  }

  function AtomOf(r: Option<Expr>): Option<Temporal> {
    match r
    case Some(e) => Some(Atom(e))
    case None => None
  }

  // ---- Tokens that end an operand --------------------------------------------------------------------

  /** Tokens that would continue a sum or a relation. */
  predicate Continues(t: Token) {
    IsAdd(t) || IsRel(t) || t == K(InWord)
  }

  /** The precedence level a token joins at, 0 if it is no connective. */
  function JoinLevel(t: Token): nat {
    match t
    case S(Amp) => 1
    case S(Bar) => 2
    case S(Arrow) => 3
    case S(DoubleArrow) => 4
    case _ => 0
  }

  /** A token at which an operand ends: it neither joins nor, in LTL, is an infix `U`. */
  predicate Stops(logic: Logic, t: Token) {
    JoinLevel(t) == 0 && (logic == LTL ==> t != K(UntilWord))
  }

  /** A token that opens neither a temporal operator nor a group. */
  predicate StartsAtom(t: Token) {
    t !in {S(Bang), S(LParen), K(AWord), K(EWord)} && !(t.K? && t.word.OpWord?)
  }

  // ---- Expressions at one position -------------------------------------------------------------------

  /** A result is passed up through levels that the next token does not join at. */
  lemma {:induction false} Raise(toks: seq<Token>, lo: nat, hi: nat, pos: nat)
    requires pos <= |toks| && lo <= hi <= 4
    requires var r := ParseExprLevel(toks, lo, pos); r.Parsed? ==> !(lo < JoinLevel(Peek(toks, r.next)) <= hi)
    ensures ParseExprLevel(toks, hi, pos) == ParseExprLevel(toks, lo, pos)
    decreases hi
  {
    if lo < hi {
      Raise(toks, lo, hi - 1, pos);
      var r := ParseExprLevel(toks, lo, pos);
      assert r.Parsed? ==> Peek(toks, r.next) != S(LevelSym(hi));
    }
  }

  /** One join at the level of its connective. */
  lemma JoinParses(toks: seq<Token>, level: Level, pos: nat, mid: nat, end: nat, l: Expr, r: Option<Expr>)
    requires pos < mid < end <= |toks| && Peek(toks, mid) == S(LevelSym(level)) && Peek(toks, end) != S(LevelSym(level))
    requires ParseExprLevel(toks, level - 1, pos) == Parsed(l, mid)
    requires ParseExprLevel(toks, if RightAssociative(level) then level else level - 1, mid + 1) == Outcome(r, end)
    ensures ParseExprLevel(toks, level, pos) == Outcome(Both(LevelOp(level), Some(l), r), end)
  {
    if !RightAssociative(level) {
      if r.Some? {
        var node := Binary(LevelOp(level), l, r.value);
        assert ParseExprRest(toks, level, node, end) == Parsed(node, end);
        assert ParseExprRest(toks, level, l, mid) == Parsed(node, end);
      } else {
        assert ParseExprRest(toks, level, l, mid) == NoParse;
      }
    }
  }

  lemma RaiseResult(toks: seq<Token>, lo: nat, hi: nat, pos: nat, r: Option<Expr>, end: nat)
    requires pos <= |toks| && lo <= hi <= 4 && ParseExprLevel(toks, lo, pos) == Outcome(r, end)
    requires r.Some? ==> !(lo < JoinLevel(Peek(toks, end)) <= hi)
    ensures ParseExprLevel(toks, hi, pos) == Outcome(r, end)
  {
    Raise(toks, lo, hi, pos);
  }

  /** `l op r` at the level of `op`, its operands being read at the lowest level. */
  lemma JoinFromBelow(toks: seq<Token>, level: Level, pos: nat, mid: nat, end: nat, l: Expr, r: Option<Expr>)
    requires pos < mid < end <= |toks| && Peek(toks, mid) == S(LevelSym(level)) && JoinLevel(Peek(toks, end)) == 0
    requires ParseExprLevel(toks, 0, pos) == Parsed(l, mid) && ParseExprLevel(toks, 0, mid + 1) == Outcome(r, end)
    ensures ParseExprLevel(toks, level, pos) == Outcome(Both(LevelOp(level), Some(l), r), end)
  {
    RaiseResult(toks, 0, level - 1, pos, Some(l), mid);
    RaiseResult(toks, 0, if RightAssociative(level) then level else level - 1, mid + 1, r, end);
    JoinParses(toks, level, pos, mid, end, l, r);
  }

  /** `l op r` for a logical operator, in front of a token that joins nothing. */
  lemma LogicalParses(toks: seq<Token>, pos: nat, level: Level, mid: nat, end: nat, l: Option<Expr>, r: Option<Expr>)
    requires pos < mid < end <= |toks| && Peek(toks, mid) == S(LevelSym(level)) && JoinLevel(Peek(toks, end)) == 0
    requires ParseNot(toks, pos) == Outcome(l, mid) && ParseNot(toks, mid + 1) == Outcome(r, end)
    ensures ParseExpr(toks, pos) == Outcome(Both(LevelOp(level), l, r), end)
  {
    if l.None? {
      RaiseResult(toks, 0, 4, pos, None, end);
    } else {
      JoinFromBelow(toks, level, pos, mid, end, l.value, r);
      RaiseResult(toks, level, 4, pos, Both(LevelOp(level), l, r), end);
    }
  }

  /** One primary in front of a token that does not continue it. */
  lemma JustPrimary(toks: seq<Token>, pos: nat, r: Option<Expr>, end: nat)
    requires pos < end <= |toks| && ParsePrimary(toks, pos) == Outcome(r, end)
    requires r.Some? ==> !Continues(Peek(toks, end))
    ensures ParseAdditive(toks, pos) == ParseRelation(toks, pos) == Outcome(r, end)
  {
    if r.Some? {
      assert ParseAdditiveRest(toks, r.value, end) == Parsed(r.value, end);
    }
  }

  /** `l op r` for a sum, relation or membership whose operands are primaries. */
  lemma ArithParses(toks: seq<Token>, pos: nat, op: BinOp, mid: nat, end: nat, l: Option<Expr>, r: Option<Expr>)
    requires !Logical(op) && pos < mid < mid + 1 < end <= |toks| && !Continues(Peek(toks, end))
    requires ParsePrimary(toks, pos) == Outcome(l, mid) && Peek(toks, mid) == OpToken(op)
    requires ParsePrimary(toks, mid + 1) == Outcome(r, end)
    ensures ParseRelation(toks, pos) ==
            Outcome(if op == In && Peek(toks, mid + 1) != S(LBrace) then None else Both(op, l, r), end)
  {
    if l.Some? {
      if op == Add || op == Sub {
        SumParses(toks, pos, op, mid, end, l.value, r);
      } else if op == In {
        LeftIsAdditive(toks, pos, mid, l.value);
      } else {
        RelationParses(toks, pos, op, mid, end, l.value, r);
      }
    }
  }

  lemma RelationParses(toks: seq<Token>, pos: nat, op: BinOp, mid: nat, end: nat, l: Expr, r: Option<Expr>)
    requires op in {Eq, Ne, Lt, Le, Gt, Ge} && pos < mid < mid + 1 < end <= |toks|
    requires ParsePrimary(toks, pos) == Parsed(l, mid) && Peek(toks, mid) == OpToken(op)
    requires ParsePrimary(toks, mid + 1) == Outcome(r, end) && !Continues(Peek(toks, end))
    ensures ParseRelation(toks, pos) == Outcome(Both(op, Some(l), r), end)
  {
    RelationToken(op);
    LeftIsAdditive(toks, pos, mid, l);
    JustPrimary(toks, mid + 1, r, end);
  }

  lemma RelationToken(op: BinOp)
    requires op in {Eq, Ne, Lt, Le, Gt, Ge}
    ensures IsRel(OpToken(op)) && !IsAdd(OpToken(op)) && RelOp(OpToken(op)) == op
  {
  }

  lemma LeftIsAdditive(toks: seq<Token>, pos: nat, mid: nat, l: Expr)
    requires pos < mid <= |toks| && ParsePrimary(toks, pos) == Parsed(l, mid) && !IsAdd(Peek(toks, mid))
    ensures ParseAdditive(toks, pos) == Parsed(l, mid)
  {
    assert ParseAdditiveRest(toks, l, mid) == Parsed(l, mid);
  }

  lemma SumParses(toks: seq<Token>, pos: nat, op: BinOp, mid: nat, end: nat, l: Expr, r: Option<Expr>)
    requires (op == Add || op == Sub) && pos < mid < mid + 1 < end <= |toks|
    requires ParsePrimary(toks, pos) == Parsed(l, mid) && Peek(toks, mid) == OpToken(op)
    requires ParsePrimary(toks, mid + 1) == Outcome(r, end) && !Continues(Peek(toks, end))
    ensures ParseRelation(toks, pos) == Outcome(Both(op, Some(l), r), end)
  {
    if r.Some? {
      var sum := Binary(op, l, r.value);
      assert ParseAdditiveRest(toks, sum, end) == Parsed(sum, end);
      assert ParseAdditiveRest(toks, l, mid) == Parsed(sum, end);
    } else {
      assert ParseAdditiveRest(toks, l, mid) == NoParse;
    }
    assert ParseAdditive(toks, pos) == Outcome(Both(op, Some(l), r), end);
  }

  lemma BranchParses(toks: seq<Token>, pos: nat, mid: nat, last: nat, end: nat,
                     g: Option<Expr>, v: Option<Expr>, rest: Option<seq<Branch>>)
    requires pos < mid && mid + 1 < last < |toks| && Peek(toks, pos) != K(EsacWord)
    requires ParseExpr(toks, pos) == Outcome(g, mid) && Peek(toks, mid) == S(Colon)
    requires ParseExpr(toks, mid + 1) == Outcome(v, last) && Peek(toks, last) == S(Semi)
    requires ParseBranches(toks, last + 1) == Outcome(rest, end)
    ensures ParseBranches(toks, pos) == Outcome(JoinBranches(g, v, rest), end)
  {
  }

  // ---- Formulas at one position ----------------------------------------------------------------------

  lemma {:induction false} RaiseFormula(toks: seq<Token>, logic: Logic, lo: nat, hi: nat, pos: nat)
    requires pos <= |toks| && lo <= hi <= 4
    requires var r := ParseTemporalLevel(toks, logic, lo, pos);
             r.Parsed? ==> !(lo < JoinLevel(Peek(toks, r.next)) <= hi)
    ensures ParseTemporalLevel(toks, logic, hi, pos) == ParseTemporalLevel(toks, logic, lo, pos)
    decreases hi
  {
    if lo < hi {
      RaiseFormula(toks, logic, lo, hi - 1, pos);
      var r := ParseTemporalLevel(toks, logic, lo, pos);
      assert r.Parsed? ==> Peek(toks, r.next) != S(LevelSym(hi));
    }
  }

  lemma UnaryIsTemporal(toks: seq<Token>, logic: Logic, pos: nat, r: Option<Temporal>, end: nat)
    requires pos <= |toks| && ParseUnary(toks, logic, pos) == Outcome(r, end) && Stops(logic, Peek(toks, end))
    ensures ParseTemporal(toks, logic, pos) == Outcome(r, end)
  {
    assert ParseTemporalLevel(toks, logic, 0, pos) == ParseUntil(toks, logic, pos) == Outcome(r, end);
    RaiseFormula(toks, logic, 0, 4, pos);
  }

  lemma JoinFormulaParses(toks: seq<Token>, logic: Logic, level: Level, pos: nat, mid: nat, end: nat,
                          l: Temporal, r: Option<Temporal>)
    requires pos < mid < end <= |toks| && Peek(toks, mid) == S(LevelSym(level)) && Peek(toks, end) != S(LevelSym(level))
    requires ParseTemporalLevel(toks, logic, level - 1, pos) == Parsed(l, mid)
    requires ParseTemporalLevel(toks, logic, if RightAssociative(level) then level else level - 1, mid + 1) == Outcome(r, end)
    ensures ParseTemporalLevel(toks, logic, level, pos) == Outcome(Join(LevelConn(level), Some(l), r), end)
  {
    if !RightAssociative(level) {
      if r.Some? {
        var node := Bin(LevelConn(level), l, r.value);
        assert ParseTemporalRest(toks, logic, level, node, end) == Parsed(node, end);
        assert ParseTemporalRest(toks, logic, level, l, mid) == Parsed(node, end);
      } else {
        assert ParseTemporalRest(toks, logic, level, l, mid) == NoParse;
      }
    }
  }

  lemma RaiseFormulaResult(toks: seq<Token>, logic: Logic, lo: nat, hi: nat, pos: nat, r: Option<Temporal>, end: nat)
    requires pos <= |toks| && lo <= hi <= 4 && ParseTemporalLevel(toks, logic, lo, pos) == Outcome(r, end)
    requires r.Some? ==> !(lo < JoinLevel(Peek(toks, end)) <= hi)
    ensures ParseTemporalLevel(toks, logic, hi, pos) == Outcome(r, end)
  {
    RaiseFormula(toks, logic, lo, hi, pos);
  }

  /** A unary formula that no infix `U` follows is one at the lowest level. */
  lemma UnaryIsLowest(toks: seq<Token>, logic: Logic, pos: nat, r: Option<Temporal>, end: nat)
    requires pos <= |toks| && ParseUnary(toks, logic, pos) == Outcome(r, end)
    requires r.Some? && logic == LTL ==> Peek(toks, end) != K(UntilWord)
    ensures ParseTemporalLevel(toks, logic, 0, pos) == Outcome(r, end)
  {
    assert ParseUntil(toks, logic, pos) == Outcome(r, end);
  }

  lemma JoinFormulaFromBelow(toks: seq<Token>, logic: Logic, level: Level, pos: nat, mid: nat, end: nat,
                             l: Temporal, r: Option<Temporal>)
    requires pos < mid < end <= |toks| && Peek(toks, mid) == S(LevelSym(level)) && JoinLevel(Peek(toks, end)) == 0
    requires ParseTemporalLevel(toks, logic, 0, pos) == Parsed(l, mid)
    requires ParseTemporalLevel(toks, logic, 0, mid + 1) == Outcome(r, end)
    ensures ParseTemporalLevel(toks, logic, level, pos) == Outcome(Join(LevelConn(level), Some(l), r), end)
  {
    RaiseFormulaResult(toks, logic, 0, level - 1, pos, Some(l), mid);
    RaiseFormulaResult(toks, logic, 0, if RightAssociative(level) then level else level - 1, mid + 1, r, end);
    JoinFormulaParses(toks, logic, level, pos, mid, end, l, r);
  }

  /** `l c r` for the connective of a level, in front of a token that ends an operand. */
  lemma ConnectiveParses(toks: seq<Token>, logic: Logic, pos: nat, level: Level, mid: nat, end: nat,
                         l: Option<Temporal>, r: Option<Temporal>)
    requires pos < mid < end <= |toks| && Peek(toks, mid) == S(LevelSym(level)) && Stops(logic, Peek(toks, end))
    requires ParseUnary(toks, logic, pos) == Outcome(l, mid) && ParseUnary(toks, logic, mid + 1) == Outcome(r, end)
    ensures ParseTemporal(toks, logic, pos) == Outcome(Join(LevelConn(level), l, r), end)
  {
    UnaryIsLowest(toks, logic, pos, l, mid);
    if l.None? {
      RaiseFormulaResult(toks, logic, 0, 4, pos, None, end);
    } else {
      UnaryIsLowest(toks, logic, mid + 1, r, end);
      JoinFormulaFromBelow(toks, logic, level, pos, mid, end, l.value, r);
      RaiseFormulaResult(toks, logic, level, 4, pos, Join(LevelConn(level), l, r), end);
    }
  }

  lemma UntilParses(toks: seq<Token>, pos: nat, mid: nat, end: nat, l: Option<Temporal>, r: Option<Temporal>)
    requires pos < mid < end <= |toks| && Peek(toks, mid) == K(UntilWord)
    requires ParseUnary(toks, LTL, pos) == Outcome(l, mid) && ParseUnary(toks, LTL, mid + 1) == Outcome(r, end)
    requires JoinLevel(Peek(toks, end)) == 0
    ensures ParseTemporal(toks, LTL, pos) == Outcome(JoinUntil(U, l, r), end)
  {
    assert ParseTemporalLevel(toks, LTL, 0, pos) == ParseUntil(toks, LTL, pos) == Outcome(JoinUntil(U, l, r), end);
    RaiseFormula(toks, LTL, 0, 4, pos);
  }

  /** A parenthesised group; it fails when something other than `)` follows its formula. */
  lemma FormulaGroupParses(toks: seq<Token>, logic: Logic, pos: nat, inner: Option<Temporal>, end: nat)
    requires pos + 1 < end < |toks| && Peek(toks, pos) == S(LParen)
    requires ParseTemporal(toks, logic, pos + 1) == Outcome(inner, end)
    ensures ParseUnary(toks, logic, pos) == Outcome(if Peek(toks, end) == S(RParen) then inner else None, end + 1)
  {
  }

  lemma BangParses(toks: seq<Token>, logic: Logic, pos: nat, inner: Option<Temporal>, end: nat)
    requires pos < |toks| && Peek(toks, pos) == S(Bang) && ParseUnary(toks, logic, pos + 1) == Outcome(inner, end)
    ensures ParseUnary(toks, logic, pos) == Outcome(NotOf(inner), end)
  {
  }

  lemma PrefixParses(toks: seq<Token>, logic: Logic, pos: nat, op: PrefixOp, inner: Option<Temporal>, end: nat)
    requires pos < |toks| && Peek(toks, pos) == K(OpWord(op)) && Belongs(logic, op)
    requires ParseUnary(toks, logic, pos + 1) == Outcome(inner, end)
    ensures ParseUnary(toks, logic, pos) == Outcome(PrefixOf(op, inner), end)
  {
  }

  /** A relation-level atom. */
  lemma AtomParses(toks: seq<Token>, logic: Logic, pos: nat, e: Option<Expr>, end: nat)
    requires pos < |toks| && ParseRelation(toks, pos) == Outcome(e, end)
    requires StartsAtom(Peek(toks, pos))
    ensures ParseUnary(toks, logic, pos) == Outcome(AtomOf(e), end)
  {
  }

  lemma BracketParses(toks: seq<Token>, pos: nat, op: UntilOp, mid: nat, end: nat, l: Option<Temporal>, r: Option<Temporal>)
    requires op != U && pos + 2 < mid < end < |toks| && Peek(toks, pos) == K(if op == AU then AWord else EWord)
    requires Peek(toks, pos + 1) == S(LBracket) && Peek(toks, mid) == K(UntilWord) && Peek(toks, end) == S(RBracket)
    requires ParseTemporal(toks, CTL, pos + 2) == Outcome(l, mid) && ParseTemporal(toks, CTL, mid + 1) == Outcome(r, end)
    ensures ParseUnary(toks, CTL, pos) == Outcome(JoinUntil(op, l, r), end + 1)
  {
    assert ParseBracket(toks, CTL, op, pos) == Outcome(JoinUntil(op, l, r), end + 1);
  }

  // ---- Readings of expressions: non-empty `xs` is read as `r` in every text, `None` being a refusal ----

  ghost predicate PrimaryReads(xs: seq<Token>, r: Option<Expr>) {
    && xs != []
    && forall toks: seq<Token>, pos: nat {:trigger At(toks, pos, xs)} ::
          At(toks, pos, xs) ==> ParsePrimary(toks, pos) == Outcome(r, pos + |xs|)
  }

  ghost predicate RelationReads(xs: seq<Token>, r: Option<Expr>) {
    && xs != []
    && forall toks: seq<Token>, pos: nat {:trigger At(toks, pos, xs)} ::
          At(toks, pos, xs) && !Continues(Peek(toks, pos + |xs|)) ==> ParseRelation(toks, pos) == Outcome(r, pos + |xs|)
  }

  ghost predicate NotReads(xs: seq<Token>, r: Option<Expr>) {
    && xs != []
    && forall toks: seq<Token>, pos: nat {:trigger At(toks, pos, xs)} ::
          At(toks, pos, xs) && !Continues(Peek(toks, pos + |xs|)) ==> ParseNot(toks, pos) == Outcome(r, pos + |xs|)
  }

  ghost predicate ExprReads(xs: seq<Token>, r: Option<Expr>) {
    && xs != []
    && forall toks: seq<Token>, pos: nat {:trigger At(toks, pos, xs)} ::
          At(toks, pos, xs) && !Continues(Peek(toks, pos + |xs|)) && JoinLevel(Peek(toks, pos + |xs|)) == 0 ==>
            ParseExpr(toks, pos) == Outcome(r, pos + |xs|)
  }

  /** `xs` includes the closing brace. */
  ghost predicate MembersRead(xs: seq<Token>, r: Option<seq<Prim>>) {
    forall toks: seq<Token>, pos: nat {:trigger At(toks, pos, xs)} ::
      At(toks, pos, xs) ==> ParseMembers(toks, pos) == Outcome(r, pos + |xs|)
  }

  /** `xs` includes the closing `esac`. */
  ghost predicate BranchesRead(xs: seq<Token>, r: Option<seq<Branch>>) {
    forall toks: seq<Token>, pos: nat {:trigger At(toks, pos, xs)} ::
      At(toks, pos, xs) ==> ParseBranches(toks, pos) == Outcome(r, pos + |xs|)
  }

  lemma WordReads(t: Token, e: Expr)
    requires match t
             case Name(name) => e == Ident(name)
             case Number(n) => e == IntLit(n)
             case K(word) => (word == TrueWord || word == FalseWord) && e == BoolLit(word == TrueWord)
             case _ => false
    ensures PrimaryReads([t], Some(e))
  {
    forall toks: seq<Token>, pos: nat | At(toks, pos, [t]) ensures ParsePrimary(toks, pos) == Parsed(e, pos + 1) {
      AtOne(toks, pos, t);
    }
  }

  lemma BangIsNoPrimary(xs: seq<Token>)
    requires xs != [] && xs[0] == S(Bang)
    ensures PrimaryReads(xs, None)
  {
    forall toks: seq<Token>, pos: nat | At(toks, pos, xs) ensures ParsePrimary(toks, pos) == NoParse {
      AtHead(toks, pos, xs);
    }
  }

  lemma PrimaryIsRelation(xs: seq<Token>, r: Option<Expr>)
    requires PrimaryReads(xs, r)
    ensures RelationReads(xs, r)
  {
    forall toks: seq<Token>, pos: nat | At(toks, pos, xs) && !Continues(Peek(toks, pos + |xs|))
      ensures ParseRelation(toks, pos) == Outcome(r, pos + |xs|)
    {
      JustPrimary(toks, pos, r, pos + |xs|);
    }
  }

  lemma RelationIsNot(xs: seq<Token>, r: Option<Expr>)
    requires RelationReads(xs, r) && xs[0] != S(Bang)
    ensures NotReads(xs, r)
  {
    forall toks: seq<Token>, pos: nat | At(toks, pos, xs) && !Continues(Peek(toks, pos + |xs|))
      ensures ParseNot(toks, pos) == Outcome(r, pos + |xs|)
    {
      AtHead(toks, pos, xs);
    }
  }

  lemma BangReads(xs: seq<Token>, r: Option<Expr>)
    requires NotReads(xs, r)
    ensures NotReads([S(Bang)] + xs, Negated(r))
  {
    forall toks: seq<Token>, pos: nat | At(toks, pos, [S(Bang)] + xs) && !Continues(Peek(toks, pos + |[S(Bang)] + xs|))
      ensures ParseNot(toks, pos) == Outcome(Negated(r), pos + |[S(Bang)] + xs|)
    {
      AtPrefix(toks, pos, S(Bang), xs);
      assert ParseNot(toks, pos + 1) == Outcome(r, pos + 1 + |xs|);
    }
  }

  lemma NotIsExpr(xs: seq<Token>, r: Option<Expr>)
    requires NotReads(xs, r)
    ensures ExprReads(xs, r)
  {
    forall toks: seq<Token>, pos: nat
      | At(toks, pos, xs) && !Continues(Peek(toks, pos + |xs|)) && JoinLevel(Peek(toks, pos + |xs|)) == 0
      ensures ParseExpr(toks, pos) == Outcome(r, pos + |xs|)
    {
      RaiseResult(toks, 0, 4, pos, r, pos + |xs|);
    }
  }

  /** A logical operator is the symbol of one level. */
  lemma LogicalSymbol(op: BinOp) returns (level: Level)
    requires Logical(op)
    ensures OpToken(op) == S(LevelSym(level)) && LevelOp(level) == op
  {
    level := JoinLevel(OpToken(op));
  }

  /** It is the token of its connective as well. */
  lemma LogicalToken(op: BinOp)
    requires Logical(op)
    ensures OpToken(op) == ConnToken(LogicalConn(op))
  {
  }

  lemma LogicalReads(op: BinOp, xs: seq<Token>, l: Option<Expr>, ys: seq<Token>, r: Option<Expr>)
    requires Logical(op) && NotReads(xs, l) && NotReads(ys, r)
    ensures ExprReads(xs + [OpToken(op)] + ys, Both(op, l, r))
  {
    var level := LogicalSymbol(op);
    LevelReads(level, xs, l, ys, r);
  }

  lemma LevelReads(level: Level, xs: seq<Token>, l: Option<Expr>, ys: seq<Token>, r: Option<Expr>)
    requires NotReads(xs, l) && NotReads(ys, r)
    ensures ExprReads(xs + [S(LevelSym(level))] + ys, Both(LevelOp(level), l, r))
  {
    var all := xs + [S(LevelSym(level))] + ys;
    forall toks: seq<Token>, pos: nat
      | At(toks, pos, all) && !Continues(Peek(toks, pos + |all|)) && JoinLevel(Peek(toks, pos + |all|)) == 0
      ensures ParseExpr(toks, pos) == Outcome(Both(LevelOp(level), l, r), pos + |all|)
    {
      AtInfix(toks, pos, xs, S(LevelSym(level)), ys);
      LogicalParses(toks, pos, level, pos + |xs|, pos + |all|, l, r);
    }
  }

  /** `l op r` for a sum, relation or membership; after `in` only a set literal is accepted. */
  lemma ArithReads(op: BinOp, xs: seq<Token>, l: Option<Expr>, ys: seq<Token>, r: Option<Expr>)
    requires !Logical(op) && PrimaryReads(xs, l) && PrimaryReads(ys, r)
    ensures RelationReads(xs + [OpToken(op)] + ys, if op == In && ys[0] != S(LBrace) then None else Both(op, l, r))
  {
    var all := xs + [OpToken(op)] + ys;
    forall toks: seq<Token>, pos: nat | At(toks, pos, all) && !Continues(Peek(toks, pos + |all|))
      ensures ParseRelation(toks, pos) ==
              Outcome(if op == In && ys[0] != S(LBrace) then None else Both(op, l, r), pos + |all|)
    {
      AtInfix(toks, pos, xs, OpToken(op), ys);
      AtHead(toks, pos + |xs| + 1, ys);
      ArithParses(toks, pos, op, pos + |xs|, pos + |all|, l, r);
    }
  }

  lemma GroupReads(xs: seq<Token>, r: Option<Expr>)
    requires ExprReads(xs, r)
    ensures PrimaryReads([S(LParen)] + xs + [S(RParen)], r)
  {
    forall toks: seq<Token>, pos: nat | At(toks, pos, [S(LParen)] + xs + [S(RParen)])
      ensures ParsePrimary(toks, pos) == Outcome(r, pos + |xs| + 2)
    {
      AtFenced(toks, pos, S(LParen), xs, S(RParen));
    }
  }

  lemma SetReads(xs: seq<Token>, r: Option<seq<Prim>>)
    requires MembersRead(xs, r)
    ensures PrimaryReads([S(LBrace)] + xs, match r case Some(values) => Some(SetLit(values)) case None => None)
  {
    forall toks: seq<Token>, pos: nat | At(toks, pos, [S(LBrace)] + xs)
      ensures ParsePrimary(toks, pos) ==
              Outcome(match r case Some(values) => Some(SetLit(values)) case None => None, pos + |[S(LBrace)] + xs|)
    {
      AtPrefix(toks, pos, S(LBrace), xs);
    }
  }

  lemma NoMembersRead()
    ensures MembersRead([S(RBrace)], Some([]))
  {
    forall toks: seq<Token>, pos: nat | At(toks, pos, [S(RBrace)])
      ensures ParseMembers(toks, pos) == Parsed([], pos + 1)
    {
      AtOne(toks, pos, S(RBrace));
    }
  }

  /** A printed member; a minus sign is refused. */
  ghost function Member(p: Prim): Option<Prim> {
    if p.Num? && p.n < 0 then None else Some(p)
  }

  lemma MemberStarts(toks: seq<Token>, pos: nat, p: Prim, t: Token)
    requires At(toks, pos, PrintPrim(p) + [t])
    ensures Member(p).Some? ==> IsMember(Peek(toks, pos)) && MemberOf(Peek(toks, pos)) == p && Peek(toks, pos + 1) == t
    ensures Member(p).Some? ==> |PrintPrim(p)| == 1
    ensures Member(p).None? ==> Peek(toks, pos) == S(Minus)
  {
    AtHead(toks, pos, PrintPrim(p) + [t]);
    AtSplit(toks, pos, PrintPrim(p), [t]);
    AtOne(toks, pos + |PrintPrim(p)|, t);
  }

  lemma LastMemberReads(p: Prim)
    ensures MembersRead(PrintPrim(p) + [S(RBrace)], match Member(p) case Some(m) => Some([m]) case None => None)
  {
    forall toks: seq<Token>, pos: nat | At(toks, pos, PrintPrim(p) + [S(RBrace)])
      ensures ParseMembers(toks, pos) ==
              Outcome(match Member(p) case Some(m) => Some([m]) case None => None, pos + |PrintPrim(p) + [S(RBrace)]|)
    {
      MemberStarts(toks, pos, p, S(RBrace));
    }
  }

  ghost function JoinMembers(p: Prim, rest: Option<seq<Prim>>): Option<seq<Prim>> {
    if Member(p).Some? && rest.Some? then Some([p] + rest.value) else None
  }

  lemma MemberReads(p: Prim, xs: seq<Token>, rest: Option<seq<Prim>>)
    requires MembersRead(xs, rest)
    ensures MembersRead(PrintPrim(p) + [S(Comma)] + xs, JoinMembers(p, rest))
  {
    var first := PrintPrim(p) + [S(Comma)];
    forall toks: seq<Token>, pos: nat | At(toks, pos, first + xs)
      ensures ParseMembers(toks, pos) == Outcome(JoinMembers(p, rest), pos + |first + xs|)
    {
      AtSplit(toks, pos, first, xs);
      MemberStarts(toks, pos, p, S(Comma));
    }
  }

  lemma CaseReads(xs: seq<Token>, r: Option<seq<Branch>>)
    requires BranchesRead(xs, r)
    ensures PrimaryReads([K(CaseWord)] + xs, match r case Some(bs) => Some(Case(bs)) case None => None)
  {
    forall toks: seq<Token>, pos: nat | At(toks, pos, [K(CaseWord)] + xs)
      ensures ParsePrimary(toks, pos) ==
              Outcome(match r case Some(bs) => Some(Case(bs)) case None => None, pos + |[K(CaseWord)] + xs|)
    {
      AtPrefix(toks, pos, K(CaseWord), xs);
    }
  }

  lemma NoBranchesRead()
    ensures BranchesRead([K(EsacWord)], Some([]))
  {
    forall toks: seq<Token>, pos: nat | At(toks, pos, [K(EsacWord)])
      ensures ParseBranches(toks, pos) == Parsed([], pos + 1)
    {
      AtOne(toks, pos, K(EsacWord));
    }
  }

  lemma BranchReads(xs: seq<Token>, g: Option<Expr>, ys: seq<Token>, v: Option<Expr>, zs: seq<Token>, rest: Option<seq<Branch>>)
    requires ExprReads(xs, g) && xs[0] != K(EsacWord) && ExprReads(ys, v) && BranchesRead(zs, rest)
    ensures BranchesRead(xs + [S(Colon)] + (ys + [S(Semi)] + zs), JoinBranches(g, v, rest))
  {
    var all := xs + [S(Colon)] + (ys + [S(Semi)] + zs);
    forall toks: seq<Token>, pos: nat | At(toks, pos, all)
      ensures ParseBranches(toks, pos) == Outcome(JoinBranches(g, v, rest), pos + |all|)
    {
      var mid, last := BranchWindows(toks, pos, xs, ys, zs);
      BranchParses(toks, pos, mid, last, pos + |all|, g, v, rest);
    }
  }

  lemma BranchWindows(toks: seq<Token>, pos: nat, xs: seq<Token>, ys: seq<Token>, zs: seq<Token>) returns (mid: nat, last: nat)
    requires At(toks, pos, xs + [S(Colon)] + (ys + [S(Semi)] + zs))
    ensures mid == pos + |xs| && At(toks, pos, xs) && Peek(toks, mid) == S(Colon)
    ensures last == mid + 1 + |ys| && At(toks, mid + 1, ys) && Peek(toks, last) == S(Semi)
    ensures last < |toks| && At(toks, last + 1, zs)
    ensures xs != [] ==> Peek(toks, pos) == xs[0]
  {
    mid := pos + |xs|;
    last := mid + 1 + |ys|;
    AtInfix(toks, pos, xs, S(Colon), ys + [S(Semi)] + zs);
    AtInfix(toks, mid + 1, ys, S(Semi), zs);
    if xs != [] {
      AtHead(toks, pos, xs);
    }
  }

  // ---- Readings of formulas ------------------------------------------------------------------------------

  /** Whatever follows. */
  ghost predicate ClosedReads(logic: Logic, xs: seq<Token>, r: Option<Temporal>) {
    && xs != []
    && forall toks: seq<Token>, pos: nat {:trigger At(toks, pos, xs)} ::
          At(toks, pos, xs) ==> ParseUnary(toks, logic, pos) == Outcome(r, pos + |xs|)
  }

  ghost predicate UnaryReads(logic: Logic, xs: seq<Token>, r: Option<Temporal>) {
    && xs != []
    && forall toks: seq<Token>, pos: nat {:trigger At(toks, pos, xs)} ::
          At(toks, pos, xs) && !Continues(Peek(toks, pos + |xs|)) ==> ParseUnary(toks, logic, pos) == Outcome(r, pos + |xs|)
  }

  ghost predicate TemporalReads(logic: Logic, xs: seq<Token>, r: Option<Temporal>) {
    && xs != []
    && forall toks: seq<Token>, pos: nat {:trigger At(toks, pos, xs)} ::
          At(toks, pos, xs) && !Continues(Peek(toks, pos + |xs|)) && Stops(logic, Peek(toks, pos + |xs|)) ==>
            ParseTemporal(toks, logic, pos) == Outcome(r, pos + |xs|)
  }

  lemma ClosedIsUnary(logic: Logic, xs: seq<Token>, r: Option<Temporal>)
    requires ClosedReads(logic, xs, r)
    ensures UnaryReads(logic, xs, r)
  {
  }

  lemma UnaryIsFormula(logic: Logic, xs: seq<Token>, r: Option<Temporal>)
    requires UnaryReads(logic, xs, r)
    ensures TemporalReads(logic, xs, r)
  {
    forall toks: seq<Token>, pos: nat
      | At(toks, pos, xs) && !Continues(Peek(toks, pos + |xs|)) && Stops(logic, Peek(toks, pos + |xs|))
      ensures ParseTemporal(toks, logic, pos) == Outcome(r, pos + |xs|)
    {
      UnaryIsTemporal(toks, logic, pos, r, pos + |xs|);
    }
  }

  lemma AtomReads(logic: Logic, xs: seq<Token>, r: Option<Expr>)
    requires RelationReads(xs, r) && StartsAtom(xs[0])
    ensures UnaryReads(logic, xs, AtomOf(r))
  {
    forall toks: seq<Token>, pos: nat | At(toks, pos, xs) && !Continues(Peek(toks, pos + |xs|))
      ensures ParseUnary(toks, logic, pos) == Outcome(AtomOf(r), pos + |xs|)
    {
      AtHead(toks, pos, xs);
      AtomParses(toks, logic, pos, r, pos + |xs|);
    }
  }

  lemma NotFormulaReads(logic: Logic, xs: seq<Token>, r: Option<Temporal>)
    requires UnaryReads(logic, xs, r)
    ensures UnaryReads(logic, [S(Bang)] + xs, NotOf(r))
  {
    forall toks: seq<Token>, pos: nat | At(toks, pos, [S(Bang)] + xs) && !Continues(Peek(toks, pos + |[S(Bang)] + xs|))
      ensures ParseUnary(toks, logic, pos) == Outcome(NotOf(r), pos + |[S(Bang)] + xs|)
    {
      AtPrefix(toks, pos, S(Bang), xs);
      BangParses(toks, logic, pos, r, pos + 1 + |xs|);
    }
  }

  lemma NotClosedReads(logic: Logic, xs: seq<Token>, r: Option<Temporal>)
    requires ClosedReads(logic, xs, r)
    ensures ClosedReads(logic, [S(Bang)] + xs, NotOf(r))
  {
    forall toks: seq<Token>, pos: nat | At(toks, pos, [S(Bang)] + xs)
      ensures ParseUnary(toks, logic, pos) == Outcome(NotOf(r), pos + |[S(Bang)] + xs|)
    {
      AtPrefix(toks, pos, S(Bang), xs);
      BangParses(toks, logic, pos, r, pos + 1 + |xs|);
    }
  }

  lemma PrefixReads(logic: Logic, op: PrefixOp, xs: seq<Token>, r: Option<Temporal>)
    requires Belongs(logic, op) && UnaryReads(logic, xs, r)
    ensures UnaryReads(logic, [K(OpWord(op))] + xs, PrefixOf(op, r))
  {
    var all := [K(OpWord(op))] + xs;
    forall toks: seq<Token>, pos: nat | At(toks, pos, all) && !Continues(Peek(toks, pos + |all|))
      ensures ParseUnary(toks, logic, pos) == Outcome(PrefixOf(op, r), pos + |all|)
    {
      AtPrefix(toks, pos, K(OpWord(op)), xs);
      PrefixParses(toks, logic, pos, op, r, pos + |all|);
    }
  }

  lemma ConnectiveSymbol(c: Connective) returns (level: Level)
    ensures ConnToken(c) == S(LevelSym(level)) && LevelConn(level) == c
  {
    level := JoinLevel(ConnToken(c));
  }

  lemma ConnectiveReads(logic: Logic, c: Connective, xs: seq<Token>, l: Option<Temporal>, ys: seq<Token>, r: Option<Temporal>)
    requires UnaryReads(logic, xs, l) && UnaryReads(logic, ys, r)
    ensures TemporalReads(logic, xs + [ConnToken(c)] + ys, Join(c, l, r))
  {
    var level := ConnectiveSymbol(c);
    FormulaLevelReads(logic, level, xs, l, ys, r);
  }

  lemma FormulaLevelReads(logic: Logic, level: Level, xs: seq<Token>, l: Option<Temporal>, ys: seq<Token>, r: Option<Temporal>)
    requires UnaryReads(logic, xs, l) && UnaryReads(logic, ys, r)
    ensures TemporalReads(logic, xs + [S(LevelSym(level))] + ys, Join(LevelConn(level), l, r))
  {
    var all := xs + [S(LevelSym(level))] + ys;
    forall toks: seq<Token>, pos: nat
      | At(toks, pos, all) && !Continues(Peek(toks, pos + |all|)) && Stops(logic, Peek(toks, pos + |all|))
      ensures ParseTemporal(toks, logic, pos) == Outcome(Join(LevelConn(level), l, r), pos + |all|)
    {
      AtInfix(toks, pos, xs, S(LevelSym(level)), ys);
      ConnectiveParses(toks, logic, pos, level, pos + |xs|, pos + |all|, l, r);
    }
  }

  lemma UntilReads(xs: seq<Token>, l: Option<Temporal>, ys: seq<Token>, r: Option<Temporal>)
    requires UnaryReads(LTL, xs, l) && UnaryReads(LTL, ys, r)
    ensures TemporalReads(LTL, xs + [K(UntilWord)] + ys, JoinUntil(U, l, r))
  {
    var all := xs + [K(UntilWord)] + ys;
    forall toks: seq<Token>, pos: nat
      | At(toks, pos, all) && !Continues(Peek(toks, pos + |all|)) && Stops(LTL, Peek(toks, pos + |all|))
      ensures ParseTemporal(toks, LTL, pos) == Outcome(JoinUntil(U, l, r), pos + |all|)
    {
      AtInfix(toks, pos, xs, K(UntilWord), ys);
      UntilParses(toks, pos, pos + |xs|, pos + |all|, l, r);
    }
  }

  lemma FormulaGroupReads(logic: Logic, xs: seq<Token>, r: Option<Temporal>)
    requires TemporalReads(logic, xs, r)
    ensures ClosedReads(logic, [S(LParen)] + xs + [S(RParen)], r)
  {
    forall toks: seq<Token>, pos: nat | At(toks, pos, [S(LParen)] + xs + [S(RParen)])
      ensures ParseUnary(toks, logic, pos) == Outcome(r, pos + |xs| + 2)
    {
      AtFenced(toks, pos, S(LParen), xs, S(RParen));
      FormulaGroupParses(toks, logic, pos, r, pos + 1 + |xs|);
    }
  }

  /** A group whose formula is followed by an arithmetic operator is refused. */
  lemma BrokenGroupReads(logic: Logic, op: BinOp, xs: seq<Token>, l: Option<Temporal>, ys: seq<Token>)
    requires !Logical(op) && ClosedReads(logic, xs, l)
    ensures ClosedReads(logic, [S(LParen)] + (xs + [OpToken(op)] + ys) + [S(RParen)], None)
  {
    var inner := xs + [OpToken(op)] + ys;
    forall toks: seq<Token>, pos: nat | At(toks, pos, [S(LParen)] + inner + [S(RParen)])
      ensures ParseUnary(toks, logic, pos) == NoParse
    {
      AtFenced(toks, pos, S(LParen), inner, S(RParen));
      AtInfix(toks, pos + 1, xs, OpToken(op), ys);
      UnaryIsTemporal(toks, logic, pos + 1, l, pos + 1 + |xs|);
      FormulaGroupParses(toks, logic, pos, l, pos + 1 + |xs|);
    }
  }

  lemma BracketReads(op: UntilOp, xs: seq<Token>, l: Option<Temporal>, ys: seq<Token>, r: Option<Temporal>)
    requires op != U && TemporalReads(CTL, xs, l) && TemporalReads(CTL, ys, r)
    ensures ClosedReads(CTL, [K(if op == AU then AWord else EWord), S(LBracket)] + xs + [K(UntilWord)] + ys + [S(RBracket)],
                        JoinUntil(op, l, r))
  {
    var q := K(if op == AU then AWord else EWord);
    var all := [q, S(LBracket)] + xs + [K(UntilWord)] + ys + [S(RBracket)];
    forall toks: seq<Token>, pos: nat | At(toks, pos, all)
      ensures ParseUnary(toks, CTL, pos) == Outcome(JoinUntil(op, l, r), pos + |all|)
    {
      BracketWindows(toks, pos, q, xs, ys);
      BracketParses(toks, pos, op, pos + 2 + |xs|, pos + 3 + |xs| + |ys|, l, r);
    }
  }
}
