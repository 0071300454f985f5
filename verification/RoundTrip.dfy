/** What re-parsing a printed formula yields, for every formula; and exactly when it is the formula itself. */
module RoundTrip {
  import opened Prelude
  import opened Syntax
  import opened Kripke
  import opened Grammar
  import opened Reading

  // ---- The reread expression ------------------------------------------------------------

  predicate Unsigned(values: seq<Prim>) {
    forall p :: p in values ==> p.Num? ==> p.n >= 0
  }

  /** A right operand the relation and sum parsers accept. */
  predicate Operand(op: BinOp, r: Expr) {
    if op == In then r.SetLit? else !r.Negate?
  }

  /** The expression below all leading `!`. */
  function Core(e: Expr): (c: Expr)
    ensures !c.Negate? && (c == e || c < e)
  {
    if e.Negate? then Core(e.operand) else e
  }

  /** `x` under the leading `!`s of `e`. */
  function Rewrap(e: Expr, x: Expr): Expr {
    if e.Negate? then Negate(Rewrap(e.operand, x)) else x
  }

  /** What `parseExpr` makes of a printed expression: a leading `!` of an operand moves around the whole. */
  function Reread(e: Expr): Option<Expr>
    decreases e, 1
  {
    match e
    case Ident(_) => Some(e)
    case IntLit(_) => Some(e)
    case BoolLit(_) => Some(e)
    case SetLit(values) => if Unsigned(values) then Some(e) else None
    case Negate(x) => (match Reread(x) case Some(n) => Some(Negate(n)) case None => None)
    case Case(branches) => (match RereadBranches(branches) case Some(bs) => Some(Case(bs)) case None => None)
    case Binary(op, l, r) =>
      if Logical(op) then Both(op, Reread(l), Reread(r))
      else
        assert Core(l) < e;
        RewrapAll(l, RereadArith(op, Reread(Core(l)), r, Reread(r)))
  }

  function RewrapAll(l: Expr, r: Option<Expr>): Option<Expr> {
    match r
    case Some(n) => Some(Rewrap(l, n))
    case None => None
  }

  function RereadArith(op: BinOp, core: Option<Expr>, r: Expr, reread: Option<Expr>): Option<Expr> {
    if Operand(op, r) then Both(op, core, reread) else None
  }

  function RereadBranches(branches: seq<Branch>): Option<seq<Branch>>
    decreases branches, 0
  {
    if branches == [] then Some([])
    else
      assert branches[0].guard < branches[0] && branches[0].value < branches[0];
      JoinBranches(Reread(branches[0].guard), Reread(branches[0].value), RereadBranches(branches[1..]))
  }

  // ---- The reread formula ------------------------------------------------------------------

  function RewrapAtom(e: Expr, f: Temporal): Temporal {
    if e.Negate? then Not(RewrapAtom(e.operand, f)) else f
  }

  function RewrapAtomAll(l: Expr, r: Option<Expr>): Option<Temporal> {
    match AtomOf(r)
    case Some(f) => Some(RewrapAtom(l, f))
    case None => None
  }

  /** Connectives and `!` of an atom become temporal ones; a parenthesised left operand is an error. */
  function RereadAtom(e: Expr): Option<Temporal> {
    match e
    case Negate(x) => (match RereadAtom(x) case Some(g) => Some(Not(g)) case None => None)
    case Binary(op, l, r) =>
      if Logical(op) then Join(LogicalConn(op), RereadAtom(l), RereadAtom(r))
      else if Core(l).Binary? then None
      else RewrapAtomAll(l, RereadArith(op, Reread(Core(l)), r, Reread(r)))
    case _ => (match Reread(e) case Some(n) => Some(Atom(n)) case None => None)
  }

  function RereadFormula(f: Temporal): Option<Temporal> {
    match f
    case Atom(e) => RereadAtom(e)
    case Not(g) => (match RereadFormula(g) case Some(n) => Some(Not(n)) case None => None)
    case Bin(c, l, r) => Join(c, RereadFormula(l), RereadFormula(r))
    case Prefix(op, g) => (match RereadFormula(g) case Some(n) => Some(Prefix(op, n)) case None => None)
    case Until(op, l, r) => JoinUntil(op, RereadFormula(l), RereadFormula(r))
  }

  // ---- Formulas that survive ------------------------------------------------------------------

  /** No relation or sum has a negated operand, set members are unsigned, `in` has a set on its right. */
  predicate Stable(e: Expr)
    decreases e, 1
  {
    match e
    case SetLit(values) => Unsigned(values)
    case Negate(x) => Stable(x)
    case Case(branches) => StableBranches(branches)
    case Binary(op, l, r) => Stable(l) && Stable(r) && (Logical(op) || (!l.Negate? && Operand(op, r)))
    case _ => true
  }

  predicate StableBranches(branches: seq<Branch>)
    decreases branches, 0
  {
    branches == [] ||
    (assert branches[0].guard < branches[0] && branches[0].value < branches[0];
     Stable(branches[0].guard) && Stable(branches[0].value) && StableBranches(branches[1..]))
  }

  /** An atom is an unparenthesised primary, or one relation or sum whose left operand is one. */
  predicate PrintableAtom(e: Expr) {
    && Stable(e) && !e.Negate?
    && (e.Binary? ==> !Logical(e.op) && !e.left.Binary?)
  }

  predicate Printable(f: Temporal) {
    match f
    case Atom(e) => PrintableAtom(e)
    case Not(g) => Printable(g)
    case Bin(_, l, r) => Printable(l) && Printable(r)
    case Prefix(_, g) => Printable(g)
    case Until(_, l, r) => Printable(l) && Printable(r)
  }

  lemma {:induction false} RereadFixed(e: Expr)
    ensures Reread(e) == Some(e) <==> Stable(e)
    decreases e, 1
  {
    match e
    case Negate(x) => RereadFixed(x);
    case Case(branches) => RereadBranchesFixed(branches);
    case Binary(op, l, r) =>
      RereadFixed(l);
      RereadFixed(r);
    case _ =>
  }

  lemma {:induction false} RereadBranchesFixed(branches: seq<Branch>)
    ensures RereadBranches(branches) == Some(branches) <==> StableBranches(branches)
    decreases branches, 0
  {
    if branches != [] {
      assert branches[0].guard < branches[0] && branches[0].value < branches[0];
      RereadFixed(branches[0].guard);
      RereadFixed(branches[0].value);
      RereadBranchesFixed(branches[1..]);
      assert branches == [Branch(branches[0].guard, branches[0].value)] + branches[1..];
      assert forall b: Branch, bs: seq<Branch> :: [b] + bs == branches ==> b == branches[0] && bs == branches[1..] by {
        forall b: Branch, bs: seq<Branch> | [b] + bs == branches
          ensures b == branches[0] && bs == branches[1..]
        {
          assert ([b] + bs)[0] == b && ([b] + bs)[1..] == bs;
        }
      }
    }
  }

  lemma {:induction false} RereadFormulaFixed(f: Temporal)
    ensures RereadFormula(f) == Some(f) <==> Printable(f)
  {
    match f
    case Atom(e) =>
      RereadFixed(e);
      if e.Binary? {
        RereadFixed(e.left);
        RereadFixed(e.right);
      }
    case Not(g) => RereadFormulaFixed(g);
    case Bin(_, l, r) => RereadFormulaFixed(l); RereadFormulaFixed(r);
    case Prefix(_, g) => RereadFormulaFixed(g);
    case Until(_, l, r) => RereadFormulaFixed(l); RereadFormulaFixed(r);
  }

  // ---- Expressions -----------------------------------------------------------------------------------

  /** The first token of a printed expression. */
  lemma PrintStarts(e: Expr)
    ensures PrintExpr(e) != []
    ensures PrintExpr(e)[0] == S(LBrace) <==> e.SetLit?
    ensures PrintExpr(e)[0] == S(Bang) <==> e.Negate?
    ensures PrintExpr(e)[0] != K(EsacWord)
    ensures !e.Negate? && !e.Binary? ==> StartsAtom(PrintExpr(e)[0])
  {
  }

  ghost function Members(values: seq<Prim>): Option<seq<Prim>> {
    if Unsigned(values) then Some(values) else None
  }

  lemma MembersStep(values: seq<Prim>)
    requires values != []
    ensures Members(values) == JoinMembers(values[0], Members(values[1..]))
  {
    assert values == [values[0]] + values[1..];
  }

  lemma {:induction false} MembersPrint(values: seq<Prim>)
    ensures MembersRead(PrintMembers(values) + [S(RBrace)], Members(values))
  {
    if values == [] {
      NoMembersRead();
    } else if |values| == 1 {
      assert values == [values[0]];
      LastMemberReads(values[0]);
    } else {
      var rest := PrintMembers(values[1..]) + [S(RBrace)];
      MembersPrint(values[1..]);
      MemberReads(values[0], rest, Members(values[1..]));
      MembersStep(values);
      assert PrintMembers(values) + [S(RBrace)] == PrintPrim(values[0]) + [S(Comma)] + rest;
    }
  }

  lemma SetPrints(values: seq<Prim>)
    ensures PrimaryReads(PrintExpr(SetLit(values)), Reread(SetLit(values)))
  {
    MembersPrint(values);
    SetReads(PrintMembers(values) + [S(RBrace)], Members(values));
    assert PrintExpr(SetLit(values)) == [S(LBrace)] + (PrintMembers(values) + [S(RBrace)]);
  }

  /** An expression that does not start with `!` is one primary, whatever follows. */
  lemma {:induction false} PrimaryPrints(e: Expr)
    requires !e.Negate?
    ensures PrimaryReads(PrintExpr(e), Reread(e))
    decreases e, 1
  {
    match e
    case SetLit(values) => SetPrints(values);
    case Case(branches) => CasePrints(branches);
    case Binary(op, l, r) => GroupPrints(op, l, r);
    case Ident(name) => WordReads(Name(name), e);
    case IntLit(n) => WordReads(Number(n), e);
    case BoolLit(b) => WordReads(K(if b then TrueWord else FalseWord), e);
  }

  lemma {:induction false} CasePrints(branches: seq<Branch>)
    ensures PrimaryReads(PrintExpr(Case(branches)), Reread(Case(branches)))
    decreases Case(branches), 0
  {
    BranchesPrint(branches);
    CaseReads(PrintBranches(branches) + [K(EsacWord)], RereadBranches(branches));
    assert PrintExpr(Case(branches)) == [K(CaseWord)] + (PrintBranches(branches) + [K(EsacWord)]);
  }

  lemma {:induction false} BranchesPrint(branches: seq<Branch>)
    ensures BranchesRead(PrintBranches(branches) + [K(EsacWord)], RereadBranches(branches))
    decreases branches, 0
  {
    if branches == [] {
      NoBranchesRead();
    } else {
      var b, rest := branches[0], PrintBranches(branches[1..]) + [K(EsacWord)];
      assert b.guard < b && b.value < b;
      PrintStarts(b.guard);
      ExprPrints(b.guard);
      ExprPrints(b.value);
      BranchesPrint(branches[1..]);
      BranchReads(PrintExpr(b.guard), Reread(b.guard), PrintExpr(b.value), Reread(b.value), rest, RereadBranches(branches[1..]));
      BranchesShape(branches);
    }
  }

  lemma BranchesShape(branches: seq<Branch>)
    requires branches != []
    ensures var rest := PrintBranches(branches[1..]) + [K(EsacWord)];
            PrintBranches(branches) + [K(EsacWord)] ==
            PrintExpr(branches[0].guard) + [S(Colon)] + (PrintExpr(branches[0].value) + [S(Semi)] + rest)
  {
  }

  lemma {:induction false} NotPrints(e: Expr)
    ensures NotReads(PrintExpr(e), Reread(e))
    decreases e, 2
  {
    PrintStarts(e);
    if e.Negate? {
      NotPrints(e.operand);
      BangReads(PrintExpr(e.operand), Reread(e.operand));
    } else {
      PrimaryPrints(e);
      PrimaryIsRelation(PrintExpr(e), Reread(e));
      RelationIsNot(PrintExpr(e), Reread(e));
    }
  }

  lemma {:induction false} ExprPrints(e: Expr)
    ensures ExprReads(PrintExpr(e), Reread(e))
    decreases e, 3
  {
    NotPrints(e);
    NotIsExpr(PrintExpr(e), Reread(e));
  }

  lemma {:induction false} GroupPrints(op: BinOp, l: Expr, r: Expr)
    ensures PrimaryReads(PrintExpr(Binary(op, l, r)), Reread(Binary(op, l, r)))
    decreases Binary(op, l, r), 0
  {
    var inner := PrintExpr(l) + [OpToken(op)] + PrintExpr(r);
    assert PrintExpr(Binary(op, l, r)) == [S(LParen)] + inner + [S(RParen)];
    if Logical(op) {
      LogicalPrints(op, l, r);
      GroupReads(inner, Both(op, Reread(l), Reread(r)));
    } else {
      ArithPrints(op, l, r);
      GroupReads(inner, RewrapAll(l, RereadArith(op, Reread(Core(l)), r, Reread(r))));
    }
  }

  lemma {:induction false} LogicalPrints(op: BinOp, l: Expr, r: Expr)
    requires Logical(op)
    ensures ExprReads(PrintExpr(l) + [OpToken(op)] + PrintExpr(r), Both(op, Reread(l), Reread(r)))
    decreases Binary(op, l, r), 0, 0
  {
    NotPrints(l);
    NotPrints(r);
    LogicalReads(op, PrintExpr(l), Reread(l), PrintExpr(r), Reread(r));
  }

  /** An operand position of a sum or relation: a leading `!` is refused. */
  lemma {:induction false} RightOperand(r: Expr)
    ensures PrimaryReads(PrintExpr(r), if r.Negate? then None else Reread(r))
    decreases r, 2
  {
    PrintStarts(r);
    if r.Negate? {
      BangIsNoPrimary(PrintExpr(r));
    } else {
      PrimaryPrints(r);
    }
  }

  lemma PlainArith(op: BinOp, l: Expr, r: Expr)
    requires !Logical(op) && PrimaryReads(PrintExpr(l), Reread(l))
    requires PrimaryReads(PrintExpr(r), if r.Negate? then None else Reread(r))
    ensures RelationReads(PrintExpr(l) + [OpToken(op)] + PrintExpr(r), RereadArith(op, Reread(l), r, Reread(r)))
  {
    PrintStarts(r);
    ArithReads(op, PrintExpr(l), Reread(l), PrintExpr(r), if r.Negate? then None else Reread(r));
  }

  /** Leading `!`s of the left operand are read before the relation they were printed inside. */
  lemma {:induction false} BangsFirst(l: Expr, tail: seq<Token>, n: Option<Expr>)
    requires RelationReads(PrintExpr(Core(l)) + tail, n)
    ensures NotReads(PrintExpr(l) + tail, RewrapAll(l, n))
  {
    PrintStarts(l);
    if l.Negate? {
      BangsFirst(l.operand, tail, n);
      BangReads(PrintExpr(l.operand) + tail, RewrapAll(l.operand, n));
      assert PrintExpr(l) + tail == [S(Bang)] + (PrintExpr(l.operand) + tail);
    } else {
      RelationIsNot(PrintExpr(l) + tail, n);
    }
  }

  lemma {:induction false} ArithPrints(op: BinOp, l: Expr, r: Expr)
    requires !Logical(op)
    ensures ExprReads(PrintExpr(l) + [OpToken(op)] + PrintExpr(r), RewrapAll(l, RereadArith(op, Reread(Core(l)), r, Reread(r))))
    decreases Binary(op, l, r), 0, 0
  {
    var n := RereadArith(op, Reread(Core(l)), r, Reread(r));
    PrimaryPrints(Core(l));
    RightOperand(r);
    PlainArith(op, Core(l), r);
    Regroup(PrintExpr(Core(l)), OpToken(op), PrintExpr(r));
    BangsFirst(l, [OpToken(op)] + PrintExpr(r), n);
    Regroup(PrintExpr(l), OpToken(op), PrintExpr(r));
    NotIsExpr(PrintExpr(l) + [OpToken(op)] + PrintExpr(r), RewrapAll(l, n));
  }

  lemma Regroup(xs: seq<Token>, t: Token, ys: seq<Token>)
    ensures xs + ([t] + ys) == xs + [t] + ys
  {
  }

  // ---- Formulas ----------------------------------------------------------------------------------------

  predicate InLogic(logic: Logic, f: Temporal) {
    if logic == LTL then IsLtl(f) else IsCtl(f)
  }

  /** A printed atom; one that is a parenthesised group is read so whatever follows. */
  lemma {:induction false} AtomPrints(logic: Logic, e: Expr)
    ensures UnaryReads(logic, PrintExpr(e), RereadAtom(e))
    ensures Core(e).Binary? ==> ClosedReads(logic, PrintExpr(e), RereadAtom(e))
    decreases e, 1
  {
    match e
    case Negate(x) =>
      AtomPrints(logic, x);
      NotFormulaReads(logic, PrintExpr(x), RereadAtom(x));
      if Core(x).Binary? {
        NotClosedReads(logic, PrintExpr(x), RereadAtom(x));
      }
    case Binary(op, l, r) =>
      BinaryAtomPrints(logic, op, l, r);
      ClosedIsUnary(logic, PrintExpr(e), RereadAtom(e));
    case _ =>
      PrintStarts(e);
      PrimaryPrints(e);
      PrimaryIsRelation(PrintExpr(e), Reread(e));
      AtomReads(logic, PrintExpr(e), Reread(e));
  }

  lemma {:induction false} BinaryAtomPrints(logic: Logic, op: BinOp, l: Expr, r: Expr)
    ensures ClosedReads(logic, PrintExpr(Binary(op, l, r)), RereadAtom(Binary(op, l, r)))
    decreases Binary(op, l, r), 0
  {
    var inner := PrintExpr(l) + [OpToken(op)] + PrintExpr(r);
    assert PrintExpr(Binary(op, l, r)) == [S(LParen)] + inner + [S(RParen)];
    if !Logical(op) && Core(l).Binary? {
    AtomPrints(logic, l);
      BrokenGroupReads(logic, op, PrintExpr(l), RereadAtom(l), PrintExpr(r));
    } else {
      if Logical(op) {
        LogicalAtomPrints(logic, op, l, r);
      } else {
        ArithAtomPrints(logic, op, l, r);
      }
      FormulaGroupReads(logic, inner, RereadAtom(Binary(op, l, r)));
    }
  }

  lemma {:induction false} LogicalAtomPrints(logic: Logic, op: BinOp, l: Expr, r: Expr)
    requires Logical(op)
    ensures TemporalReads(logic, PrintExpr(l) + [OpToken(op)] + PrintExpr(r), Join(LogicalConn(op), RereadAtom(l), RereadAtom(r)))
    decreases Binary(op, l, r), 0, 0
  {
    AtomPrints(logic, l);
    AtomPrints(logic, r);
    LogicalToken(op);
    ConnectiveReads(logic, LogicalConn(op), PrintExpr(l), RereadAtom(l), PrintExpr(r), RereadAtom(r));
  }

  lemma {:induction false} BangsBeforeAtom(logic: Logic, l: Expr, tail: seq<Token>, n: Option<Expr>)
    requires !Core(l).Binary? && RelationReads(PrintExpr(Core(l)) + tail, n)
    ensures UnaryReads(logic, PrintExpr(l) + tail, RewrapAtomAll(l, n))
  {
    PrintStarts(l);
    if l.Negate? {
      BangsBeforeAtom(logic, l.operand, tail, n);
      NotFormulaReads(logic, PrintExpr(l.operand) + tail, RewrapAtomAll(l.operand, n));
      assert PrintExpr(l) + tail == [S(Bang)] + (PrintExpr(l.operand) + tail);
    } else {
      AtomReads(logic, PrintExpr(l) + tail, n);
    }
  }

  lemma ArithAtomPrints(logic: Logic, op: BinOp, l: Expr, r: Expr)
    requires !Logical(op) && !Core(l).Binary?
    ensures TemporalReads(logic, PrintExpr(l) + [OpToken(op)] + PrintExpr(r),
                          RewrapAtomAll(l, RereadArith(op, Reread(Core(l)), r, Reread(r))))
  {
    var n := RereadArith(op, Reread(Core(l)), r, Reread(r));
    PrimaryPrints(Core(l));
    RightOperand(r);
    PlainArith(op, Core(l), r);
    Regroup(PrintExpr(Core(l)), OpToken(op), PrintExpr(r));
    BangsBeforeAtom(logic, l, [OpToken(op)] + PrintExpr(r), n);
    Regroup(PrintExpr(l), OpToken(op), PrintExpr(r));
    UnaryIsFormula(logic, PrintExpr(l) + [OpToken(op)] + PrintExpr(r), RewrapAtomAll(l, n));
  }

  /** A printed formula is one unary formula for the parser, in front of a token that does not continue a sum or relation. */
  lemma {:induction false} UnaryPrints(logic: Logic, f: Temporal)
    requires InLogic(logic, f)
    ensures UnaryReads(logic, Print(f), RereadFormula(f))
    decreases f, 1
  {
    match f
    case Atom(e) => AtomPrints(logic, e);
    case Not(g) =>
      UnaryPrints(logic, g);
      NotFormulaReads(logic, Print(g), RereadFormula(g));
    case Prefix(op, g) =>
      UnaryPrints(logic, g);
      PrefixReads(logic, op, Print(g), RereadFormula(g));
    case Bin(c, l, r) => BinPrints(logic, c, l, r);
    case Until(op, l, r) =>
      if op == U {
        UntilPrints(l, r);
      } else {
        BracketPrints(op, l, r);
      }
  }

  lemma {:induction false} BinPrints(logic: Logic, c: Connective, l: Temporal, r: Temporal)
    requires InLogic(logic, Bin(c, l, r))
    ensures UnaryReads(logic, Print(Bin(c, l, r)), RereadFormula(Bin(c, l, r)))
    decreases Bin(c, l, r), 0
  {
    var inner := Print(l) + [ConnToken(c)] + Print(r);
    UnaryPrints(logic, l);
    UnaryPrints(logic, r);
    ConnectiveReads(logic, c, Print(l), RereadFormula(l), Print(r), RereadFormula(r));
    FormulaGroupReads(logic, inner, Join(c, RereadFormula(l), RereadFormula(r)));
    assert Print(Bin(c, l, r)) == [S(LParen)] + inner + [S(RParen)];
    ClosedIsUnary(logic, Print(Bin(c, l, r)), RereadFormula(Bin(c, l, r)));
  }

  lemma {:induction false} UntilPrints(l: Temporal, r: Temporal)
    requires IsLtl(l) && IsLtl(r)
    ensures UnaryReads(LTL, Print(Until(U, l, r)), RereadFormula(Until(U, l, r)))
    decreases Until(U, l, r), 0
  {
    var inner := Print(l) + [K(UntilWord)] + Print(r);
    UnaryPrints(LTL, l);
    UnaryPrints(LTL, r);
    UntilReads(Print(l), RereadFormula(l), Print(r), RereadFormula(r));
    FormulaGroupReads(LTL, inner, JoinUntil(U, RereadFormula(l), RereadFormula(r)));
    assert Print(Until(U, l, r)) == [S(LParen)] + inner + [S(RParen)];
    ClosedIsUnary(LTL, Print(Until(U, l, r)), RereadFormula(Until(U, l, r)));
  }

  lemma {:induction false} BracketPrints(op: UntilOp, l: Temporal, r: Temporal)
    requires op != U && IsCtl(l) && IsCtl(r)
    ensures UnaryReads(CTL, Print(Until(op, l, r)), RereadFormula(Until(op, l, r)))
    decreases Until(op, l, r), 0
  {
    UnaryPrints(CTL, l);
    UnaryPrints(CTL, r);
    UnaryIsFormula(CTL, Print(l), RereadFormula(l));
    UnaryIsFormula(CTL, Print(r), RereadFormula(r));
    BracketReads(op, Print(l), RereadFormula(l), Print(r), RereadFormula(r));
    ClosedIsUnary(CTL, Print(Until(op, l, r)), RereadFormula(Until(op, l, r)));
  }

  // ---- Main results -------------------------------------------------------------------------------------

  /** Re-parsing a printed formula yields the reread formula, or fails when there is none. */
  lemma PrintThenParse(logic: Logic, f: Temporal)
    requires InLogic(logic, f)
    ensures ParseTemporal(Print(f) + [Eof], logic, 0) == Outcome(RereadFormula(f), |Print(f)|)
  {
    var toks := Print(f) + [Eof];
    assert At(toks, 0, Print(f)) && Peek(toks, |Print(f)|) == Eof;
    UnaryPrints(logic, f);
    UnaryIsFormula(logic, Print(f), RereadFormula(f));
  }

  /** Printing and re-parsing gives back the same tree exactly for the printable formulas. */
  lemma RoundTrips(logic: Logic, f: Temporal)
    requires InLogic(logic, f)
    ensures ParseTemporal(Print(f) + [Eof], logic, 0) == Parsed(f, |Print(f)|) <==> Printable(f)
  {
    PrintThenParse(logic, f);
    RereadFormulaFixed(f);
  }

  /** The parser itself produces formulas outside that set: `a + b = c` is accepted, its printed form is not. */
  lemma AcceptedButNotReprintable(logic: Logic)
    ensures var toks := [Name("a"), S(Plus), Name("b"), S(Equal), Name("c"), Eof];
            var f := Atom(Binary(Eq, Binary(Add, Ident("a"), Ident("b")), Ident("c")));
            ParseTemporal(toks, logic, 0) == Parsed(f, 5) && ParseTemporal(Print(f) + [Eof], logic, 0) == NoParse
  {
    SumEqualsParses([Name("a"), S(Plus), Name("b"), S(Equal), Name("c"), Eof], logic, Ident("a"), Ident("b"), Ident("c"));
    GroupedLeftIsLost(logic, Eq, Binary(Add, Ident("a"), Ident("b")), Ident("c"));
  }

  lemma SumEqualsParses(toks: seq<Token>, logic: Logic, a: Expr, b: Expr, c: Expr)
    requires |toks| == 6 && StartsAtom(toks[0]) && toks[1] == S(Plus) && toks[3] == S(Equal) && toks[5] == Eof
    requires ParsePrimary(toks, 0) == Parsed(a, 1) && ParsePrimary(toks, 2) == Parsed(b, 3) && ParsePrimary(toks, 4) == Parsed(c, 5)
    ensures ParseTemporal(toks, logic, 0) == Parsed(Atom(Binary(Eq, Binary(Add, a, b), c)), 5)
  {
    SumEqualsRelation(toks, a, b, c);
    AtomParses(toks, logic, 0, Some(Binary(Eq, Binary(Add, a, b), c)), 5);
    UnaryIsTemporal(toks, logic, 0, Some(Atom(Binary(Eq, Binary(Add, a, b), c))), 5);
  }

  lemma SumEqualsRelation(toks: seq<Token>, a: Expr, b: Expr, c: Expr)
    requires |toks| == 6 && toks[1] == S(Plus) && toks[3] == S(Equal) && toks[5] == Eof
    requires ParsePrimary(toks, 0) == Parsed(a, 1) && ParsePrimary(toks, 2) == Parsed(b, 3) && ParsePrimary(toks, 4) == Parsed(c, 5)
    ensures ParseRelation(toks, 0) == Parsed(Binary(Eq, Binary(Add, a, b), c), 5)
  {
    var sum := Binary(Add, a, b);
    assert ParseAdditiveRest(toks, sum, 3) == Parsed(sum, 3);
    assert ParseAdditiveRest(toks, a, 1) == Parsed(sum, 3);
    JustPrimary(toks, 4, Some(c), 5);
  }

  /** A relation or sum whose left operand is parenthesised has no readable printed form. */
  lemma GroupedLeftIsLost(logic: Logic, op: BinOp, l: Expr, r: Expr)
    requires !Logical(op) && Core(l).Binary?
    ensures ParseTemporal(Print(Atom(Binary(op, l, r))) + [Eof], logic, 0) == NoParse
  {
    PrintThenParse(logic, Atom(Binary(op, l, r)));
  }
}
