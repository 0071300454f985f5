/** Which words and symbols stand for which operators, literals and constructs. */
module ReadingLaws {
  import opened Prelude
  import opened Syntax
  import opened Grammar
  import opened Reading

  // ---- Formulas -----------------------------------------------------------------------------------

  /** `A[f U g]` and `E[f U g]`, in CTL. */
  lemma UntilsAre(xs: seq<Token>, f: Temporal, ys: seq<Token>, g: Temporal)
    requires TemporalReads(CTL, xs, Some(f)) && TemporalReads(CTL, ys, Some(g))
    ensures ClosedReads(CTL, [K(AWord), S(LBracket)] + xs + [K(UntilWord)] + ys + [S(RBracket)], Some(Until(AU, f, g)))
    ensures ClosedReads(CTL, [K(EWord), S(LBracket)] + xs + [K(UntilWord)] + ys + [S(RBracket)], Some(Until(EU, f, g)))
  {
    BracketReads(AU, xs, Some(f), ys, Some(g));
    BracketReads(EU, xs, Some(f), ys, Some(g));
  }

  /** `f U g`, in LTL. */
  lemma UntilIs(xs: seq<Token>, f: Temporal, ys: seq<Token>, g: Temporal)
    requires UnaryReads(LTL, xs, Some(f)) && UnaryReads(LTL, ys, Some(g))
    ensures TemporalReads(LTL, xs + [K(UntilWord)] + ys, Some(Until(U, f, g)))
  {
    UntilReads(xs, Some(f), ys, Some(g));
  }

  /** G, F and X are operators of LTL only, the quantified ones of CTL only. */
  lemma PrefixesAre(logic: Logic, op: PrefixOp, xs: seq<Token>, f: Temporal)
    requires UnaryReads(logic, xs, Some(f))
    ensures logic == LTL && (op == G || op == F || op == X) ==> UnaryReads(logic, [K(OpWord(op))] + xs, Some(Prefix(op, f)))
    ensures logic == CTL && (op == EX || op == AX || op == EF || op == AF || op == EG || op == AG) ==>
              UnaryReads(logic, [K(OpWord(op))] + xs, Some(Prefix(op, f)))
  {
    if Belongs(logic, op) {
      PrefixReads(logic, op, xs, Some(f));
    }
  }

  /** An operator of the other logic is refused, whatever follows it. */
  lemma OthersAreRefused(logic: Logic, op: PrefixOp, xs: seq<Token>)
    requires if logic == LTL then op != G && op != F && op != X else op == G || op == F || op == X
    ensures ClosedReads(logic, [K(OpWord(op))] + xs, None)
  {
    var all := [K(OpWord(op))] + xs;
    forall toks: seq<Token>, pos: nat | At(toks, pos, all) ensures ParseUnary(toks, logic, pos) == NoParse {
      AtPrefix(toks, pos, K(OpWord(op)), xs);
      assert ParsePrimary(toks, pos) == NoParse;
      assert ParseAdditive(toks, pos) == NoParse;
      assert ParseRelation(toks, pos) == NoParse;
      assert ParseAtom(toks, logic, pos) == NoParse;
    }
  }

  /** A bang negates and parentheses group. */
  lemma NegationIs(logic: Logic, xs: seq<Token>, f: Temporal, ys: seq<Token>, g: Temporal)
    requires UnaryReads(logic, xs, Some(f)) && TemporalReads(logic, ys, Some(g))
    ensures UnaryReads(logic, [S(Bang)] + xs, Some(Not(f)))
    ensures ClosedReads(logic, [S(LParen)] + ys + [S(RParen)], Some(g))
  {
    NotFormulaReads(logic, xs, Some(f));
    FormulaGroupReads(logic, ys, Some(g));
  }

  // ---- Expressions --------------------------------------------------------------------------------

  lemma WordsAre(name: string, n: nat)
    ensures PrimaryReads([K(TrueWord)], Some(BoolLit(true))) && PrimaryReads([K(FalseWord)], Some(BoolLit(false)))
    ensures PrimaryReads([Name(name)], Some(Ident(name))) && PrimaryReads([Number(n)], Some(IntLit(n)))
  {
    WordReads(K(TrueWord), BoolLit(true));
    WordReads(K(FalseWord), BoolLit(false));
    WordReads(Name(name), Ident(name));
    WordReads(Number(n), IntLit(n));
  }

  predicate StandsFor(t: Token, p: Prim) {
    match t
    case Name(s) => p == Str(s)
    case Number(n) => p == Num(n)
    case K(TrueWord) => p == Bool(true)
    case K(FalseWord) => p == Bool(false)
    case _ => false
  }

  /** Members with commas between them, and the closing brace. */
  function Listed(ts: seq<Token>): seq<Token> {
    if ts == [] then [S(RBrace)]
    else if |ts| == 1 then [ts[0], S(RBrace)]
    else [ts[0], S(Comma)] + Listed(ts[1..])
  }

  lemma StandsPrinted(t: Token, p: Prim)
    requires StandsFor(t, p)
    ensures PrintPrim(p) == [t] && Member(p) == Some(p)
  {
  }

  lemma {:induction false} MembersAre(ts: seq<Token>, ps: seq<Prim>)
    requires |ts| == |ps| && forall i :: 0 <= i < |ts| ==> StandsFor(ts[i], ps[i])
    ensures MembersRead(Listed(ts), Some(ps))
  {
    if ts == [] {
      NoMembersRead();
    } else if |ts| == 1 {
      StandsPrinted(ts[0], ps[0]);
      LastMemberReads(ps[0]);
      assert [ts[0]] + [S(RBrace)] == [ts[0], S(RBrace)] && [ps[0]] == ps;
    } else {
      StandsPrinted(ts[0], ps[0]);
      MembersAre(ts[1..], ps[1..]);
      MemberReads(ps[0], Listed(ts[1..]), Some(ps[1..]));
      assert [ts[0]] + [S(Comma)] + Listed(ts[1..]) == Listed(ts) && [ps[0]] + ps[1..] == ps;
    }
  }

  /** A set lists its members in order; a comma may follow the last one. */
  lemma SetsAre(ts: seq<Token>, ps: seq<Prim>, t: Token, p: Prim)
    requires |ts| == |ps| && forall i :: 0 <= i < |ts| ==> StandsFor(ts[i], ps[i])
    requires StandsFor(t, p)
    ensures PrimaryReads([S(LBrace)] + Listed(ts), Some(SetLit(ps)))
    ensures PrimaryReads([S(LBrace), t, S(Comma), S(RBrace)], Some(SetLit([p])))
  {
    MembersAre(ts, ps);
    SetReads(Listed(ts), Some(ps));
    StandsPrinted(t, p);
    NoMembersRead();
    MemberReads(p, [S(RBrace)], Some([]));
    assert [t] + [S(Comma)] + [S(RBrace)] == [t, S(Comma), S(RBrace)] && [p] + [] == [p];
    SetReads([t, S(Comma), S(RBrace)], Some([p]));
    assert [S(LBrace)] + [t, S(Comma), S(RBrace)] == [S(LBrace), t, S(Comma), S(RBrace)];
  }

  /** `x in { .. }` is a membership; what is in front of `in` is its left side. */
  lemma MembershipIs(xs: seq<Token>, e: Expr, ts: seq<Token>, ps: seq<Prim>)
    requires PrimaryReads(xs, Some(e)) && |ts| == |ps| && forall i :: 0 <= i < |ts| ==> StandsFor(ts[i], ps[i])
    ensures RelationReads(xs + [K(InWord)] + ([S(LBrace)] + Listed(ts)), Some(Binary(In, e, SetLit(ps))))
  {
    MembersAre(ts, ps);
    SetReads(Listed(ts), Some(ps));
    ArithReads(In, xs, Some(e), [S(LBrace)] + Listed(ts), Some(SetLit(ps)));
  }

  /** A branch of a case is its guard, a colon, its value and a semicolon, in front of the other branches. */
  lemma BranchIs(xs: seq<Token>, guard: Expr, ys: seq<Token>, value: Expr, zs: seq<Token>, rest: seq<Branch>)
    requires ExprReads(xs, Some(guard)) && xs[0] != K(EsacWord) && ExprReads(ys, Some(value)) && BranchesRead(zs, Some(rest))
    ensures BranchesRead(xs + [S(Colon)] + (ys + [S(Semi)] + zs), Some([Branch(guard, value)] + rest))
  {
    BranchReads(xs, Some(guard), ys, Some(value), zs, Some(rest));
  }

  lemma CaseIs(xs: seq<Token>, branches: seq<Branch>)
    requires BranchesRead(xs, Some(branches))
    ensures PrimaryReads([K(CaseWord)] + xs, Some(Case(branches))) && BranchesRead([K(EsacWord)], Some([]))
  {
    CaseReads(xs, Some(branches));
    NoBranchesRead();
  }
}
