/** The formulas of the shipped specification as its file writes them. */
module Psd2Text {
  import opened Prelude
  import opened Syntax
  import opened Grammar
  import opened Reading
  import opened Psd2Spec
  import opened Psd2Verdict
  import Precedence
  import RoundTrip

  /** `payment_state` compared with a state. */
  function Compare(s: Sym, state: string): seq<Token> {
    [Name(PAYMENT), S(s), Name(state)]
  }

  function Parens(xs: seq<Token>): seq<Token> {
    [S(LParen)] + xs + [S(RParen)]
  }

  /** The three formulas as the file writes them. */
  const LIVENESS_TEXT := [K(OpWord(G))] + Parens(Compare(Equal, "initiated") + [S(Arrow)] +
    ([K(OpWord(F))] + Parens(Compare(Equal, "authenticated") + [S(Bar)] + Compare(Equal, "refused"))))
  const GATHERING_TEXT := [K(OpWord(G))] + Parens(Compare(Equal, "completed") + [S(Arrow)] +
    [Name(FACTORS), S(GreaterEq), Number(2)])
  const NO_SHORTCUT_TEXT := [K(OpWord(G))] + Parens(Compare(Equal, "initiated") + [S(Arrow)] +
    ([K(OpWord(X))] + Parens(Compare(NotEqual, "completed"))))

  lemma TextIsLoose()
    ensures LIVENESS_TEXT == Precedence.Loose(4, LIVENESS)
    ensures GATHERING_TEXT == Precedence.Loose(4, GATHERING)
  {
    assert Precedence.Tight(PaymentIs("initiated")) == Compare(Equal, "initiated");
    assert Precedence.Tight(PaymentIs("authenticated")) == Compare(Equal, "authenticated");
    assert Precedence.Tight(PaymentIs("refused")) == Compare(Equal, "refused");
    assert Precedence.Tight(PaymentIs("completed")) == Compare(Equal, "completed");
    assert Precedence.Loose(1, PaymentIs("refused")) == Precedence.Tight(PaymentIs("refused"));
    assert Precedence.Loose(2, PaymentIs("authenticated")) == Precedence.Tight(PaymentIs("authenticated"));
    assert Precedence.Loose(4, ENDED) == Compare(Equal, "authenticated") + [S(Bar)] + Compare(Equal, "refused");
    assert Precedence.Tight(Prefix(F, ENDED)) == [K(OpWord(F))] + Parens(Precedence.Loose(4, ENDED));
    assert Precedence.Tight(FACTORS_GATHERED) == [Name(FACTORS), S(GreaterEq), Number(2)];
    assert Precedence.Loose(2, PaymentIs("initiated")) == Precedence.Tight(PaymentIs("initiated"));
    assert Precedence.Loose(2, PaymentIs("completed")) == Precedence.Tight(PaymentIs("completed"));
  }

  lemma GroupedAtomReads()
    ensures UnaryReads(LTL, Parens(Compare(NotEqual, "completed")), Some(NOT_COMPLETED))
  {
    var e := NOT_COMPLETED.expr;
    Precedence.BareAtomReads(LTL, e);
    assert Precedence.BareAtom(e) == Compare(NotEqual, "completed");
    UnaryIsFormula(LTL, Compare(NotEqual, "completed"), Some(NOT_COMPLETED));
    FormulaGroupReads(LTL, Compare(NotEqual, "completed"), Some(NOT_COMPLETED));
    ClosedIsUnary(LTL, Parens(Compare(NotEqual, "completed")), Some(NOT_COMPLETED));
  }

  /** A prefixed group of an implication between two unary formulas. */
  lemma ImplicationUnderPrefix(xs: seq<Token>, l: Temporal, ys: seq<Token>, r: Temporal)
    requires UnaryReads(LTL, xs, Some(l)) && UnaryReads(LTL, ys, Some(r))
    ensures UnaryReads(LTL, [K(OpWord(G))] + Parens(xs + [S(Arrow)] + ys), Some(Prefix(G, Bin(Impl, l, r))))
  {
    ConnectiveReads(LTL, Impl, xs, Some(l), ys, Some(r));
    FormulaGroupReads(LTL, xs + [S(Arrow)] + ys, Some(Bin(Impl, l, r)));
    ClosedIsUnary(LTL, Parens(xs + [S(Arrow)] + ys), Some(Bin(Impl, l, r)));
    PrefixReads(LTL, G, Parens(xs + [S(Arrow)] + ys), Some(Bin(Impl, l, r)));
  }

  /** `text` is read as `f`, up to the end of the file. */
  ghost predicate IsText(logic: Logic, text: seq<Token>, f: Temporal) {
    forall toks :: toks == text + [Eof] ==> ParseTemporal(toks, logic, 0) == Parsed(f, |text|)
  }

  lemma UnaryIsText(logic: Logic, xs: seq<Token>, f: Temporal)
    requires UnaryReads(logic, xs, Some(f))
    ensures IsText(logic, xs, f)
  {
    var toks := xs + [Eof];
    assert At(toks, 0, xs) && Peek(toks, |xs|) == Eof;
    UnaryIsFormula(logic, xs, Some(f));
  }

  lemma LooseIsText(logic: Logic, f: Temporal)
    requires RoundTrip.InLogic(logic, f) && RoundTrip.Printable(f)
    ensures IsText(logic, Precedence.Loose(4, f), f)
  {
    Precedence.LooseRoundTrips(logic, f);
  }

  lemma ComparisonsArePrintable()
    ensures forall state :: RoundTrip.Printable(PaymentIs(state))
    ensures RoundTrip.Printable(FACTORS_GATHERED)
  {
    forall state ensures RoundTrip.Printable(PaymentIs(state)) {
      assert RoundTrip.Stable(Ident(PAYMENT)) && RoundTrip.Stable(Ident(state));
      assert RoundTrip.Stable(Is(state));
    }
  }

  lemma AreLtl()
    ensures RoundTrip.InLogic(LTL, LIVENESS) && RoundTrip.Printable(LIVENESS)
    ensures RoundTrip.InLogic(LTL, GATHERING) && RoundTrip.Printable(GATHERING)
  {
    ComparisonsArePrintable();
    assert RoundTrip.Printable(ENDED) && RoundTrip.InLogic(LTL, ENDED);
  }

  lemma ShortcutIsText()
    ensures IsText(LTL, NO_SHORTCUT_TEXT, NO_SHORTCUT)
  {
    Precedence.BareAtomReads(LTL, Is("initiated"));
    assert Precedence.BareAtom(Is("initiated")) == Compare(Equal, "initiated");
    GroupedAtomReads();
    PrefixReads(LTL, X, Parens(Compare(NotEqual, "completed")), Some(NOT_COMPLETED));
    ImplicationUnderPrefix(Compare(Equal, "initiated"), PaymentIs("initiated"),
                           [K(OpWord(X))] + Parens(Compare(NotEqual, "completed")), Prefix(X, NOT_COMPLETED));
    UnaryIsText(LTL, NO_SHORTCUT_TEXT, NO_SHORTCUT);
  }

  /** The file's texts are read as the three formulas that pass. */
  lemma TextsAreRead()
    ensures IsText(LTL, LIVENESS_TEXT, LIVENESS)
    ensures IsText(LTL, GATHERING_TEXT, GATHERING)
    ensures IsText(LTL, NO_SHORTCUT_TEXT, NO_SHORTCUT)
  {
    AreLtl();
    TextIsLoose();
    LooseIsText(LTL, LIVENESS);
    LooseIsText(LTL, GATHERING);
    ShortcutIsText();
  }
}
