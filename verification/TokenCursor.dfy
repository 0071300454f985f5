/** The parser as the program runs it: a cursor over the tokens whose position its methods advance. */
module TokenCursor {
  import opened Prelude
  import opened Syntax
  import opened Grammar

  class Cursor {
    const toks: seq<Token>
    var position: nat

    constructor (tokens: seq<Token>)
      ensures toks == tokens && position == 0
    {
      toks := tokens;
      position := 0;
    }

    /** The outcome `r` and the new position are those of the grammar function; a throw is `None`. */
    ghost predicate Yields<T>(r: Option<T>, spec: Parse<T>)
      reads this
    {
      && r == (match spec case Parsed(n, _) => Some(n) case NoParse => None)
      && (spec.Parsed? ==> position == spec.next)
    }

    function Current(): Token
      reads this
    {
      Peek(toks, position)
    }

    method Expr() returns (r: Option<Expr>)
      requires position <= |toks|
      modifies this`position
      ensures Yields(r, ParseExpr(toks, old(position)))
      decreases |toks| - position, 9
    {
      r := ExprLevel(4);
    }

    method ExprLevel(level: nat) returns (r: Option<Expr>)
      requires position <= |toks| && level <= 4
      modifies this`position
      ensures Yields(r, ParseExprLevel(toks, level, old(position)))
      decreases |toks| - position, 4 + level
    {
      if level == 0 {
        r := NotExpr();
        return;
      }
      r := ExprLevel(level - 1);
      if r.None? {
        return;
      }
      if RightAssociative(level) {
        if Current() == S(LevelSym(level)) {
          position := position + 1;
          var right := ExprLevel(level);
          r := if right.Some? then Some(Binary(LevelOp(level), r.value, right.value)) else None;
        }
        return;
      }
      while Current() == S(LevelSym(level))
        invariant old(position) < position <= |toks| && r.Some?
        invariant ParseExprLevel(toks, level, old(position)) == ParseExprRest(toks, level, r.value, position)
        decreases |toks| - position
      {
        position := position + 1;
        var right := ExprLevel(level - 1);
        if right.None? {
          return None;
        }
        r := Some(Binary(LevelOp(level), r.value, right.value));
      }
    }

    method NotExpr() returns (r: Option<Expr>)
      requires position <= |toks|
      modifies this`position
      ensures Yields(r, ParseNot(toks, old(position)))
      decreases |toks| - position, 3
    {
      if Current() == S(Bang) {
        position := position + 1;
        r := NotExpr();
        r := if r.Some? then Some(Negate(r.value)) else None;
      } else {
        r := Relation();
      }
    }

    method Relation() returns (r: Option<Expr>)
      requires position <= |toks|
      modifies this`position
      ensures Yields(r, ParseRelation(toks, old(position)))
      decreases |toks| - position, 2
    {
      r := Additive();
      if r.None? {
        return;
      }
      var t := Current();
      if IsRel(t) {
        position := position + 1;
        var right := Additive();
        r := if right.Some? then Some(Binary(RelOp(t), r.value, right.value)) else None;
      } else if t == K(InWord) {
        position := position + 1;
        if Current() != S(LBrace) {
          return None;
        }
        position := position + 1;
        var values := Members();
        r := if values.Some? then Some(Binary(In, r.value, SetLit(values.value))) else None;
      }
    }

    method Additive() returns (r: Option<Expr>)
      requires position <= |toks|
      modifies this`position
      ensures Yields(r, ParseAdditive(toks, old(position)))
      decreases |toks| - position, 1
    {
      r := Primary();
      if r.None? {
        return;
      }
      while IsAdd(Current())
        invariant old(position) < position <= |toks| && r.Some?
        invariant ParseAdditive(toks, old(position)) == ParseAdditiveRest(toks, r.value, position)
        decreases |toks| - position
      {
        var op := if Current() == S(Plus) then Add else Sub;
        position := position + 1;
        var right := Primary();
        if right.None? {
          return None;
        }
        r := Some(Binary(op, r.value, right.value));
      }
    }

    method Primary() returns (r: Option<Expr>)
      requires position <= |toks|
      modifies this`position
      ensures Yields(r, ParsePrimary(toks, old(position)))
      decreases |toks| - position, 0
    {
      var t := Current();
      if t == Eof {
        return None;
      }
      position := position + 1;
      match t
      case K(TrueWord) => r := Some(BoolLit(true));
      case K(FalseWord) => r := Some(BoolLit(false));
      case K(CaseWord) =>
        var branches := Branches();
        r := if branches.Some? then Some(Case(branches.value)) else None;
      case S(LParen) =>
        r := Expr();
        if r.Some? {
          if Current() == S(RParen) {
            position := position + 1;
          } else {
            r := None;
          }
        }
      case S(LBrace) =>
        var values := Members();
        r := if values.Some? then Some(SetLit(values.value)) else None;
      case Name(name) => r := Some(Ident(name));
      case Number(n) => r := Some(IntLit(n));
      case _ => r := None;
    }

    method Branches() returns (r: Option<seq<Branch>>)
      requires position <= |toks|
      modifies this`position
      ensures Yields(r, ParseBranches(toks, old(position)))
      decreases |toks| - position, 10
    {
      var branches: seq<Branch> := [];
      PrependedNothing(ParseBranches(toks, position));
      while Current() != K(EsacWord)
        invariant old(position) <= position <= |toks|
        invariant ParseBranches(toks, old(position)) == Prepended(branches, ParseBranches(toks, position))
        decreases |toks| - position
      {
        var guard := Expr();
        if guard.None? || Current() != S(Colon) {
          return None;
        }
        position := position + 1;
        var value := Expr();
        if value.None? || Current() != S(Semi) {
          return None;
        }
        position := position + 1;
        PrependedOne(branches, Branch(guard.value, value.value), ParseBranches(toks, position));
        branches := branches + [Branch(guard.value, value.value)];
      }
      assert branches + [] == branches;
      position := position + 1;
      r := Some(branches);
    }

    static function Prepended<T>(front: seq<T>, rest: Parse<seq<T>>): Parse<seq<T>> {
      match rest
      case Parsed(xs, p) => Parsed(front + xs, p)
      case NoParse => NoParse
    }

    static lemma PrependedNothing<T>(rest: Parse<seq<T>>)
      ensures Prepended([], rest) == rest
    {
      if rest.Parsed? {
        assert [] + rest.node == rest.node;
      }
    }

    static lemma PrependedOne<T>(front: seq<T>, x: T, rest: Parse<seq<T>>)
      ensures Prepended(front + [x], rest) == Prepended(front, Prepended([x], rest))
    {
      if rest.Parsed? {
        assert front + [x] + rest.node == front + ([x] + rest.node);
      }
    }

    /** Set members after the opening brace, and the closing one. */
    method Members() returns (r: Option<seq<Prim>>)
      requires position <= |toks|
      modifies this`position
      ensures Yields(r, ParseMembers(toks, old(position)))
      decreases |toks| - position, 0
    {
      var values: seq<Prim> := [];
      PrependedNothing(ParseMembers(toks, position));
      while Current() != S(RBrace)
        invariant old(position) <= position <= |toks|
        invariant ParseMembers(toks, old(position)) == Prepended(values, ParseMembers(toks, position))
        decreases |toks| - position
      {
        var t := Current();
        if !IsMember(t) {
          return None;
        }
        position := position + 1;
        ghost var front := values;
        values := values + [MemberOf(t)];
        if Current() != S(Comma) {
          if Current() != S(RBrace) {
            return None;
          }
          position := position + 1;
          return Some(values);
        }
        position := position + 1;
        PrependedOne(front, MemberOf(t), ParseMembers(toks, position));
      }
      assert values + [] == values;
      position := position + 1;
      r := Some(values);
    }

    method Temporal(logic: Logic) returns (r: Option<Temporal>)
      requires position <= |toks|
      modifies this`position
      ensures Yields(r, ParseTemporal(toks, logic, old(position)))
      decreases |toks| - position, 9
    {
      r := TemporalLevel(logic, 4);
    }

    method TemporalLevel(logic: Logic, level: nat) returns (r: Option<Temporal>)
      requires position <= |toks| && level <= 4
      modifies this`position
      ensures Yields(r, ParseTemporalLevel(toks, logic, level, old(position)))
      decreases |toks| - position, 4 + level
    {
      if level == 0 {
        r := UntilFormula(logic);
        return;
      }
      r := TemporalLevel(logic, level - 1);
      if r.None? {
        return;
      }
      if RightAssociative(level) {
        if Current() == S(LevelSym(level)) {
          position := position + 1;
          var right := TemporalLevel(logic, level);
          r := if right.Some? then Some(Bin(LevelConn(level), r.value, right.value)) else None;
        }
        return;
      }
      while Current() == S(LevelSym(level))
        invariant old(position) < position <= |toks| && r.Some?
        invariant ParseTemporalLevel(toks, logic, level, old(position)) ==
                  ParseTemporalRest(toks, logic, level, r.value, position)
        decreases |toks| - position
      {
        position := position + 1;
        var right := TemporalLevel(logic, level - 1);
        if right.None? {
          return None;
        }
        r := Some(Bin(LevelConn(level), r.value, right.value));
      }
    }

    method UntilFormula(logic: Logic) returns (r: Option<Temporal>)
      requires position <= |toks|
      modifies this`position
      ensures Yields(r, ParseUntil(toks, logic, old(position)))
      decreases |toks| - position, 3
    {
      r := Unary(logic);
      if r.Some? && logic == LTL && Current() == K(UntilWord) {
        position := position + 1;
        var right := Unary(logic);
        r := if right.Some? then Some(Until(U, r.value, right.value)) else None;
      }
    }

    method Unary(logic: Logic) returns (r: Option<Temporal>)
      requires position <= |toks|
      modifies this`position
      ensures Yields(r, ParseUnary(toks, logic, old(position)))
      decreases |toks| - position, 2
    {
      var t := Current();
      if t == S(Bang) {
        position := position + 1;
        r := Unary(logic);
        r := if r.Some? then Some(Not(r.value)) else None;
      } else if t.K? && t.word.OpWord? && Belongs(logic, t.word.op) {
        position := position + 1;
        r := Unary(logic);
        r := if r.Some? then Some(Prefix(t.word.op, r.value)) else None;
      } else if logic == CTL && (t == K(AWord) || t == K(EWord)) {
        r := Bracket(logic, if t == K(AWord) then AU else EU);
      } else {
        r := AtomFormula(logic);
      }
    }

    method Bracket(logic: Logic, op: UntilOp) returns (r: Option<Temporal>)
      requires position < |toks|
      modifies this`position
      ensures Yields(r, ParseBracket(toks, logic, op, old(position)))
      decreases |toks| - position, 1
    {
      position := position + 1;
      if Current() != S(LBracket) {
        return None;
      }
      position := position + 1;
      var left := Temporal(logic);
      if left.None? || Current() != K(UntilWord) {
        return None;
      }
      position := position + 1;
      var right := Temporal(logic);
      if right.None? || Current() != S(RBracket) {
        return None;
      }
      position := position + 1;
      r := Some(Until(op, left.value, right.value));
    }

    method AtomFormula(logic: Logic) returns (r: Option<Temporal>)
      requires position <= |toks|
      modifies this`position
      ensures Yields(r, ParseAtom(toks, logic, old(position)))
      decreases |toks| - position, 1
    {
      if Current() == S(LParen) {
        position := position + 1;
        r := Temporal(logic);
        if r.Some? {
          if Current() == S(RParen) {
            position := position + 1;
          } else {
            r := None;
          }
        }
      } else {
        var e := Relation();
        r := if e.Some? then Some(Atom(e.value)) else None;
      }
    }
  }
}
