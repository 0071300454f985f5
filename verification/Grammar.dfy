/** The formula grammar over tokens: what the recursive-descent parser computes, and the printer. */
module Grammar {
  import opened Syntax

  datatype Sym =
    | LParen | RParen | LBrace | RBrace | LBracket | RBracket | Comma | Semi | Colon
    | Plus | Minus | Equal | NotEqual | Less | LessEq | Greater | GreaterEq
    | Amp | Bar | Bang | Arrow | DoubleArrow | OtherSym(text: string)

  datatype Word = TrueWord | FalseWord | CaseWord | EsacWord | InWord | UntilWord | AWord | EWord
                | OpWord(op: PrefixOp) | OtherWord(text: string)

  /** Identifiers are words the tokenizer reads back as one identifier. */
  datatype Token = Name(name: string) | Number(n: nat) | S(sym: Sym) | K(word: Word) | Eof

  /** A node and the position after it, or the parse error. */
  datatype Parse<+T> = Parsed(node: T, next: nat) | NoParse {
    predicate IsFailure() {
      NoParse?
    }

    function PropagateFailure<U>(): Parse<U>
      requires NoParse?
    {
      NoParse
    }

    function Extract(): (T, nat)
      requires Parsed?
    {
      (node, next)
    }
  }

  /** The token list ends with `Eof`, which is also what lies beyond it. */
  function Peek(toks: seq<Token>, pos: nat): Token {
    if pos < |toks| then toks[pos] else Eof
  }

  ghost predicate Progress<T>(toks: seq<Token>, pos: nat, r: Parse<T>) {
    r.Parsed? ==> pos < r.next <= |toks|
  }

  // ---- Precedence levels: 1 is `&`, 2 is `|`, 3 is `->`, 4 is `<->` --------------------

  type Level = n: nat | 1 <= n <= 4 witness 1

  function LevelSym(level: Level): Sym {
    if level == 1 then Amp else if level == 2 then Bar else if level == 3 then Arrow else DoubleArrow
  }

  function LevelOp(level: Level): BinOp {
    if level == 1 then And else if level == 2 then Or else if level == 3 then Implies else Iff
  }

  function LevelConn(level: Level): Connective {
    if level == 1 then Conj else if level == 2 then Disj else if level == 3 then Impl else Equiv
  }

  /** Only `->` associates to the right. */
  predicate RightAssociative(level: Level) {
    level == 3
  }

  // ---- Expressions ----------------------------------------------------------------------

  function ParseExpr(toks: seq<Token>, pos: nat): (r: Parse<Expr>)
    requires pos <= |toks|
    ensures Progress(toks, pos, r)
    decreases |toks| - pos, 9
  {
    ParseExprLevel(toks, 4, pos)
  }

  function ParseExprLevel(toks: seq<Token>, level: nat, pos: nat): (r: Parse<Expr>)
    requires pos <= |toks| && level <= 4
    ensures Progress(toks, pos, r)
    decreases |toks| - pos, 4 + level
  {
    if level == 0 then ParseNot(toks, pos)
    else
      var (left, p) :- ParseExprLevel(toks, level - 1, pos);
      if RightAssociative(level) then
        if Peek(toks, p) == S(LevelSym(level)) then
          var (right, q) :- ParseExprLevel(toks, level, p + 1);
          Parsed(Binary(LevelOp(level), left, right), q)
        else Parsed(left, p)
      else ParseExprRest(toks, level, left, p)
  }

  /** The loop that folds further operands of a left-associative level. */
  function ParseExprRest(toks: seq<Token>, level: Level, left: Expr, pos: nat): (r: Parse<Expr>)
    requires pos <= |toks|
    ensures r.Parsed? ==> pos <= r.next <= |toks|
    decreases |toks| - pos, 3
  {
    if Peek(toks, pos) == S(LevelSym(level)) then
      var (right, p) :- ParseExprLevel(toks, level - 1, pos + 1);
      ParseExprRest(toks, level, Binary(LevelOp(level), left, right), p)
    else Parsed(left, pos)
  }

  function ParseNot(toks: seq<Token>, pos: nat): (r: Parse<Expr>)
    requires pos <= |toks|
    ensures Progress(toks, pos, r)
    decreases |toks| - pos, 3
  {
    if Peek(toks, pos) == S(Bang) then
      var (x, p) :- ParseNot(toks, pos + 1);
      Parsed(Negate(x), p)
    else ParseRelation(toks, pos)
  }

  function RelOp(t: Token): (op: BinOp)
    requires IsRel(t)
  {
    match t.sym
    case Equal => Eq
    case NotEqual => Ne
    case Less => Lt
    case LessEq => Le
    case Greater => Gt
    case _ => Ge
  }

  predicate IsRel(t: Token) {
    t.S? && t.sym in {Equal, NotEqual, Less, LessEq, Greater, GreaterEq}
  }

  function ParseRelation(toks: seq<Token>, pos: nat): (r: Parse<Expr>)
    requires pos <= |toks|
    ensures Progress(toks, pos, r)
    decreases |toks| - pos, 2
  {
    var (left, p) :- ParseAdditive(toks, pos);
    var t := Peek(toks, p);
    if IsRel(t) then
      var (right, q) :- ParseAdditive(toks, p + 1);
      Parsed(Binary(RelOp(t), left, right), q)
    else if t == K(InWord) then
      if Peek(toks, p + 1) == S(LBrace) then
        var (values, q) :- ParseMembers(toks, p + 2);
        Parsed(Binary(In, left, SetLit(values)), q)
      else NoParse
    else Parsed(left, p)
  }

  function ParseAdditive(toks: seq<Token>, pos: nat): (r: Parse<Expr>)
    requires pos <= |toks|
    ensures Progress(toks, pos, r)
    decreases |toks| - pos, 1
  {
    var (left, p) :- ParsePrimary(toks, pos);
    ParseAdditiveRest(toks, left, p)
  }

  predicate IsAdd(t: Token) {
    t == S(Plus) || t == S(Minus)
  }

  function ParseAdditiveRest(toks: seq<Token>, left: Expr, pos: nat): (r: Parse<Expr>)
    requires pos <= |toks|
    ensures r.Parsed? ==> pos <= r.next <= |toks|
    decreases |toks| - pos, 1
  {
    var t := Peek(toks, pos);
    if IsAdd(t) then
      var (right, p) :- ParsePrimary(toks, pos + 1);
      ParseAdditiveRest(toks, Binary(if t == S(Plus) then Add else Sub, left, right), p)
    else Parsed(left, pos)
  }

  function ParsePrimary(toks: seq<Token>, pos: nat): (r: Parse<Expr>)
    requires pos <= |toks|
    ensures Progress(toks, pos, r)
    decreases |toks| - pos, 0
  {
    match Peek(toks, pos)
    case K(TrueWord) => Parsed(BoolLit(true), pos + 1)
    case K(FalseWord) => Parsed(BoolLit(false), pos + 1)
    case K(CaseWord) =>
      var (branches, p) :- ParseBranches(toks, pos + 1);
      Parsed(Case(branches), p)
    case S(LParen) =>
      var (x, p) :- ParseExpr(toks, pos + 1);
      if Peek(toks, p) == S(RParen) then Parsed(x, p + 1) else NoParse
    case S(LBrace) =>
      var (values, p) :- ParseMembers(toks, pos + 1);
      Parsed(SetLit(values), p)
    case Name(name) => Parsed(Ident(name), pos + 1)
    case Number(n) => Parsed(IntLit(n), pos + 1)
    case _ => NoParse
  }

  /** The branches of a `case` up to and including `esac`. */
  function ParseBranches(toks: seq<Token>, pos: nat): (r: Parse<seq<Branch>>)
    requires pos <= |toks|
    ensures Progress(toks, pos, r)
    decreases |toks| - pos, 10
  {
    if Peek(toks, pos) == K(EsacWord) then Parsed([], pos + 1)
    else
      var (guard, p) :- ParseExpr(toks, pos);
      if Peek(toks, p) != S(Colon) then NoParse
      else
        var (value, q) :- ParseExpr(toks, p + 1);
        if Peek(toks, q) != S(Semi) then NoParse
        else
          var (rest, end) :- ParseBranches(toks, q + 1);
          Parsed([Branch(guard, value)] + rest, end)
  }

  /** Set members up to and including `}`; a comma may precede the brace. */
  function ParseMembers(toks: seq<Token>, pos: nat): (r: Parse<seq<Prim>>)
    requires pos <= |toks|
    ensures Progress(toks, pos, r)
    decreases |toks| - pos
  {
    if Peek(toks, pos) == S(RBrace) then Parsed([], pos + 1)
    else
      var t := Peek(toks, pos);
      if !IsMember(t) then NoParse
      else if Peek(toks, pos + 1) == S(Comma) then
        var (rest, p) :- ParseMembers(toks, pos + 2);
        Parsed([MemberOf(t)] + rest, p)
      else if Peek(toks, pos + 1) == S(RBrace) then Parsed([MemberOf(t)], pos + 2)
      else NoParse
  }

  predicate IsMember(t: Token) {
    t.Name? || t.Number? || t == K(TrueWord) || t == K(FalseWord)
  }

  function MemberOf(t: Token): Prim
    requires IsMember(t)
  {
    match t
    case Name(s) => Str(s)
    case Number(n) => Num(n)
    case K(w) => Bool(w == TrueWord)
  }

  // ---- Temporal formulas --------------------------------------------------------------------

  function ParseTemporal(toks: seq<Token>, logic: Logic, pos: nat): (r: Parse<Temporal>)
    requires pos <= |toks|
    ensures Progress(toks, pos, r)
    decreases |toks| - pos, 9
  {
    ParseTemporalLevel(toks, logic, 4, pos)
  }

  function ParseTemporalLevel(toks: seq<Token>, logic: Logic, level: nat, pos: nat): (r: Parse<Temporal>)
    requires pos <= |toks| && level <= 4
    ensures Progress(toks, pos, r)
    decreases |toks| - pos, 4 + level
  {
    if level == 0 then ParseUntil(toks, logic, pos)
    else
      var (left, p) :- ParseTemporalLevel(toks, logic, level - 1, pos);
      if RightAssociative(level) then
        if Peek(toks, p) == S(LevelSym(level)) then
          var (right, q) :- ParseTemporalLevel(toks, logic, level, p + 1);
          Parsed(Bin(LevelConn(level), left, right), q)
        else Parsed(left, p)
      else ParseTemporalRest(toks, logic, level, left, p)
  }

  function ParseTemporalRest(toks: seq<Token>, logic: Logic, level: Level, left: Temporal, pos: nat): (r: Parse<Temporal>)
    requires pos <= |toks|
    ensures r.Parsed? ==> pos <= r.next <= |toks|
    decreases |toks| - pos, 3
  {
    if Peek(toks, pos) == S(LevelSym(level)) then
      var (right, p) :- ParseTemporalLevel(toks, logic, level - 1, pos + 1);
      ParseTemporalRest(toks, logic, level, Bin(LevelConn(level), left, right), p)
    else Parsed(left, pos)
  }

  /** Only LTL has an infix `U`; in CTL it belongs to the enclosing `A[..]` or `E[..]`. */
  function ParseUntil(toks: seq<Token>, logic: Logic, pos: nat): (r: Parse<Temporal>)
    requires pos <= |toks|
    ensures Progress(toks, pos, r)
    decreases |toks| - pos, 3
  {
    var (left, p) :- ParseUnary(toks, logic, pos);
    if logic == LTL && Peek(toks, p) == K(UntilWord) then
      var (right, q) :- ParseUnary(toks, logic, p + 1);
      Parsed(Until(U, left, right), q)
    else Parsed(left, p)
  }

  predicate Belongs(logic: Logic, op: PrefixOp) {
    (op in {G, F, X}) == (logic == LTL)
  }

  function ParseUnary(toks: seq<Token>, logic: Logic, pos: nat): (r: Parse<Temporal>)
    requires pos <= |toks|
    ensures Progress(toks, pos, r)
    decreases |toks| - pos, 2
  {
    match Peek(toks, pos)
    case S(Bang) =>
      var (g, p) :- ParseUnary(toks, logic, pos + 1);
      Parsed(Not(g), p)
    case K(OpWord(op)) =>
      if Belongs(logic, op) then
        var (g, p) :- ParseUnary(toks, logic, pos + 1);
        Parsed(Prefix(op, g), p)
      else ParseAtom(toks, logic, pos)
    case K(AWord) => if logic == CTL then ParseBracket(toks, logic, AU, pos) else ParseAtom(toks, logic, pos)
    case K(EWord) => if logic == CTL then ParseBracket(toks, logic, EU, pos) else ParseAtom(toks, logic, pos)
    case _ => ParseAtom(toks, logic, pos)
  }

  /** `A[l U r]` or `E[l U r]`, the quantifier being the token at `pos`. */
  function ParseBracket(toks: seq<Token>, logic: Logic, op: UntilOp, pos: nat): (r: Parse<Temporal>)
    requires pos < |toks|
    ensures Progress(toks, pos, r)
    decreases |toks| - pos, 1
  {
    if Peek(toks, pos + 1) != S(LBracket) then NoParse
    else
      var (left, p) :- ParseTemporal(toks, logic, pos + 2);
      if Peek(toks, p) != K(UntilWord) then NoParse
      else
        var (right, q) :- ParseTemporal(toks, logic, p + 1);
        if Peek(toks, q) == S(RBracket) then Parsed(Until(op, left, right), q + 1) else NoParse
  }

  /** A parenthesis always opens a temporal group; an atom stops at relation level. */
  function ParseAtom(toks: seq<Token>, logic: Logic, pos: nat): (r: Parse<Temporal>)
    requires pos <= |toks|
    ensures Progress(toks, pos, r)
    decreases |toks| - pos, 1
  {
    if Peek(toks, pos) == S(LParen) then
      var (g, p) :- ParseTemporal(toks, logic, pos + 1);
      if Peek(toks, p) == S(RParen) then Parsed(g, p + 1) else NoParse
    else
      var (e, p) :- ParseRelation(toks, pos);
      Parsed(Atom(e), p)
  }

  // ---- Printing ---------------------------------------------------------------------------------

  function PrintPrim(p: Prim): seq<Token> {
    match p
    case Str(s) => [Name(s)]
    case Num(n) => if n < 0 then [S(Minus), Number(-n)] else [Number(n)]
    case Bool(b) => [K(if b then TrueWord else FalseWord)]
  }

  function PrintMembers(values: seq<Prim>): seq<Token> {
    if values == [] then []
    else if |values| == 1 then PrintPrim(values[0])
    else PrintPrim(values[0]) + [S(Comma)] + PrintMembers(values[1..])
  }

  function OpToken(op: BinOp): Token {
    match op
    case Add => S(Plus)
    case Sub => S(Minus)
    case Eq => S(Equal)
    case Ne => S(NotEqual)
    case Lt => S(Less)
    case Le => S(LessEq)
    case Gt => S(Greater)
    case Ge => S(GreaterEq)
    case And => S(Amp)
    case Or => S(Bar)
    case Implies => S(Arrow)
    case Iff => S(DoubleArrow)
    case In => K(InWord)
  }

  function PrintExpr(e: Expr): seq<Token> {
    match e
    case Ident(name) => [Name(name)]
    case IntLit(n) => [Number(n)]
    case BoolLit(b) => [K(if b then TrueWord else FalseWord)]
    case SetLit(values) => [S(LBrace)] + PrintMembers(values) + [S(RBrace)]
    case Binary(op, l, r) => [S(LParen)] + PrintExpr(l) + [OpToken(op)] + PrintExpr(r) + [S(RParen)]
    case Negate(x) => [S(Bang)] + PrintExpr(x)
    case Case(branches) => [K(CaseWord)] + PrintBranches(branches) + [K(EsacWord)]
  }

  function PrintBranches(branches: seq<Branch>): seq<Token> {
    if branches == [] then []
    else
      assert branches[0].guard < branches[0] && branches[0].value < branches[0];
      PrintExpr(branches[0].guard) + [S(Colon)] + PrintExpr(branches[0].value) + [S(Semi)] + PrintBranches(branches[1..])
  }

  function ConnToken(c: Connective): Token {
    match c
    case Conj => S(Amp)
    case Disj => S(Bar)
    case Impl => S(Arrow)
    case Equiv => S(DoubleArrow)
  }

  function Print(f: Temporal): seq<Token> {
    match f
    case Atom(e) => PrintExpr(e)
    case Not(g) => [S(Bang)] + Print(g)
    case Bin(c, l, r) => [S(LParen)] + Print(l) + [ConnToken(c)] + Print(r) + [S(RParen)]
    case Prefix(op, g) => [K(OpWord(op))] + Print(g)
    case Until(U, l, r) => [S(LParen)] + Print(l) + [K(UntilWord)] + Print(r) + [S(RParen)]
    case Until(op, l, r) =>
      [K(if op == AU then AWord else EWord), S(LBracket)] + Print(l) + [K(UntilWord)] + Print(r) + [S(RBracket)]
  }
}
