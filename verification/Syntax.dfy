/** Abstract syntax of the specification language: expressions, temporal formulas, specs. */
module Syntax {
  /** Scalars. Strings are the tokenizer's words: identifiers or digit runs. */
  datatype Prim = Str(s: string) | Num(n: int) | Bool(b: bool)

  datatype BinOp = Add | Sub | Eq | Ne | Lt | Le | Gt | Ge | And | Or | Implies | Iff | In

  datatype Expr =
    | Ident(name: string)
    | IntLit(value: nat)
    | BoolLit(truth: bool)
    | SetLit(values: seq<Prim>)
    | Binary(op: BinOp, left: Expr, right: Expr)
    | Negate(operand: Expr)
    | Case(branches: seq<Branch>)

  datatype Branch = Branch(guard: Expr, value: Expr)

  datatype Logic = LTL | CTL

  datatype Connective = Conj | Disj | Impl | Equiv

  /** The nine prefix temporal operators; the first three are LTL, the rest CTL. */
  datatype PrefixOp = G | F | X | EX | AX | EF | AF | EG | AG

  datatype UntilOp = U | EU | AU

  datatype Temporal =
    | Atom(expr: Expr)
    | Not(operand: Temporal)
    | Bin(conn: Connective, left: Temporal, right: Temporal)
    | Prefix(op: PrefixOp, operand: Temporal)
    | Until(uop: UntilOp, left: Temporal, right: Temporal)

  type Valuation = map<string, Prim>

  datatype Variable =
    | EnumVar(name: string, values: seq<string>)
    | RangeVar(name: string, min: int, max: int)

  datatype Assignment = Assignment(variable: string, expr: Expr)

  datatype Spec = Spec(variables: seq<Variable>, inits: seq<Assignment>, nexts: seq<Assignment>)
}
