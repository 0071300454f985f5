/** Evaluation of expressions over a valuation, with the program's coercions and exceptions. */
module Expressions {
  import opened Decimal
  import opened Prelude
  import opened Syntax

  datatype EvalError = EvalError

  /** What an expression denotes: one scalar, or a set literal's members. */
  datatype Value = Scalar(prim: Prim) | Many(members: seq<Prim>)

  /** JavaScript `Number(s)` on a word: the value of a digit run, `None` when not a finite number. */
  function WordNumber(s: string): Option<int> {
    if s != "" && AllDigits(s) then Some(DigitsValue(s)) else None
  }

  function AsNum(p: Prim): Result<int, EvalError> {
    match p
    case Num(n) => Ok(n)
    case Bool(b) => Ok(if b then 1 else 0)
    case Str(s) => (match WordNumber(s) case Some(n) => Ok(n) case None => Err(EvalError))
  }

  function AsBool(p: Prim): Result<bool, EvalError> {
    match p
    case Bool(b) => Ok(b)
    case Num(n) => Ok(n != 0)
    case Str(s) => if s == "TRUE" then Ok(true) else if s == "FALSE" then Ok(false) else Err(EvalError)
  }

  function PrimEqual(a: Prim, b: Prim): Result<bool, EvalError> {
    match (a, b)
    case (Num(m), Num(n)) => Ok(m == n)
    case (Str(s), Str(t)) => Ok(s == t)
    case (Str(s), Num(n)) => Ok(WordNumber(s) == Some(n))
    case (Num(n), Str(s)) => Ok(WordNumber(s) == Some(n))
    case _ => var x :- AsBool(a); var y :- AsBool(b); Ok(x == y)
  }

  /** `members.some(m => primitiveEqual(m, p))`, which stops at the first match. */
  function SomeEqual(members: seq<Prim>, p: Prim): Result<bool, EvalError> {
    if members == [] then Ok(false)
    else
      var hit :- PrimEqual(members[0], p);
      if hit then Ok(true) else SomeEqual(members[1..], p)
  }

  function EvalBinary(op: BinOp, left: Prim, right: Prim): Result<Prim, EvalError> {
    match op
    case Add => var x :- AsNum(left); var y :- AsNum(right); Ok(Num(x + y))
    case Sub => var x :- AsNum(left); var y :- AsNum(right); Ok(Num(x - y))
    case Eq => var e :- PrimEqual(left, right); Ok(Bool(e))
    case Ne => var e :- PrimEqual(left, right); Ok(Bool(!e))
    case Lt => var x :- AsNum(left); var y :- AsNum(right); Ok(Bool(x < y))
    case Le => var x :- AsNum(left); var y :- AsNum(right); Ok(Bool(x <= y))
    case Gt => var x :- AsNum(left); var y :- AsNum(right); Ok(Bool(x > y))
    case Ge => var x :- AsNum(left); var y :- AsNum(right); Ok(Bool(x >= y))
    case And => var x :- AsBool(left); if !x then Ok(Bool(false)) else var y :- AsBool(right); Ok(Bool(y))
    case Or => var x :- AsBool(left); if x then Ok(Bool(true)) else var y :- AsBool(right); Ok(Bool(y))
    case Implies => var x :- AsBool(left); if !x then Ok(Bool(true)) else var y :- AsBool(right); Ok(Bool(y))
    case Iff => var x :- AsBool(left); var y :- AsBool(right); Ok(Bool(x == y))
    case In => Err(EvalError)
  }

  function Eval(e: Expr, v: Valuation, literals: set<string>): Result<Value, EvalError>
    decreases e, 1
  {
    match e
    case Ident(name) =>
      if name in v then Ok(Scalar(v[name]))
      else if name in literals then Ok(Scalar(Str(name)))
      else Err(EvalError)
    case IntLit(n) => Ok(Scalar(Num(n)))
    case BoolLit(b) => Ok(Scalar(Bool(b)))
    case SetLit(values) => Ok(Many(values))
    case Negate(x) =>
      var value :- Eval(x, v, literals);
      if value.Scalar? && value.prim.Bool? then Ok(Scalar(Bool(!value.prim.b))) else Err(EvalError)
    case Binary(op, l, r) =>
      var left :- Eval(l, v, literals);
      var right :- Eval(r, v, literals);
      if op == In then
        if right.Many? && left.Scalar? then var hit :- SomeEqual(right.members, left.prim); Ok(Scalar(Bool(hit)))
        else Err(EvalError)
      else if left.Many? || right.Many? then Err(EvalError)
      else var p :- EvalBinary(op, left.prim, right.prim); Ok(Scalar(p))
    case Case(branches) => EvalCase(branches, v, literals)
  }

  /** First branch whose guard is true; no such branch is an error. */
  function EvalCase(branches: seq<Branch>, v: Valuation, literals: set<string>): Result<Value, EvalError>
    decreases branches, 0
  {
    if branches == [] then Err(EvalError)
    else
      assert branches[0].guard < branches[0] && branches[0].value < branches[0];
      var guard :- Eval(branches[0].guard, v, literals);
      if guard.Many? then Err(EvalError)
      else
        var taken :- AsBool(guard.prim);
        if taken then Eval(branches[0].value, v, literals) else EvalCase(branches[1..], v, literals)
  }

  /** The truth value of an atomic proposition. */
  function AtomTruth(e: Expr, v: Valuation, literals: set<string>): Result<bool, EvalError> {
    var value :- Eval(e, v, literals);
    if value.Many? then Err(EvalError) else AsBool(value.prim)
  }
}
