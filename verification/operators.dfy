/** The closed operator set and the static operator table: text to operator,
    precedence weights, and the unary context functions applied to a double. */
module Operators {
  import opened Wrappers
  import opened Errors
  import opened Numerics

  datatype Operator =
    | NoOp | Add | Subtract | Multiply | Divide | Raise | SquareRoot
    | OpenParenthesis | CloseParenthesis | Equals | Not | Or | And
    | Smaller | SmallerOrEqual | Larger | LargerOrEqual | Dot
    | Floor | Ceil | Round | Truncate

  /** The text C# produces when an operator is concatenated into a string:
      the enum member's name. */
  function OperatorName(op: Operator): (r: string)
    ensures 2 <= |r| <= 16 && 'A' <= r[0] <= 'Z'
  {
    match op
    case NoOp => "NoOp"
    case Add => "Add"
    case Subtract => "Subtract"
    case Multiply => "Multiply"
    case Divide => "Divide"
    case Raise => "Raise"
    case SquareRoot => "SquareRoot"
    case OpenParenthesis => "OpenParenthesis"
    case CloseParenthesis => "CloseParenthesis"
    case Equals => "Equals"
    case Not => "Not"
    case Or => "Or"
    case And => "And"
    case Smaller => "Smaller"
    case SmallerOrEqual => "SmallerOrEqual"
    case Larger => "Larger"
    case LargerOrEqual => "LargerOrEqual"
    case Dot => "Dot"
    case Floor => "Floor"
    case Ceil => "Ceil"
    case Round => "Round"
    case Truncate => "Truncate"
  }

  /** Different operators print differently, so a concatenated text records
      which operator joined its operands. */
  lemma OperatorNameInjective(a: Operator, b: Operator)
    requires OperatorName(a) == OperatorName(b)
    ensures a == b
  {
  }

  /** The unary functions a context can apply to its result. */
  predicate IsContextFunction(op: Operator) {
    op == SquareRoot || op == Floor || op == Ceil || op == Round || op == Truncate
  }

  predicate IsAdditive(op: Operator) {
    op == Add || op == Subtract
  }

  predicate IsMultiplicative(op: Operator) {
    op == Multiply || op == Divide
  }

  /** The operator table: the only texts that classify as operators. */
  const OperatorDictionary: map<string, Operator> := map[
    "+" := Add,
    "-" := Subtract,
    "*" := Multiply,
    "/" := Divide,
    "^" := Raise,
    "(" := OpenParenthesis,
    ")" := CloseParenthesis,
    "=" := Equals,
    "!" := Not,
    "|" := Or,
    "&" := And,
    "<" := Smaller,
    ">" := Larger,
    "<=" := SmallerOrEqual,
    ">=" := LargerOrEqual,
    "." := Dot,
    "sqrt" := SquareRoot,
    "floor" := Floor,
    "ceil" := Ceil,
    "round" := Round,
    "trunc" := Truncate
  ]

  /** The spelling of each operator, written per operator: the reference the
      table is checked against. `NoOp` has none. */
  function Symbol(op: Operator): string
    requires op != NoOp
  {
    match op
    case Add => "+"
    case Subtract => "-"
    case Multiply => "*"
    case Divide => "/"
    case Raise => "^"
    case OpenParenthesis => "("
    case CloseParenthesis => ")"
    case Equals => "="
    case Not => "!"
    case Or => "|"
    case And => "&"
    case Smaller => "<"
    case Larger => ">"
    case SmallerOrEqual => "<="
    case LargerOrEqual => ">="
    case Dot => "."
    case SquareRoot => "sqrt"
    case Floor => "floor"
    case Ceil => "ceil"
    case Round => "round"
    case Truncate => "trunc"
  }

  /** Looks a text up in the operator table; `None` means "not an operator". */
  function GetOperator(name: string): (r: Option<Operator>)
    ensures r.Some? ==> r.value != NoOp
  {
    if name in OperatorDictionary then Some(OperatorDictionary[name]) else None
  }

  /** Every key of the table is the spelling of the operator it maps to. */
  lemma KeysAreSymbols(s: string)
    requires s in OperatorDictionary
    ensures OperatorDictionary[s] != NoOp && Symbol(OperatorDictionary[s]) == s
  {
    KeyLiterals(s);
    Spellings();
    assert s == Symbol(Add)
           || s == Symbol(Subtract)
           || s == Symbol(Multiply)
           || s == Symbol(Divide)
           || s == Symbol(Raise)
           || s == Symbol(OpenParenthesis)
           || s == Symbol(CloseParenthesis)
           || s == Symbol(Equals)
           || s == Symbol(Not)
           || s == Symbol(Or)
           || s == Symbol(And)
           || s == Symbol(Smaller)
           || s == Symbol(Larger)
           || s == Symbol(SmallerOrEqual)
           || s == Symbol(LargerOrEqual)
           || s == Symbol(Dot)
           || s == Symbol(SquareRoot)
           || s == Symbol(Floor)
           || s == Symbol(Ceil)
           || s == Symbol(Round)
           || s == Symbol(Truncate);
    var op: Operator :| op != NoOp && s == Symbol(op);
    SymbolsAreKeys(op);
  }

  /** The table's keys, in the table's order. */
  lemma KeyLiterals(s: string)
    requires s in OperatorDictionary
    ensures s == "+"
            || s == "-"
            || s == "*"
            || s == "/"
            || s == "^"
            || s == "("
            || s == ")"
            || s == "="
            || s == "!"
            || s == "|"
            || s == "&"
            || s == "<"
            || s == ">"
            || s == "<="
            || s == ">="
            || s == "."
            || s == "sqrt"
            || s == "floor"
            || s == "ceil"
            || s == "round"
            || s == "trunc"
  {
  }

  /** Each operator's spelling, evaluated once. */
  lemma Spellings()
    ensures Symbol(Add) == "+"
            && Symbol(Subtract) == "-"
            && Symbol(Multiply) == "*"
            && Symbol(Divide) == "/"
            && Symbol(Raise) == "^"
            && Symbol(OpenParenthesis) == "("
            && Symbol(CloseParenthesis) == ")"
            && Symbol(Equals) == "="
            && Symbol(Not) == "!"
            && Symbol(Or) == "|"
            && Symbol(And) == "&"
            && Symbol(Smaller) == "<"
            && Symbol(Larger) == ">"
            && Symbol(SmallerOrEqual) == "<="
            && Symbol(LargerOrEqual) == ">="
            && Symbol(Dot) == "."
            && Symbol(SquareRoot) == "sqrt"
            && Symbol(Floor) == "floor"
            && Symbol(Ceil) == "ceil"
            && Symbol(Round) == "round"
            && Symbol(Truncate) == "trunc"
  {
  }

  /** Every operator but `NoOp` is in the table under its spelling. */
  lemma SymbolsAreKeys(op: Operator)
    requires op != NoOp
    ensures Symbol(op) in OperatorDictionary && OperatorDictionary[Symbol(op)] == op
  {
    match op
    case Add => assert OperatorDictionary["+"] == Add;
    case Subtract => assert OperatorDictionary["-"] == Subtract;
    case Multiply => assert OperatorDictionary["*"] == Multiply;
    case Divide => assert OperatorDictionary["/"] == Divide;
    case Raise => assert OperatorDictionary["^"] == Raise;
    case OpenParenthesis => assert OperatorDictionary["("] == OpenParenthesis;
    case CloseParenthesis => assert OperatorDictionary[")"] == CloseParenthesis;
    case Equals => assert OperatorDictionary["="] == Equals;
    case Not => assert OperatorDictionary["!"] == Not;
    case Or => assert OperatorDictionary["|"] == Or;
    case And => assert OperatorDictionary["&"] == And;
    case Smaller => assert OperatorDictionary["<"] == Smaller;
    case Larger => assert OperatorDictionary[">"] == Larger;
    case SmallerOrEqual => assert OperatorDictionary["<="] == SmallerOrEqual;
    case LargerOrEqual => assert OperatorDictionary[">="] == LargerOrEqual;
    case Dot => assert OperatorDictionary["."] == Dot;
    case SquareRoot => assert OperatorDictionary["sqrt"] == SquareRoot;
    case Floor => assert OperatorDictionary["floor"] == Floor;
    case Ceil => assert OperatorDictionary["ceil"] == Ceil;
    case Round => assert OperatorDictionary["round"] == Round;
    case Truncate => assert OperatorDictionary["trunc"] == Truncate;
  }

  /** The table and the per-operator spellings agree: a text resolves to an
      operator exactly when it is that operator's one spelling, and `NoOp`
      is never produced. */
  lemma GetOperatorInverse(s: string, op: Operator)
    ensures GetOperator(s) == Some(op) <==> op != NoOp && s == Symbol(op)
  {
    if s in OperatorDictionary {
      KeysAreSymbols(s);
    }
    if op != NoOp {
      SymbolsAreKeys(op);
    }
  }

  /** No two texts map to the same operator. */
  lemma DictionaryInjective(s1: string, s2: string)
    requires s1 in OperatorDictionary && s2 in OperatorDictionary
    requires OperatorDictionary[s1] == OperatorDictionary[s2]
    ensures s1 == s2
  {
    GetOperatorInverse(s1, OperatorDictionary[s1]);
    GetOperatorInverse(s2, OperatorDictionary[s2]);
  }

  /** Precedence weight: additive 1, multiplicative 2, power, root and the
      rounding functions 3, `NoOp` -1 and everything else 0. */
  function GetWeight(op: Operator): (w: int)
    ensures w == -1 <==> op == NoOp
    ensures w == 1 <==> IsAdditive(op)
    ensures w == 2 <==> IsMultiplicative(op)
    ensures w == 3 <==> op == Raise || IsContextFunction(op)
    ensures w == 0 <==> !(op == NoOp || IsAdditive(op) || IsMultiplicative(op) || op == Raise || IsContextFunction(op))
  {
    match op
    case NoOp => -1
    case Add => 1
    case Subtract => 1
    case Multiply => 2
    case Divide => 2
    case Raise => 3
    case SquareRoot => 3
    case OpenParenthesis => 0
    case CloseParenthesis => 0
    case Equals => 0
    case Not => 0
    case Or => 0
    case And => 0
    case Smaller => 0
    case SmallerOrEqual => 0
    case Larger => 0
    case LargerOrEqual => 0
    case Dot => 0
    case Floor => 3
    case Ceil => 3
    case Round => 3
    case Truncate => 3
  }

  /** Multiplicative operators bind strictly tighter than additive ones and
      power, root and rounding tighter still. */
  lemma PrecedenceOrder(a: Operator, m: Operator, p: Operator)
    requires IsAdditive(a) && IsMultiplicative(m) && (p == Raise || IsContextFunction(p))
    ensures GetWeight(NoOp) < GetWeight(a) < GetWeight(m) < GetWeight(p)
  {
  }

  /** `Operator.ApplyFunction(double)`: the context function on a double;
      `NoOp` is the identity and any other operator throws. Truncate goes
      through an `(int)` cast. */
  function ApplyFunction(op: Operator, value: Double, fo: FloatOps): (r: Result<Double, Error>)
    ensures r.Ok? <==> op == NoOp || IsContextFunction(op)
    ensures op == NoOp ==> r == Ok(value)
    ensures r.Err? ==> r.error == NotAContextOperator
  {
    match op
    case Truncate => Ok(fo.fromLong(fo.toInt(value)))
    case SquareRoot => Ok(fo.math(SqrtOf, value))
    case Round => Ok(fo.math(RoundOf, value))
    case Ceil => Ok(fo.math(CeilingOf, value))
    case Floor => Ok(fo.math(FloorOf, value))
    case NoOp => Ok(value)
    case _ => Err(NotAContextOperator)
  }

  /** `Operator.ApplyFunctionLong(double)`: the context function followed by a
      `(long)` cast; it refuses `NoOp` (no implicit narrowing) and every
      non-function operator. */
  function ApplyFunctionLong(op: Operator, value: Double, fo: FloatOps): (r: Result<Int64, Error>)
    ensures r.Ok? <==> IsContextFunction(op)
    ensures r.Err? ==> r.error == CannotNarrow
  {
    match op
    case Truncate => Ok(fo.toLong(value))
    case SquareRoot => Ok(fo.toLong(fo.math(SqrtOf, value)))
    case Round => Ok(fo.toLong(fo.math(RoundOf, value)))
    case Ceil => Ok(fo.toLong(fo.math(CeilingOf, value)))
    case Floor => Ok(fo.toLong(fo.math(FloorOf, value)))
    case _ => Err(CannotNarrow)
  }

  /** For the root and the three rounding functions the long variant is the
      double variant followed by the `(long)` cast; only Truncate differs,
      since its double variant truncates through `int`. */
  lemma ApplyFunctionLongIsCast(op: Operator, value: Double, fo: FloatOps)
    requires IsContextFunction(op) && op != Truncate
    ensures ApplyFunctionLong(op, value, fo) == Ok(fo.toLong(ApplyFunction(op, value, fo).value))
  {
  }
}
