/** The `Token` value: classification of one text fragment, the integer
    arithmetic kernel, the context-function and operator transforms, and
    assignment into a variable store. */
module Tokens {
  import opened Wrappers
  import opened Errors
  import opened Numerics
  import opened Operators
  import opened TokenTypes

  /** A classified fragment. `dValue` is authoritative when the `DValue` bit
      is set, `iValue` when the `IValue` bit is; `op` is `NoOp` for
      non-operator tokens. */
  datatype Token = Token(
    kind: TokenType,
    weight: int,
    tokenString: string,
    op: Operator,
    dValue: Double,
    iValue: Int64)

  /** `new(TokenType.Invalid, 0, "")`, also `Token.INVALID`. */
  const InvalidToken: Token := Token(Invalid, 0, "", NoOp, Zero, 0)

  /** The two variable stores, name to current value. */
  datatype Stores = Stores(floats: map<string, Double>, ints: map<string, Int64>)

  /** What classifying a fragment consults: the culture-dependent
      `long.TryParse` and `double.TryParse` (left abstract) and the stores. */
  datatype Lexicon = Lexicon(
    parseLong: string -> Option<Int64>,
    parseDouble: string -> Option<Double>,
    stores: Stores)

  /** The bits the implicit-multiplication guard asks for all at once. */
  const GroupingMask: TokenType := OperatorKind | ContextOpen | ContextClose | ContextOperator

  /** The token type an operator text is given. */
  function OperatorTokenType(op: Operator): (t: TokenType)
    ensures t == ContextOperator <==> IsContextFunction(op)
    ensures t == ContextOpen <==> op == OpenParenthesis || op == Equals
    ensures t == ContextClose <==> op == CloseParenthesis
    ensures t == OperatorKind || t == ContextOperator || t == ContextOpen || t == ContextClose
  {
    if IsContextFunction(op) then ContextOperator
    else if op == OpenParenthesis || op == Equals then ContextOpen
    else if op == CloseParenthesis then ContextClose
    else OperatorKind
  }

  /** `new Token(string)`: operator table, then long, then double, then the
      float store, then the int store, else `Invalid`. */
  function Classify(s: string, lex: Lexicon): (r: Token)
    ensures r.tokenString == s
    ensures GetOperator(s).Some? ==> r.op == GetOperator(s).value && r.kind == OperatorTokenType(r.op)
    ensures r.weight == if GetOperator(s).Some? then GetWeight(GetOperator(s).value) else 0
    ensures !HasFlag(r.kind, GroupingMask)
    ensures r.kind == ContextOperator ==> IsContextFunction(r.op)
    ensures IsSet(r.kind, ValueReference) <==>
              GetOperator(s).None? && lex.parseLong(s).None? && lex.parseDouble(s).None?
              && (s in lex.stores.floats || s in lex.stores.ints)
    ensures r.kind == Invalid <==>
              GetOperator(s).None? && lex.parseLong(s).None? && lex.parseDouble(s).None?
              && s !in lex.stores.floats && s !in lex.stores.ints
    ensures GetOperator(s).None? ==> r.op == NoOp
    ensures GetOperator(s).None? && lex.parseLong(s).Some? ==>
              r.kind == IValue && r.iValue == lex.parseLong(s).value
    ensures GetOperator(s).None? && lex.parseLong(s).None? && lex.parseDouble(s).Some? ==>
              r.kind == DValue && r.dValue == lex.parseDouble(s).value
    ensures IsSet(r.kind, ValueReference) && s in lex.stores.floats ==>
              r.kind == ValueReference | DValue && r.dValue == lex.stores.floats[s]
    ensures IsSet(r.kind, ValueReference) && s !in lex.stores.floats ==>
              r.kind == ValueReference | IValue && r.iValue == lex.stores.ints[s]
  {
    match GetOperator(s)
    case Some(op) => Token(OperatorTokenType(op), GetWeight(op), s, op, Zero, 0)
    case None =>
      match lex.parseLong(s)
      case Some(n) => Token(IValue, 0, s, NoOp, Zero, n)
      case None =>
        match lex.parseDouble(s)
        case Some(d) => Token(DValue, 0, s, NoOp, d, 0)
        case None =>
          if s in lex.stores.floats then
            Token(ValueReference | DValue, 0, s, NoOp, lex.stores.floats[s], 0)
          else if s in lex.stores.ints then
            Token(ValueReference | IValue, 0, s, NoOp, Zero, lex.stores.ints[s])
          else
            Token(Invalid, 0, s, NoOp, Zero, 0)
  }

  /** A name that resolves in both stores (and is neither an operator nor a
      number) becomes a float reference carrying the float store's value. */
  lemma ClassifyPrefersFloatStore(s: string, lex: Lexicon)
    requires GetOperator(s).None? && lex.parseLong(s).None? && lex.parseDouble(s).None?
    requires s in lex.stores.floats && s in lex.stores.ints
    ensures Classify(s, lex).kind == ValueReference | DValue
    ensures Classify(s, lex).dValue == lex.stores.floats[s]
    ensures IsSet(Classify(s, lex).kind, DValue) && !IsSet(Classify(s, lex).kind, IValue)
  {
  }

  /** `Operator.ApplyFunction` lifted to a token (`Token.ApplyFunction`):
      `NoOp` returns the token unchanged; otherwise only the live payload
      changes, the double one when the `DValue` bit is set and the long one
      (through a double and back) when it is not. */
  function ApplyContextFunction(t: Token, op: Operator, fo: FloatOps): (r: Result<Token, Error>)
    ensures op == NoOp ==> r == Ok(t)
    ensures r.Ok? <==> op == NoOp || IsContextFunction(op)
    ensures r.Ok? ==> r.value.kind == t.kind && r.value.weight == t.weight
                      && r.value.tokenString == t.tokenString && r.value.op == t.op
    ensures r.Ok? && IsSet(t.kind, DValue) ==> r.value.iValue == t.iValue
    ensures r.Ok? && !IsSet(t.kind, DValue) ==> r.value.dValue == t.dValue
    ensures r.Ok? && op != NoOp && IsSet(t.kind, DValue) ==>
              r.value.dValue == ApplyFunction(op, t.dValue, fo).value
    ensures r.Ok? && op != NoOp && !IsSet(t.kind, DValue) ==>
              r.value.iValue == ApplyFunctionLong(op, fo.fromLong(t.iValue), fo).value
  {
    if op == NoOp then Ok(t)
    else if IsSet(t.kind, DValue) then
      var d :- ApplyFunction(op, t.dValue, fo);
      Ok(t.(dValue := d))
    else
      var i :- ApplyFunctionLong(op, fo.fromLong(t.iValue), fo);
      Ok(t.(iValue := i))
  }

  /** The twelve operators the long kernel accepts. */
  predicate IsLongOperator(op: Operator) {
    op == Add || op == Subtract || op == Multiply || op == Divide || op == Raise
    || op == Smaller || op == SmallerOrEqual || op == Larger || op == LargerOrEqual
    || op == Not || op == Or || op == And
  }

  /** The operators whose long result is a truth value, 1 or 0. */
  predicate IsComparison(op: Operator) {
    op == Smaller || op == SmallerOrEqual || op == Larger || op == LargerOrEqual || op == Not
  }

  lemma QuotientInRange(a: Int64, b: Int64)
    requires b != 0 && !(a == MinLong && b == -1)
    ensures MinLong <= TruncDiv(a, b) <= MaxLong
  {
    if a == MinLong && Abs(b) >= 2 {
      QuotientHalf(Abs(a), Abs(b));
    }
  }

  /** `Token.Operate(long, long, Operator)`: unchecked 64-bit arithmetic,
      integer division, `(long)Math.Pow`, comparisons as 1/0, `!` as
      inequality and bitwise `|`/`&`. */
  function Operate(a: Int64, b: Int64, op: Operator, fo: FloatOps): (r: Result<Int64, Error>)
    ensures r.Err? <==> !IsLongOperator(op) || (op == Divide && (b == 0 || (a == MinLong && b == -1)))
    ensures !IsLongOperator(op) ==> r == Err(InvalidOperator)
    ensures op == Divide && b == 0 ==> r == Err(DivideByZero)
    ensures IsComparison(op) ==> r.Ok? && (r.value == 0 || r.value == 1)
    ensures op == Smaller ==> (r == Ok(1) <==> a < b)
    ensures op == SmallerOrEqual ==> (r == Ok(1) <==> a <= b)
    ensures op == Larger ==> (r == Ok(1) <==> a > b)
    ensures op == LargerOrEqual ==> (r == Ok(1) <==> a >= b)
    ensures op == Not ==> (r == Ok(1) <==> a != b)
  {
    match op
    case Add => Ok(Wrap(a + b))
    case Subtract => Ok(Wrap(a - b))
    case Multiply => Ok(Wrap(a * b))
    case Divide =>
      if b == 0 then Err(DivideByZero)
      else if a == MinLong && b == -1 then Err(Overflow)
      else
        QuotientInRange(a, b);
        Ok(TruncDiv(a, b))
    case Raise => Ok(fo.toLong(fo.arith(Pow, fo.fromLong(a), fo.fromLong(b))))
    case Smaller => Ok(if a < b then 1 else 0)
    case SmallerOrEqual => Ok(if a <= b then 1 else 0)
    case Larger => Ok(if a > b then 1 else 0)
    case LargerOrEqual => Ok(if a >= b then 1 else 0)
    case Not => Ok(if a != b then 1 else 0)
    case Or => Ok(BitOr(a, b))
    case And => Ok(BitAnd(a, b))
    case _ => Err(InvalidOperator)
  }

  /** `+`, `-` and `*` agree with mathematical arithmetic whenever the exact
      result fits in a `long`, and wrap around modulo 2^64 otherwise. */
  lemma OperateArithmetic(a: Int64, b: Int64, fo: FloatOps)
    ensures MinLong <= a + b <= MaxLong ==> Operate(a, b, Add, fo) == Ok(a + b)
    ensures MinLong <= a - b <= MaxLong ==> Operate(a, b, Subtract, fo) == Ok(a - b)
    ensures MinLong <= a * b <= MaxLong ==> Operate(a, b, Multiply, fo) == Ok(a * b)
    ensures (a + b - Operate(a, b, Add, fo).value) % TwoTo64 == 0
    ensures (a - b - Operate(a, b, Subtract, fo).value) % TwoTo64 == 0
    ensures (a * b - Operate(a, b, Multiply, fo).value) % TwoTo64 == 0
  {
    OperateWraps(a, b, fo);
  }

  lemma OperateWraps(a: Int64, b: Int64, fo: FloatOps)
    ensures Operate(a, b, Add, fo) == Ok(Wrap(a + b))
    ensures Operate(a, b, Subtract, fo) == Ok(Wrap(a - b))
    ensures Operate(a, b, Multiply, fo) == Ok(Wrap(a * b))
  {
  }

  /** Division by a non-zero divisor succeeds except for MinValue / -1, and
      truncates toward zero: the remainder is smaller than the divisor and is
      zero or has the dividend's sign. */
  lemma OperateDivideTruncates(a: Int64, b: Int64, fo: FloatOps)
    requires b != 0 && !(a == MinLong && b == -1)
    ensures Operate(a, b, Divide, fo).Ok?
    ensures var q := Operate(a, b, Divide, fo).value;
            Abs(a - q * b) < Abs(b) && (a - q * b == 0 || (a - q * b < 0 <==> a < 0))
  {
    TruncDivRemainder(a, b);
  }

  /** The comparisons mirror each other: `a < b` is `b > a`, `a <= b` is
      `b >= a`, and `!` (inequality) is symmetric. */
  lemma ComparisonsMirror(a: Int64, b: Int64, fo: FloatOps)
    ensures Operate(a, b, Smaller, fo) == Operate(b, a, Larger, fo)
    ensures Operate(a, b, SmallerOrEqual, fo) == Operate(b, a, LargerOrEqual, fo)
    ensures Operate(a, b, Not, fo) == Operate(b, a, Not, fo)
    ensures Operate(a, b, Smaller, fo) == Ok(1) <==> Operate(a, b, LargerOrEqual, fo) == Ok(0)
  {
  }

  /** `|` and `&` combine comparison results as logical or and and. */
  lemma LogicalConnectives(a: Int64, b: Int64, c: Int64, d: Int64, p: Operator, q: Operator, fo: FloatOps)
    requires IsComparison(p) && IsComparison(q)
    ensures Operate(Operate(a, b, p, fo).value, Operate(c, d, q, fo).value, Or, fo)
            == Ok(if Operate(a, b, p, fo) == Ok(1) || Operate(c, d, q, fo) == Ok(1) then 1 else 0)
    ensures Operate(Operate(a, b, p, fo).value, Operate(c, d, q, fo).value, And, fo)
            == Ok(if Operate(a, b, p, fo) == Ok(1) && Operate(c, d, q, fo) == Ok(1) then 1 else 0)
  {
    var x, y := Operate(a, b, p, fo), Operate(c, d, q, fo);
    assert x.Ok? && y.Ok? && 0 <= x.value <= 1 && 0 <= y.value <= 1;
    TruthValuesCombine(x.value, y.value, fo);
  }

  lemma TruthValuesCombine(x: Int64, y: Int64, fo: FloatOps)
    requires 0 <= x <= 1 && 0 <= y <= 1
    ensures Operate(x, y, Or, fo) == Ok(if x == 1 || y == 1 then 1 else 0)
    ensures Operate(x, y, And, fo) == Ok(if x == 1 && y == 1 then 1 else 0)
  {
    LogicalOnTruthValues(x, y);
    OperateBitwise(x, y, fo);
  }

  lemma OperateBitwise(x: Int64, y: Int64, fo: FloatOps)
    ensures Operate(x, y, Or, fo) == Ok(BitOr(x, y)) && Operate(x, y, And, fo) == Ok(BitAnd(x, y))
  {
  }

  /** The nine operators the double kernel accepts. */
  predicate IsDoubleOperator(op: Operator) {
    op == Add || op == Subtract || op == Multiply || op == Divide || op == Raise
    || op == Smaller || op == SmallerOrEqual || op == Larger || op == LargerOrEqual
  }

  /** `Token.Operate(double, double, Operator)`: the primitives are left
      abstract; comparisons yield 1.0 or 0.0; `!`, `|`, `&` throw. */
  function OperateDouble(a: Double, b: Double, op: Operator, fo: FloatOps): (r: Result<Double, Error>)
    ensures r.Ok? <==> IsDoubleOperator(op)
    ensures r.Err? ==> r.error == InvalidOperator
    ensures r.Ok? && (op == Smaller || op == SmallerOrEqual || op == Larger || op == LargerOrEqual) ==>
              r.value == One || r.value == Zero
    ensures op == Smaller ==> r == Ok(if fo.less(a, b) then One else Zero)
    ensures op == SmallerOrEqual ==> r == Ok(if fo.lessOrEqual(a, b) then One else Zero)
    ensures op == Larger ==> r == Ok(if fo.less(b, a) then One else Zero)
    ensures op == LargerOrEqual ==> r == Ok(if fo.lessOrEqual(b, a) then One else Zero)
  {
    match op
    case Add => Ok(fo.arith(Plus, a, b))
    case Subtract => Ok(fo.arith(Minus, a, b))
    case Multiply => Ok(fo.arith(Times, a, b))
    case Divide => Ok(fo.arith(Over, a, b))
    case Raise => Ok(fo.arith(Pow, a, b))
    case Smaller => Ok(if fo.less(a, b) then One else Zero)
    case SmallerOrEqual => Ok(if fo.lessOrEqual(a, b) then One else Zero)
    case Larger => Ok(if fo.less(b, a) then One else Zero)
    case LargerOrEqual => Ok(if fo.lessOrEqual(b, a) then One else Zero)
    case _ => Err(InvalidOperator)
  }

  /** `Token.AssignToRefrence`: a name the float store resolves gets the
      value as a double (a long widens); otherwise the int store's slot gets
      the long value, or a double narrowed by the context function, which
      refuses `NoOp`. A name neither store resolves has no slot to write. */
  function AssignToReference(target: Token, contextOp: Operator, value: Token, fo: FloatOps, stores: Stores)
    : (r: Result<Stores, Error>)
    ensures !IsSet(target.kind, ValueReference) ==> r == Err(NotAReference)
    ensures r.Ok? ==> r.value.floats.Keys == stores.floats.Keys && r.value.ints.Keys == stores.ints.Keys
    ensures r.Ok? && target.tokenString in stores.floats ==>
              r.value.ints == stores.ints
              && r.value.floats[target.tokenString] == (if IsSet(value.kind, DValue) then value.dValue else fo.fromLong(value.iValue))
              && forall n :: n in stores.floats && n != target.tokenString ==> r.value.floats[n] == stores.floats[n]
    ensures r.Ok? && target.tokenString !in stores.floats ==>
              r.value.floats == stores.floats
              && target.tokenString in r.value.ints
              && (IsSet(value.kind, IValue) ==> r.value.ints[target.tokenString] == value.iValue)
              && forall n :: n in stores.ints && n != target.tokenString ==> r.value.ints[n] == stores.ints[n]
    ensures IsSet(target.kind, ValueReference) && target.tokenString in stores.floats ==> r.Ok?
    ensures IsSet(target.kind, ValueReference) && target.tokenString !in stores.floats ==>
              (r.Ok? <==> target.tokenString in stores.ints && (IsSet(value.kind, IValue) || IsContextFunction(contextOp)))
    ensures r.Ok? && target.tokenString !in stores.floats && !IsSet(value.kind, IValue) ==>
              r.value.ints[target.tokenString] == ApplyFunctionLong(contextOp, value.dValue, fo).value
  {
    if !IsSet(target.kind, ValueReference) then Err(NotAReference)
    else
      var name := target.tokenString;
      if name in stores.floats then
        var d := if IsSet(value.kind, DValue) then value.dValue else fo.fromLong(value.iValue);
        Ok(stores.(floats := stores.floats[name := d]))
      else
        var v :- if IsSet(value.kind, IValue) then Ok(value.iValue) else ApplyFunctionLong(contextOp, value.dValue, fo);
        if name in stores.ints then Ok(stores.(ints := stores.ints[name := v]))
        else Err(UnresolvedReference)
  }

  /** `Token.SetValue`: refuses a token without the `ValueReference` bit,
      otherwise writes the slot and returns the reference token itself,
      unchanged (it still carries the value it was classified with). */
  function SetValue(target: Token, contextOp: Operator, value: Token, fo: FloatOps, stores: Stores)
    : (r: Result<(Token, Stores), Error>)
    ensures !IsSet(target.kind, ValueReference) ==> r == Err(NotAReference)
    ensures r.Ok? ==> r.value.0 == target
    ensures r.Ok? <==> AssignToReference(target, contextOp, value, fo, stores).Ok?
    ensures r.Ok? ==> r.value.1 == AssignToReference(target, contextOp, value, fo, stores).value
  {
    if !IsSet(target.kind, ValueReference) then Err(NotAReference)
    else
      var stores' :- AssignToReference(target, contextOp, value, fo, stores);
      Ok((target, stores'))
  }

  /** Reading a variable back after assigning to it: re-classifying the name
      against the updated stores yields the value just written. */
  lemma AssignmentReadBack(name: string, lex: Lexicon, contextOp: Operator, value: Token, fo: FloatOps)
    requires GetOperator(name).None? && lex.parseLong(name).None? && lex.parseDouble(name).None?
    requires SetValue(Classify(name, lex), contextOp, value, fo, lex.stores).Ok?
    ensures var stores' := SetValue(Classify(name, lex), contextOp, value, fo, lex.stores).value.1;
            var after := Classify(name, lex.(stores := stores'));
            if name in lex.stores.floats then
              IsSet(after.kind, DValue)
              && after.dValue == (if IsSet(value.kind, DValue) then value.dValue else fo.fromLong(value.iValue))
            else
              IsSet(after.kind, IValue)
              && after.iValue == (if IsSet(value.kind, IValue) then value.iValue
                                  else ApplyFunctionLong(contextOp, value.dValue, fo).value)
  {
  }

  /** `Token.ApplyOperator`: `=` assigns; any other operator concatenates the
      texts around the operator's name and combines the payloads. A token with
      the `DValue` bit uses the double kernel but reads its own left operand
      from `iValue`; otherwise the long kernel runs, narrowing a double right
      operand through the context function and a `(long)` cast. */
  function ApplyOperator(left: Token, op: Operator, right: Token, contextOp: Operator, fo: FloatOps, stores: Stores)
    : (r: Result<(Token, Stores), Error>)
    ensures op == Equals ==> r == SetValue(left, contextOp, right, fo, stores)
    ensures op != Equals && r.Ok? ==>
              r.value.1 == stores
              && r.value.0.kind == left.kind && r.value.0.weight == left.weight && r.value.0.op == left.op
              && r.value.0.tokenString == left.tokenString + OperatorName(op) + right.tokenString
    ensures op != Equals && !IsSet(left.kind, DValue) && IsSet(right.kind, IValue) ==>
              (r.Ok? <==> Operate(left.iValue, right.iValue, op, fo).Ok?)
              && (r.Ok? ==> r.value.0.iValue == Operate(left.iValue, right.iValue, op, fo).value
                            && r.value.0.dValue == left.dValue)
    ensures op != Equals && IsSet(left.kind, DValue) ==> (r.Ok? <==> IsDoubleOperator(op))
    ensures op != Equals && IsSet(left.kind, DValue) && r.Ok? ==>
              r.value.0.iValue == left.iValue
              && r.value.0.dValue
                 == OperateDouble(fo.fromLong(left.iValue),
                                  if IsSet(right.kind, DValue) then right.dValue else fo.fromLong(right.iValue), op, fo).value
    ensures op != Equals && !IsSet(left.kind, DValue) && !IsSet(right.kind, IValue) ==>
              var narrowed := ApplyFunction(contextOp, right.dValue, fo);
              && (r.Ok? <==> (contextOp == NoOp || IsContextFunction(contextOp))
                             && Operate(left.iValue, fo.toLong(narrowed.value), op, fo).Ok?)
              && (r.Ok? ==> r.value.0.iValue == Operate(left.iValue, fo.toLong(narrowed.value), op, fo).value
                            && r.value.0.dValue == left.dValue)
  {
    if op == Equals then SetValue(left, contextOp, right, fo, stores)
    else
      var text := left.tokenString + OperatorName(op) + right.tokenString;
      if IsSet(left.kind, DValue) then
        var rv := if IsSet(right.kind, DValue) then right.dValue else fo.fromLong(right.iValue);
        var d :- OperateDouble(fo.fromLong(left.iValue), rv, op, fo);
        Ok((left.(tokenString := text, dValue := d), stores))
      else
        var rv :- if IsSet(right.kind, IValue) then Ok(right.iValue)
                  else (var x :- ApplyFunction(contextOp, right.dValue, fo); Ok(fo.toLong(x)));
        var i :- Operate(left.iValue, rv, op, fo);
        Ok((left.(tokenString := text, iValue := i), stores))
  }
}
