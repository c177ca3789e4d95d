/** `MathContext.Calculate` and `GetToken`: the recursive reduction of a
    context's pieces to one token with a single-operator lookahead. The
    combination of two operands around an operator is a parameter, so that
    what is verified here is the control structure: which pieces are read,
    which operands each combination receives, the assignment flag, and
    termination. */
module Evaluator {
  import opened Wrappers
  import opened Errors
  import opened Numerics
  import opened Operators
  import opened TokenTypes
  import opened Tokens
  import opened Contexts

  /** `left.ApplyOperator(op, right)` as the evaluator calls it. */
  type Combine = (Token, Operator, Token) -> Result<Token, Error>

  /** `Calculate` over the span `c.pieces[k..]`, with the receiver's context
      function: an empty span gives the invalid token; one or two pieces give
      piece 0 converted to a double and passed through the context function;
      three or more combine pieces 0 and 2 around piece 1's operator, first
      replacing piece 2 by the value of the whole span from piece 2 when there
      are at least five pieces and piece 3 weighs more than piece 1. The flag
      says whether piece 1's operator was `=`. */
  function Calculate(c: Context, k: nat, fo: FloatOps, combine: Combine): (r: Result<(bool, Token), Error>)
    requires k <= |c.pieces|
    ensures |c.pieces| == k ==> r == Ok((false, InvalidToken))
    ensures 1 <= |c.pieces| - k <= 2 && r.Ok? ==>
              !r.value.0 && r.value.1.kind == DValue && r.value.1.weight == 0 && r.value.1.tokenString == ""
    ensures |c.pieces| - k >= 3 && r.Ok? ==>
              GetToken(c, k + 1, fo, combine).Ok?
              && (r.value.0 <==> GetToken(c, k + 1, fo, combine).value.op == Equals)
    decreases c, |c.pieces| - k + 1
  {
    var n := |c.pieces| - k;
    if n == 0 then Ok((false, InvalidToken))
    else
      var first :- GetToken(c, k, fo, combine);
      if n >= 3 then
        var second :- GetToken(c, k + 1, fo, combine);
        var third :- GetToken(c, k + 2, fo, combine);
        var right :- if n >= 5 then
                       var fourth :- GetToken(c, k + 3, fo, combine);
                       if fourth.weight > second.weight then
                         var rest :- Calculate(c, k + 2, fo, combine);
                         Ok(rest.1)
                       else Ok(third)
                     else Ok(third);
        var result :- combine(first, second.op, right);
        Ok((second.op == Equals, result))
      else
        var operand := if IsSet(first.kind, DValue) then first.dValue else fo.fromLong(first.iValue);
        var d :- ApplyFunction(c.contextOperator, operand, fo);
        Ok((false, Token(DValue, 0, "", NoOp, d, 0)))
  }

  /** `GetToken`: a token piece is itself; a nested context is calculated
      from its first piece and only its token is kept. */
  function GetToken(c: Context, i: nat, fo: FloatOps, combine: Combine): (r: Result<Token, Error>)
    requires i < |c.pieces|
    ensures c.pieces[i].Leaf? ==> r == Ok(c.pieces[i].token)
    ensures c.pieces[i].Nested? ==>
              && (r.Ok? <==> Calculate(c.pieces[i].context, 0, fo, combine).Ok?)
              && (r.Ok? ==> r.value == Calculate(c.pieces[i].context, 0, fo, combine).value.1)
    decreases c, 0
  {
    match c.pieces[i]
    case Leaf(t) => Ok(t)
    case Nested(child) =>
      var sub :- Calculate(child, 0, fo, combine);
      Ok(sub.1)
  }

  /** The right operand that a span of three or more pieces hands to
      `combine`: piece 2 itself, or, when there are at least five pieces and
      piece 3 weighs more than piece 1, the token the span from piece 2
      calculates to. */
  function RightOperand(c: Context, k: nat, fo: FloatOps, combine: Combine): (r: Result<Token, Error>)
    requires |c.pieces| - k >= 3
  {
    var second := GetToken(c, k + 1, fo, combine);
    if |c.pieces| - k >= 5 && second.Ok? && GetToken(c, k + 3, fo, combine).Ok?
       && GetToken(c, k + 3, fo, combine).value.weight > second.value.weight then
      var rest :- Calculate(c, k + 2, fo, combine);
      Ok(rest.1)
    else GetToken(c, k + 2, fo, combine)
  }

  /** Three or more pieces make one combination: piece 0 on the left, piece
      1's operator, and the right operand (piece 2, or the value of the span
      from piece 2 when the lookahead fires). It succeeds exactly when the
      pieces it reads evaluate and that combination succeeds. */
  lemma CalculateCombines(c: Context, k: nat, fo: FloatOps, combine: Combine)
    requires |c.pieces| - k >= 3
    ensures var r := Calculate(c, k, fo, combine);
            var first, second, third := GetToken(c, k, fo, combine), GetToken(c, k + 1, fo, combine), GetToken(c, k + 2, fo, combine);
            var right := RightOperand(c, k, fo, combine);
            && (r.Ok? <==> && first.Ok? && second.Ok? && third.Ok?
                           && (|c.pieces| - k >= 5 ==> GetToken(c, k + 3, fo, combine).Ok?)
                           && right.Ok? && combine(first.value, second.value.op, right.value).Ok?)
            && (r.Ok? ==> r.value == (second.value.op == Equals, combine(first.value, second.value.op, right.value).value))
  {
  }

  /** `1+2*3^4`: each operator weighs more than the one before, so the
      lookahead fires twice and the combinations nest to the right. */
  lemma NestedLookaheadExample(fo: FloatOps, combine: Combine)
    requires combine(Num(3), Raise, Num(4)).Ok?
    requires combine(Num(2), Multiply, combine(Num(3), Raise, Num(4)).value).Ok?
    ensures var power := combine(Num(3), Raise, Num(4)).value;
            var product := combine(Num(2), Multiply, power).value;
            var sum := combine(Num(1), Add, product);
            Calculate(Context(0, Round, [Leaf(Num(1)), Leaf(Sym(Add)), Leaf(Num(2)), Leaf(Sym(Multiply)),
                                         Leaf(Num(3)), Leaf(Sym(Raise)), Leaf(Num(4))]), 0, fo, combine)
            == if sum.Ok? then Ok((false, sum.value)) else Err(sum.error)
  {
    var c := Context(0, Round, [Leaf(Num(1)), Leaf(Sym(Add)), Leaf(Num(2)), Leaf(Sym(Multiply)),
                                Leaf(Num(3)), Leaf(Sym(Raise)), Leaf(Num(4))]);
    assert GetToken(c, 1, fo, combine) == Ok(Sym(Add));
    assert GetToken(c, 3, fo, combine) == Ok(Sym(Multiply));
    assert GetToken(c, 5, fo, combine) == Ok(Sym(Raise));
    assert Calculate(c, 4, fo, combine) == Ok((false, combine(Num(3), Raise, Num(4)).value));
    assert Calculate(c, 2, fo, combine) == Ok((false, combine(Num(2), Multiply, combine(Num(3), Raise, Num(4)).value).value));
  }

  /** The context cut down to its first `m` pieces. */
  function Prefix(c: Context, m: nat): (p: Context)
    requires m <= |c.pieces|
    ensures p.id == c.id && p.contextOperator == c.contextOperator && p.pieces == c.pieces[..m]
  {
    c.(pieces := c.pieces[..m])
  }

  lemma PrefixGetToken(c: Context, m: nat, i: nat, fo: FloatOps, combine: Combine)
    requires i < m <= |c.pieces|
    ensures GetToken(Prefix(c, m), i, fo, combine) == GetToken(c, i, fo, combine)
  {
    assert Prefix(c, m).pieces[i] == c.pieces[i];
  }

  /** With one or two pieces only piece 0 is read. */
  lemma CalculateShortReadsFirst(c: Context, k: nat, fo: FloatOps, combine: Combine)
    requires 1 <= |c.pieces| - k <= 2
    ensures Calculate(c, k, fo, combine) == Calculate(Prefix(c, k + 1), k, fo, combine)
  {
    PrefixGetToken(c, k + 1, k, fo, combine);
  }

  /** How many pieces from `k` on decide the value: none or one for short
      spans, three when the lookahead does not fire, and two more than the
      reach of the span from piece 2 when it does. When the operators read
      for the lookahead cannot be evaluated the whole span counts. */
  function Reach(c: Context, k: nat, fo: FloatOps, combine: Combine): (m: nat)
    requires k <= |c.pieces|
    ensures m <= |c.pieces| - k
    ensures |c.pieces| - k >= 3 ==> m >= 3
    ensures 1 <= |c.pieces| - k <= 2 ==> m == 1
    decreases |c.pieces| - k
  {
    var n := |c.pieces| - k;
    if n == 0 then 0
    else if n <= 2 then 1
    else if n <= 4 then 3
    else
      var second := GetToken(c, k + 1, fo, combine);
      var fourth := GetToken(c, k + 3, fo, combine);
      if second.Ok? && fourth.Ok? then
        if fourth.value.weight > second.value.weight then 2 + Reach(c, k + 2, fo, combine) else 3
      else n
  }

  /** With three or more pieces and no lookahead (fewer than five pieces, or
      piece 3 not weighing more than piece 1), everything after piece 2 is
      ignored. */
  lemma CalculateIgnoresTail(c: Context, k: nat, fo: FloatOps, combine: Combine)
    requires |c.pieces| - k >= 3
    requires |c.pieces| - k >= 5 ==>
               GetToken(c, k + 1, fo, combine).Ok? && GetToken(c, k + 3, fo, combine).Ok?
               && GetToken(c, k + 3, fo, combine).value.weight <= GetToken(c, k + 1, fo, combine).value.weight
    ensures Calculate(c, k, fo, combine) == Calculate(Prefix(c, k + 3), k, fo, combine)
  {
    PrefixGetToken(c, k + 3, k, fo, combine);
    PrefixGetToken(c, k + 3, k + 1, fo, combine);
    PrefixGetToken(c, k + 3, k + 2, fo, combine);
  }

  /** When the lookahead fires, cutting the span anywhere past the reach of
      the sub-span from piece 2 leaves the outcome alone. */
  lemma CalculateFiresOnCut(c: Context, k: nat, j: nat, fo: FloatOps, combine: Combine)
    requires k + 5 <= j <= |c.pieces|
    requires GetToken(c, k + 1, fo, combine).Ok? && GetToken(c, k + 3, fo, combine).Ok?
    requires GetToken(c, k + 3, fo, combine).value.weight > GetToken(c, k + 1, fo, combine).value.weight
    requires Calculate(c, k + 2, fo, combine) == Calculate(Prefix(c, j), k + 2, fo, combine)
    ensures Calculate(c, k, fo, combine) == Calculate(Prefix(c, j), k, fo, combine)
  {
    PrefixGetToken(c, j, k, fo, combine);
    PrefixGetToken(c, j, k + 1, fo, combine);
    PrefixGetToken(c, j, k + 2, fo, combine);
    PrefixGetToken(c, j, k + 3, fo, combine);
  }


  /** Pieces past the reach are never consulted: the span cut at the reach
      calculates to exactly the same outcome, so a chain like `2*3+4*5` stops
      after `2*3`. */
  lemma CalculateReadsOnlyReach(c: Context, k: nat, fo: FloatOps, combine: Combine)
    requires k <= |c.pieces|
    ensures Calculate(c, k, fo, combine) == Calculate(Prefix(c, k + Reach(c, k, fo, combine)), k, fo, combine)
  {
    CalculateReadsTo(c, k, k + Reach(c, k, fo, combine), fo, combine);
  }

  /** The induction behind `CalculateReadsOnlyReach`, with the cut `j` named. */
  lemma {:induction false} CalculateReadsTo(c: Context, k: nat, j: nat, fo: FloatOps, combine: Combine)
    requires k <= |c.pieces| && j == k + Reach(c, k, fo, combine)
    ensures Calculate(c, k, fo, combine) == Calculate(Prefix(c, j), k, fo, combine)
    decreases |c.pieces| - k, 1
  {
    var n := |c.pieces| - k;
    if j == k + n {
      assert Prefix(c, j) == c;
    } else if n <= 2 {
      CalculateShortReadsFirst(c, k, fo, combine);
    } else {
      ReachCases(c, k, fo, combine);
      if j == k + 3 {
        CalculateIgnoresTail(c, k, fo, combine);
      } else {
        FiredReadsTo(c, k, j, fo, combine);
      }
    }
  }

  /** The lookahead case: the span from piece 2 is cut at its own reach. */
  lemma {:induction false} FiredReadsTo(c: Context, k: nat, j: nat, fo: FloatOps, combine: Combine)
    requires |c.pieces| - k >= 5
    requires GetToken(c, k + 1, fo, combine).Ok? && GetToken(c, k + 3, fo, combine).Ok?
    requires GetToken(c, k + 3, fo, combine).value.weight > GetToken(c, k + 1, fo, combine).value.weight
    requires j == k + 2 + Reach(c, k + 2, fo, combine)
    ensures Calculate(c, k, fo, combine) == Calculate(Prefix(c, j), k, fo, combine)
    decreases |c.pieces| - k, 0
  {
    CalculateReadsTo(c, k + 2, j, fo, combine);
    CalculateFiresOnCut(c, k, j, fo, combine);
  }

  /** A span of three or more that reaches short of its end either stops after
      piece 2 without the lookahead firing, or fires it and reaches two pieces
      further than the span from piece 2. */
  lemma ReachCases(c: Context, k: nat, fo: FloatOps, combine: Combine)
    requires k <= |c.pieces| && |c.pieces| - k >= 3 && Reach(c, k, fo, combine) < |c.pieces| - k
    ensures var m := Reach(c, k, fo, combine);
            var second, fourth := GetToken(c, k + 1, fo, combine), GetToken(c, k + 3, fo, combine);
            && (m == 3 ==> (|c.pieces| - k >= 5 ==> second.Ok? && fourth.Ok? && fourth.value.weight <= second.value.weight))
            && (m != 3 ==> && |c.pieces| - k >= 5 && second.Ok? && fourth.Ok?
                           && fourth.value.weight > second.value.weight
                           && m == 2 + Reach(c, k + 2, fo, combine))
  {
  }

  /** Calculating any tree whose contexts all apply context functions (every
      tree the builder makes from classified tokens) cannot fail except in the
      combination step: with a combination that never fails it always
      succeeds. */
  lemma {:induction false} CalculateTotal(c: Context, k: nat, fo: FloatOps, combine: Combine)
    requires FunctionsOnly(c) && k <= |c.pieces|
    requires forall a, o, b :: combine(a, o, b).Ok?
    ensures Calculate(c, k, fo, combine).Ok?
    decreases c, |c.pieces| - k + 1
  {
    var n := |c.pieces| - k;
    if n > 0 {
      GetTokenTotal(c, k, fo, combine);
      if n >= 3 {
        GetTokenTotal(c, k + 1, fo, combine);
        GetTokenTotal(c, k + 2, fo, combine);
        if n >= 5 {
          GetTokenTotal(c, k + 3, fo, combine);
          CalculateTotal(c, k + 2, fo, combine);
        }
      }
    }
  }

  lemma {:induction false} GetTokenTotal(c: Context, i: nat, fo: FloatOps, combine: Combine)
    requires FunctionsOnly(c) && i < |c.pieces|
    requires forall a, o, b :: combine(a, o, b).Ok?
    ensures GetToken(c, i, fo, combine).Ok?
    decreases c, 0
  {
    if c.pieces[i].Nested? {
      CalculateTotal(c.pieces[i].context, 0, fo, combine);
    }
  }

  /** `2+3*4-5` as the builder leaves it (seven token pieces in one context):
      the lookahead at `*` makes `3*4` the right operand of `+`, and the
      `-` after it is read only for its weight: the `5` is never read. */
  lemma PrecedenceExample(fo: FloatOps, combine: Combine)
    requires combine(Num(3), Multiply, Num(4)).Ok?
    ensures var product := combine(Num(3), Multiply, Num(4)).value;
            var sum := combine(Num(2), Add, product);
            Calculate(Context(0, Round, [Leaf(Num(2)), Leaf(Sym(Add)), Leaf(Num(3)), Leaf(Sym(Multiply)),
                                         Leaf(Num(4)), Leaf(Sym(Subtract)), Leaf(Num(5))]), 0, fo, combine)
            == if sum.Ok? then Ok((false, sum.value)) else Err(sum.error)
  {
    var c := Context(0, Round, [Leaf(Num(2)), Leaf(Sym(Add)), Leaf(Num(3)), Leaf(Sym(Multiply)),
                                Leaf(Num(4)), Leaf(Sym(Subtract)), Leaf(Num(5))]);
    assert GetToken(c, 1, fo, combine) == Ok(Sym(Add));
    assert GetToken(c, 3, fo, combine) == Ok(Sym(Multiply));
    assert GetToken(c, 5, fo, combine) == Ok(Sym(Subtract));
    assert Calculate(c, 2, fo, combine) == Ok((false, combine(Num(3), Multiply, Num(4)).value));
  }

  /** Three token pieces are one application of `combine`, in reading
      order: left operand, the middle token's operator, right operand. The
      flag is set exactly for `=`. */
  lemma ThreeLeaves(id: int, f: Operator, a: Token, o: Token, b: Token, fo: FloatOps, combine: Combine)
    ensures var r := combine(a, o.op, b);
            Calculate(Context(id, f, [Leaf(a), Leaf(o), Leaf(b)]), 0, fo, combine)
            == if r.Ok? then Ok((o.op == Equals, r.value)) else Err(r.error)
  {
  }

  /** `2*(3+4)` as the builder leaves it: the group is a nested context,
      calculated first, and its token is the right operand of `*`. */
  lemma GroupExample(fo: FloatOps, combine: Combine)
    requires combine(Num(3), Add, Num(4)).Ok?
    ensures var sum := combine(Num(3), Add, Num(4)).value;
            var product := combine(Num(2), Multiply, sum);
            Calculate(Context(0, Round, [Leaf(Num(2)), Leaf(Sym(Multiply)),
                                         Nested(Context(1, Round, [Leaf(Num(3)), Leaf(Sym(Add)), Leaf(Num(4))]))]),
                      0, fo, combine)
            == if product.Ok? then Ok((false, product.value)) else Err(product.error)
  {
    var group := Context(1, Round, [Leaf(Num(3)), Leaf(Sym(Add)), Leaf(Num(4))]);
    ThreeLeaves(1, Round, Num(3), Sym(Add), Num(4), fo, combine);
    var c := Context(0, Round, [Leaf(Num(2)), Leaf(Sym(Multiply)), Nested(group)]);
    assert GetToken(c, 2, fo, combine) == Ok(combine(Num(3), Add, Num(4)).value);
  }

  /** An integer literal token with the type and value classification gives
      it, and empty text: the examples hold whatever the text. */
  function Num(n: Int64): Token {
    Token(IValue, 0, "", NoOp, Zero, n)
  }

  /** An operator token with the type and weight classification gives it,
      and empty text. */
  function Sym(op: Operator): Token {
    Token(OperatorKind, GetWeight(op), "", op, Zero, 0)
  }
}
