/** `MathParser`: fragments to tokens (`Tokenize`) and tokens to a context
    tree (`WeighTokens`). Splitting the text into fragments is the caller's
    business here; the fragment list is the input. */
module Parser {
  import opened Operators
  import opened TokenTypes
  import opened Tokens
  import opened Contexts

  // ---------------------------------------------------------------------
  // Tokenize

  /** .NET `Char.IsWhiteSpace`: the space, line and paragraph separators of
      Unicode plus the controls U+0009 to U+000D and U+0085. */
  predicate IsWhiteSpace(ch: char) {
    || '\U{9}' <= ch <= '\U{D}'
    || ch == '\U{20}' || ch == '\U{85}' || ch == '\U{A0}' || ch == '\U{1680}'
    || '\U{2000}' <= ch <= '\U{200A}'
    || ch == '\U{2028}' || ch == '\U{2029}' || ch == '\U{202F}' || ch == '\U{205F}' || ch == '\U{3000}'
  }

  /** `string.IsNullOrWhiteSpace`: empty or white space throughout. */
  function IsNullOrWhiteSpace(s: string): (r: bool)
    ensures |s| == 0 ==> r
    ensures r <==> forall ch :: ch in s ==> IsWhiteSpace(ch)
  {
    forall i :: 0 <= i < |s| ==> IsWhiteSpace(s[i])
  }

  /** The fragments that are not blank, in their original order. */
  function NonBlank(fragments: seq<string>): (r: seq<string>)
    ensures |r| <= |fragments|
    ensures forall s :: s in r <==> s in fragments && !IsNullOrWhiteSpace(s)
    ensures forall i :: 0 <= i < |r| ==> !IsNullOrWhiteSpace(r[i])
    ensures (forall i :: 0 <= i < |fragments| ==> !IsNullOrWhiteSpace(fragments[i])) ==> r == fragments
  {
    if |fragments| == 0 then []
    else
      var last := fragments[|fragments| - 1];
      var init := fragments[..|fragments| - 1];
      assert fragments == init + [last];
      NonBlank(init) + (if IsNullOrWhiteSpace(last) then [] else [last])
  }

  /** Filtering distributes over concatenation, and a single fragment is
      kept exactly when it is not blank; together these fix the order and
      the multiplicity of what `NonBlank` keeps. */
  lemma {:induction false} NonBlankAppend(a: seq<string>, b: seq<string>)
    ensures NonBlank(a + b) == NonBlank(a) + NonBlank(b)
    ensures |b| == 1 ==> NonBlank(b) == if IsNullOrWhiteSpace(b[0]) then [] else b
    decreases |b|
  {
    if |b| == 0 {
      assert a + b == a;
    } else {
      var init, last := b[..|b| - 1], b[|b| - 1];
      assert b == init + [last];
      assert a + b == (a + init) + [last];
      calc {
        NonBlank(a + b);
        { NonBlankSnoc(a + init, last); }
        NonBlank(a + init) + (if IsNullOrWhiteSpace(last) then [] else [last]);
        { NonBlankAppend(a, init); }
        NonBlank(a) + NonBlank(init) + (if IsNullOrWhiteSpace(last) then [] else [last]);
        { NonBlankSnoc(init, last); }
        NonBlank(a) + NonBlank(b);
      }
      if |b| == 1 {
        assert init == [];
      }
    }
  }

  lemma NonBlankSnoc(x: seq<string>, last: string)
    ensures NonBlank(x + [last]) == NonBlank(x) + if IsNullOrWhiteSpace(last) then [] else [last]
  {
    assert (x + [last])[..|x|] == x;
  }

  /** Each fragment classified on its own. */
  function ClassifyAll(fragments: seq<string>, lex: Lexicon): (r: seq<Token>)
    ensures |r| == |fragments|
    ensures forall i :: 0 <= i < |r| ==> r[i].tokenString == fragments[i]
  {
    seq(|fragments|, i requires 0 <= i < |fragments| => Classify(fragments[i], lex))
  }

  lemma NonBlankStep(fragments: seq<string>, i: nat)
    requires i < |fragments|
    ensures NonBlank(fragments[..i + 1])
            == NonBlank(fragments[..i]) + if IsNullOrWhiteSpace(fragments[i]) then [] else [fragments[i]]
  {
    assert fragments[..i + 1][..i] == fragments[..i];
  }

  lemma ClassifyAllAppend(fragments: seq<string>, s: string, lex: Lexicon)
    ensures ClassifyAll(fragments + [s], lex) == ClassifyAll(fragments, lex) + [Classify(s, lex)]
  {
  }

  /** `MathParser.Tokenize`: blank fragments are skipped and the rest are
      classified in order. The implicit-multiplication guard asks for a token
      type holding all of the Operator, ContextOpen, ContextClose and
      ContextOperator bits, which no classified token has, so no `*` is ever
      inserted: there is exactly one token per non-blank fragment. */
  method Tokenize(fragments: seq<string>, lex: Lexicon) returns (tokens: seq<Token>)
    ensures tokens == ClassifyAll(NonBlank(fragments), lex)
    ensures |tokens| == |NonBlank(fragments)|
    ensures forall i :: 0 <= i < |tokens| ==> tokens[i] == Classify(NonBlank(fragments)[i], lex)
  {
    tokens := [];
    var i := 0;
    while i < |fragments|
      invariant 0 <= i <= |fragments|
      invariant tokens == ClassifyAll(NonBlank(fragments[..i]), lex)
    {
      var fragment := fragments[i];
      NonBlankStep(fragments, i);
      if !IsNullOrWhiteSpace(fragment) {
        var t := Classify(fragment, lex);
        if |tokens| != 0 && tokens[|tokens| - 1].kind != OperatorKind && HasFlag(t.kind, GroupingMask) {
          tokens := tokens + [Classify("*", lex)];
        }
        ClassifyAllAppend(NonBlank(fragments[..i]), fragment, lex);
        tokens := tokens + [t];
      }
      i := i + 1;
    }
    assert fragments[..i] == fragments;
  }

  // ---------------------------------------------------------------------
  // WeighTokens

  /** The loop state of `WeighTokens`: the tree, the id of the context that
      receives tokens, and the context function the next opened context
      gets. */
  datatype Builder = Builder(root: Context, contextId: int, nextContextOp: Operator)

  /** The root and the pending context function both start as Round. */
  const Start: Builder := Builder(Context(0, Round, []), 0, Round)

  /** The token types the builder stores as pieces. */
  predicate IsStoredKind(kind: TokenType) {
    || kind == ValueReference || kind == DValue || kind == IValue
    || kind == DValue | ValueReference || kind == IValue | ValueReference
    || kind == OperatorKind
  }

  /** One pass of the loop: a context function becomes pending (and stays
      pending: it is never reset); a value or binary operator goes into the
      current context; `(` or `=` opens a child of the current context under
      the pending function, `=` first being stored itself; `)` moves to what
      `CloseContext` answers. Every other token type is dropped. */
  function Step(b: Builder, t: Token): (r: Builder)
    ensures r.root.id == b.root.id && r.root.contextOperator == b.root.contextOperator
    ensures t.kind != ContextOpen && t.kind != ContextClose ==> r.contextId == b.contextId
    ensures t.kind != ContextOperator ==> r.nextContextOp == b.nextContextOp
  {
    if t.kind == ContextOperator then b.(nextContextOp := t.op)
    else if IsStoredKind(t.kind) then b.(root := AddInto(b.root, b.contextId, t))
    else if t.kind == ContextOpen then
      var root := if t.op == Equals then AddInto(b.root, b.contextId, t) else b.root;
      var (root', id) := AddNewContext(root, b.contextId, b.nextContextOp);
      b.(root := root', contextId := id)
    else if t.kind == ContextClose then b.(contextId := CloseContext(b.root, b.contextId))
    else b
  }

  /** What every builder state reached from `Start` satisfies: ids are
      nesting depths from 0, and the cursor names an existing context or is
      one of the two failure answers -1 and -2. */
  ghost predicate Consistent(b: Builder) {
    && WellNumbered(b.root, 0)
    && (b.contextId >= 0 ==> HasId(b.root, b.contextId))
    && (b.contextId < 0 ==> b.contextId == -1 || b.contextId == -2)
  }

  lemma StepKeepsConsistent(b: Builder, t: Token)
    requires Consistent(b)
    ensures Consistent(Step(b, t))
  {
    if t.kind == ContextOperator {
    } else if IsStoredKind(t.kind) {
      AddIntoKeepsConsistent(b, t);
    } else if t.kind == ContextOpen {
      var b1 := if t.op == Equals then b.(root := AddInto(b.root, b.contextId, t)) else b;
      AddIntoKeepsConsistent(b, t);
      OpenKeepsConsistent(b1);
    } else if t.kind == ContextClose {
      CloseKeepsConsistent(b);
    }
  }

  lemma AddIntoKeepsConsistent(b: Builder, t: Token)
    requires Consistent(b)
    ensures Consistent(b.(root := AddInto(b.root, b.contextId, t)))
  {
    AddIntoKeepsNumbering(b.root, 0, b.contextId, t);
    AddIntoKeepsIds(b.root, b.contextId, t, b.contextId);
  }

  lemma OpenKeepsConsistent(b: Builder)
    requires Consistent(b)
    ensures var (root, id) := AddNewContext(b.root, b.contextId, b.nextContextOp);
            Consistent(b.(root := root, contextId := id))
  {
    NumberedIsNonNegative(b.root, 0);
    AddNewContextSpec(b.root, b.contextId, b.nextContextOp);
    if HasId(b.root, b.contextId) {
      var x := Context(b.contextId + 1, b.nextContextOp, []);
      var root := AddNewContext(b.root, b.contextId, b.nextContextOp).0;
      AppendedKeepsNumbering(b.root, root, b.contextId, x, 0);
      AppendedHoldsNew(b.root, root, b.contextId, x);
    }
  }

  lemma CloseKeepsConsistent(b: Builder)
    requires Consistent(b)
    ensures Consistent(b.(contextId := CloseContext(b.root, b.contextId)))
  {
    NumberedIsNonNegative(b.root, 0);
    CloseContextSpec(b.root, b.contextId);
    assert HasId(b.root, 0);
  }

  /** What one token does to a consistent builder, by token type: a
      context function only becomes pending; an invalid token changes
      nothing; a value or operator is stored once in every context with the
      cursor's id, and nowhere once the cursor is lost. */
  lemma StepSpec(b: Builder, t: Token)
    requires Consistent(b)
    ensures t.kind == ContextOperator ==> Step(b, t) == b.(nextContextOp := t.op)
    ensures t.kind == Invalid ==> Step(b, t) == b
    ensures IsStoredKind(t.kind) ==>
              && Step(b, t).contextId == b.contextId
              && Step(b, t).nextContextOp == b.nextContextOp
              && LeafCount(Step(b, t).root) == LeafCount(b.root) + (if b.contextId >= 0 then CountId(b.root, b.contextId) else 0)
  {
    if IsStoredKind(t.kind) {
      StoreSpec(b, t);
    }
  }

  lemma StoreSpec(b: Builder, t: Token)
    requires Consistent(b)
    ensures LeafCount(AddInto(b.root, b.contextId, t)) ==
              LeafCount(b.root) + (if b.contextId >= 0 then CountId(b.root, b.contextId) else 0)
  {
    AddIntoLeafCount(b.root, b.contextId, t);
    if b.contextId >= 0 {
      TopMatchesAreAllMatches(b.root, 0, b.contextId);
    } else {
      NumberedIsNonNegative(b.root, 0);
      if HasId(b.root, b.contextId) {
        FoundIdIsNonNegative(b.root, b.contextId);
      }
      AddIntoWithoutMatch(b.root, b.contextId, t);
    }
  }

  /** `(` or `=` under a live cursor at depth d moves the cursor to d + 1,
      `=` having been stored in every context of depth d first, and the new
      context holds no token; under a lost cursor it only marks the cursor
      -1 (an `=` goes nowhere). */
  lemma OpenSpec(b: Builder, t: Token)
    requires Consistent(b) && t.kind == ContextOpen
    ensures b.contextId >= 0 ==>
              && Step(b, t).contextId == b.contextId + 1
              && LeafCount(Step(b, t).root) == LeafCount(b.root) + (if t.op == Equals then CountId(b.root, b.contextId) else 0)
    ensures b.contextId >= 0 ==>
              AppendedAtFirst(if t.op == Equals then AddInto(b.root, b.contextId, t) else b.root,
                              Step(b, t).root, b.contextId, Context(b.contextId + 1, b.nextContextOp, []))
    ensures b.contextId < 0 ==> Step(b, t) == b.(contextId := -1)
  {
    if b.contextId >= 0 {
      OpenLive(b, t);
    } else {
      StepOnOpen(b, t);
      OpenLost(b, t, if t.op == Equals then AddInto(b.root, b.contextId, t) else b.root);
    }
  }

  /** `OpenSpec` under a live cursor. */
  lemma OpenLive(b: Builder, t: Token)
    requires Consistent(b) && t.kind == ContextOpen && b.contextId >= 0
    ensures var root := if t.op == Equals then AddInto(b.root, b.contextId, t) else b.root;
            var s := Step(b, t);
            && s.contextId == b.contextId + 1
            && LeafCount(s.root) == LeafCount(b.root) + (if t.op == Equals then CountId(b.root, b.contextId) else 0)
            && AppendedAtFirst(root, s.root, b.contextId, Context(b.contextId + 1, b.nextContextOp, []))
  {
    var root := if t.op == Equals then AddInto(b.root, b.contextId, t) else b.root;
    StepOnOpen(b, t);
    OpenTarget(b, t, root);
    OpenAt(root, b.contextId, b.nextContextOp);
  }

  /** `Step` on an opening token, unfolded. */
  lemma StepOnOpen(b: Builder, t: Token)
    requires t.kind == ContextOpen
    ensures var root := if t.op == Equals then AddInto(b.root, b.contextId, t) else b.root;
            var made := AddNewContext(root, b.contextId, b.nextContextOp);
            Step(b, t) == b.(root := made.0, contextId := made.1)
  {
  }

  /** What the opening token leaves for `AddNewContext` to work on. */
  lemma OpenTarget(b: Builder, t: Token, root: Context)
    requires Consistent(b) && b.contextId >= 0
    requires root == if t.op == Equals then AddInto(b.root, b.contextId, t) else b.root
    ensures NonNegativeIds(root) && HasId(root, b.contextId)
    ensures LeafCount(root) == LeafCount(b.root) + (if t.op == Equals then CountId(b.root, b.contextId) else 0)
  {
    StoreSpec(b, t);
    AddIntoKeepsConsistent(b, t);
    assert Consistent(b.(root := root));
    NumberedIsNonNegative(root, 0);
  }

  /** Opening under an id the tree holds appends one empty child and no token. */
  lemma OpenAt(root: Context, id: int, op: Operator)
    requires NonNegativeIds(root) && HasId(root, id)
    ensures var made := AddNewContext(root, id, op);
            && made.1 == id + 1
            && LeafCount(made.0) == LeafCount(root)
            && AppendedAtFirst(root, made.0, id, Context(id + 1, op, []))
  {
    AddNewContextSpec(root, id, op);
    AppendedKeepsLeafCount(root, AddNewContext(root, id, op).0, id, Context(id + 1, op, []));
  }

  lemma OpenLost(b: Builder, t: Token, root: Context)
    requires Consistent(b) && b.contextId < 0
    requires root == if t.op == Equals then AddInto(b.root, b.contextId, t) else b.root
    ensures AddNewContext(root, b.contextId, b.nextContextOp) == (b.root, -1)
  {
    NumberedIsNonNegative(b.root, 0);
    if HasId(b.root, b.contextId) {
      FoundIdIsNonNegative(b.root, b.contextId);
    }
    AddIntoWithoutMatch(b.root, b.contextId, t);
    AddNewContextSpec(b.root, b.contextId, b.nextContextOp);
  }


  /** `)` leaves the tree alone and moves the cursor by depth: from the root
      to -1, from depth 1 back to the root, from anywhere deeper (or from a
      lost cursor) to -2. */
  lemma CloseSpec(b: Builder, t: Token)
    requires Consistent(b) && t.kind == ContextClose
    ensures Step(b, t).root == b.root
    ensures Step(b, t).contextId == if b.contextId == 0 then -1 else if b.contextId == 1 then 0 else -2
  {
    if b.contextId >= 0 {
      CloseInNumberedTree(b.root, b.contextId);
    } else {
      NumberedIsNonNegative(b.root, 0);
      CloseContextSpec(b.root, b.contextId);
    }
  }

  /** The builder folded over the tokens from state `b`. */
  function WeighFrom(b: Builder, tokens: seq<Token>): (r: Builder)
    ensures Consistent(b) ==> Consistent(r)
    ensures r.root.id == b.root.id && r.root.contextOperator == b.root.contextOperator
    decreases |tokens|
  {
    if |tokens| == 0 then b
    else
      var b' := Step(b, tokens[0]);
      StepOnConsistent(b, tokens[0]);
      WeighFrom(b', tokens[1..])
  }

  lemma StepOnConsistent(b: Builder, t: Token)
    ensures Consistent(b) ==> Consistent(Step(b, t))
  {
    if Consistent(b) {
      StepKeepsConsistent(b, t);
    }
  }

  /** `MathParser.WeighTokens`: the root has id 0 and applies Round, and ids
      in the tree are nesting depths (each child one more than its parent),
      so ids repeat across siblings. */
  function WeighTokens(tokens: seq<Token>): (root: Context)
    ensures root.id == 0 && root.contextOperator == Round
    ensures WellNumbered(root, 0)
  {
    assert WellNumbered(Start.root, 0);
    WeighFrom(Start, tokens).root
  }

  /** Tokens typed ContextOperator carry one of the five context functions,
      as every classified token does. */
  ghost predicate FunctionTokens(tokens: seq<Token>) {
    forall i :: 0 <= i < |tokens| && tokens[i].kind == ContextOperator ==> IsContextFunction(tokens[i].op)
  }

  lemma {:induction false} WeighFromFunctions(b: Builder, tokens: seq<Token>)
    requires Consistent(b) && FunctionsOnly(b.root) && IsContextFunction(b.nextContextOp)
    requires FunctionTokens(tokens)
    ensures FunctionsOnly(WeighFrom(b, tokens).root)
    decreases |tokens|
  {
    if |tokens| > 0 {
      var t := tokens[0];
      StepKeepsFunctions(b, t);
      StepKeepsConsistent(b, t);
      assert FunctionTokens(tokens[1..]) by {
        forall i | 0 <= i < |tokens[1..]| && tokens[1..][i].kind == ContextOperator
          ensures IsContextFunction(tokens[1..][i].op)
        {
          assert tokens[1..][i] == tokens[i + 1];
        }
      }
      WeighFromFunctions(Step(b, t), tokens[1..]);
    }
  }

  /** A step keeps every context applying a context function as long as
      the token, if it is typed ContextOperator, carries one. */
  lemma StepKeepsFunctions(b: Builder, t: Token)
    requires Consistent(b) && FunctionsOnly(b.root) && IsContextFunction(b.nextContextOp)
    requires t.kind == ContextOperator ==> IsContextFunction(t.op)
    ensures FunctionsOnly(Step(b, t).root) && IsContextFunction(Step(b, t).nextContextOp)
  {
    if t.kind != ContextOperator && IsStoredKind(t.kind) {
      AddIntoKeepsFunctions(b.root, b.contextId, t);
    } else if t.kind == ContextOpen {
      var b1 := if t.op == Equals then b.(root := AddInto(b.root, b.contextId, t)) else b;
      AddIntoKeepsFunctions(b.root, b.contextId, t);
      AddIntoKeepsConsistent(b, t);
      OpenKeepsFunctions(b1);
    }
  }

  lemma OpenKeepsFunctions(b: Builder)
    requires Consistent(b) && FunctionsOnly(b.root) && IsContextFunction(b.nextContextOp)
    ensures FunctionsOnly(AddNewContext(b.root, b.contextId, b.nextContextOp).0)
  {
    NumberedIsNonNegative(b.root, 0);
    AddNewContextSpec(b.root, b.contextId, b.nextContextOp);
    if HasId(b.root, b.contextId) {
      var x := Context(b.contextId + 1, b.nextContextOp, []);
      AppendedKeepsFunctions(b.root, AddNewContext(b.root, b.contextId, b.nextContextOp).0, b.contextId, x);
    }
  }

  /** Trees built from tokens like the classified ones apply a context
      function in every context, so calculating their short spans never
      meets a non-function operator. */
  lemma WeighTokensFunctions(tokens: seq<Token>)
    requires FunctionTokens(tokens)
    ensures FunctionsOnly(WeighTokens(tokens))
  {
    assert WellNumbered(Start.root, 0) && FunctionsOnly(Start.root);
    WeighFromFunctions(Start, tokens);
  }

  /** Once the cursor is negative it stays negative and the tree never
      changes again: every later token is lost. */
  lemma {:induction false} LostCursorStaysLost(b: Builder, tokens: seq<Token>)
    requires Consistent(b) && b.contextId < 0
    ensures WeighFrom(b, tokens).root == b.root && WeighFrom(b, tokens).contextId < 0
    decreases |tokens|
  {
    if |tokens| > 0 {
      var t := tokens[0];
      NumberedIsNonNegative(b.root, 0);
      NegativeIdAbsent(b.root, b.contextId);
      AddIntoWithoutMatch(b.root, b.contextId, t);
      AddNewContextSpec(b.root, b.contextId, b.nextContextOp);
      CloseContextSpec(b.root, b.contextId);
      StepKeepsConsistent(b, t);
      LostCursorStaysLost(Step(b, t), tokens[1..]);
    }
  }

  lemma {:induction false} NegativeIdAbsent(c: Context, id: int)
    requires NonNegativeIds(c) && id < 0
    ensures !HasId(c, id)
    ensures !ChildWithId(c, id)
  {
    if HasId(c, id) {
      FoundIdIsNonNegative(c, id);
    }
  }

  /** A `)` met two or more levels deep loses the cursor, because
      `CloseContext` only recognises direct children of the root. */
  lemma DeepCloseLosesCursor(b: Builder, t: Token)
    requires Consistent(b) && t.kind == ContextClose && b.contextId >= 2
    ensures Step(b, t).contextId == -2 && Step(b, t).root == b.root
  {
    CloseInNumberedTree(b.root, b.contextId);
  }

  lemma {:induction false} WeighFromAppend(b: Builder, xs: seq<Token>, ys: seq<Token>)
    ensures WeighFrom(b, xs + ys) == WeighFrom(WeighFrom(b, xs), ys)
    decreases |xs|
  {
    if |xs| == 0 {
      assert xs + ys == ys;
    } else {
      assert (xs + ys)[0] == xs[0];
      assert (xs + ys)[1..] == xs[1..] + ys;
      WeighFromAppend(Step(b, xs[0]), xs[1..], ys);
    }
  }

  /** One token piece per token, in order. */
  function Leaves(tokens: seq<Token>): seq<Piece> {
    seq(|tokens|, i requires 0 <= i < |tokens| => Leaf(tokens[i]))
  }

  lemma {:induction false} FlatFrom(xs: seq<Token>, ts: seq<Token>)
    requires forall i :: 0 <= i < |ts| ==> IsStoredKind(ts[i].kind)
    ensures WeighFrom(Builder(Context(0, Round, Leaves(xs)), 0, Round), ts)
            == Builder(Context(0, Round, Leaves(xs + ts)), 0, Round)
    decreases |ts|
  {
    if |ts| == 0 {
      assert xs + ts == xs;
    } else {
      var b := Builder(Context(0, Round, Leaves(xs)), 0, Round);
      assert Leaves(xs) + [Leaf(ts[0])] == Leaves(xs + [ts[0]]);
      assert Step(b, ts[0]) == Builder(Context(0, Round, Leaves(xs + [ts[0]])), 0, Round);
      assert (xs + [ts[0]]) + ts[1..] == xs + ts;
      FlatFrom(xs + [ts[0]], ts[1..]);
    }
  }

  /** Without groups, functions or closers, every token is stored in the
      root in the order it came: the builder only appends. */
  lemma FlatTokensStayFlat(tokens: seq<Token>)
    requires forall i :: 0 <= i < |tokens| ==> IsStoredKind(tokens[i].kind)
    ensures WeighTokens(tokens) == Context(0, Round, Leaves(tokens))
  {
    assert Leaves([]) == [];
    FlatFrom([], tokens);
    assert [] + tokens == tokens;
  }

  /** "((1))" and whatever follows it: the second `)` is met two levels deep,
      so the tree keeps only the nested 1 and every later token is lost. */
  lemma DoubleParenthesesDropRest(open: Token, close: Token, one: Token, rest: seq<Token>)
    requires open.kind == ContextOpen && open.op == OpenParenthesis
    requires close.kind == ContextClose && one.kind == IValue
    ensures WeighTokens([open, open, one, close] + rest)
            == Context(0, Round, [Nested(Context(1, Round, [Nested(Context(2, Round, [Leaf(one)]))]))])
  {
    var inner := Context(2, Round, []);
    var b1 := Step(Start, open);
    assert b1 == Builder(Context(0, Round, [Nested(Context(1, Round, []))]), 1, Round);
    var b2 := Step(b1, open);
    var c1 := Context(1, Round, []);
    assert c1.pieces + [Nested(inner)] == [Nested(inner)];
    assert AddNewContext(c1, 1, Round) == (Context(1, Round, [Nested(inner)]), 2);
    assert AddNewContext(b1.root, 1, Round) == AddNewFrom(b1.root, 0, [], 1, Round);
    assert b1.root.pieces[1..] == [];
    assert b2 == Builder(Context(0, Round, [Nested(Context(1, Round, [Nested(inner)]))]), 2, Round);
    var b3 := Step(b2, one);
    var full := Context(0, Round, [Nested(Context(1, Round, [Nested(Context(2, Round, [Leaf(one)]))]))]);
    assert AddInto(inner, 2, one) == Context(2, Round, [Leaf(one)]);
    assert AddInto(Context(1, Round, [Nested(inner)]), 2, one) == Context(1, Round, [Nested(Context(2, Round, [Leaf(one)]))]);
    assert b3 == Builder(full, 2, Round);
    assert WellNumbered(full, 0);
    assert Consistent(b3) by {
      assert HasId(full.pieces[0].context.pieces[0].context, 2);
      assert HasId(full.pieces[0].context, 2);
    }
    DeepCloseLosesCursor(b3, close);
    var b4 := Step(b3, close);
    assert Consistent(b4);
    assert WeighFrom(Start, [open, open, one, close]) == b4 by {
      var s := [open, open, one, close];
      assert s[1..] == [open, one, close] && s[1..][1..] == [one, close] && s[1..][1..][1..] == [close];
      assert WeighFrom(Start, s) == WeighFrom(b1, [open, one, close]);
      assert WeighFrom(b1, [open, one, close]) == WeighFrom(b2, [one, close]);
      assert WeighFrom(b2, [one, close]) == WeighFrom(b3, [close]);
      assert [close][1..] == [];
      assert WeighFrom(b3, [close]) == WeighFrom(b4, []);
    }
    WeighFromAppend(Start, [open, open, one, close], rest);
    LostCursorStaysLost(b4, rest);
  }

  /** "x = 1": the `=` is stored after `x` in the root and the group it opens
      follows it, so the root reads `[x, =, (1)]`, the shape the
      calculation recognises as an assignment. */
  lemma AssignmentShape(x: Token, eq: Token, one: Token)
    requires IsStoredKind(x.kind) && IsStoredKind(one.kind)
    requires eq.kind == ContextOpen && eq.op == Equals
    ensures WeighTokens([x, eq, one])
            == Context(0, Round, [Leaf(x), Leaf(eq), Nested(Context(1, Round, [Leaf(one)]))])
  {
    var b1 := Step(Start, x);
    assert b1 == Builder(Context(0, Round, [Leaf(x)]), 0, Round);
    var withEq := Context(0, Round, [Leaf(x), Leaf(eq)]);
    assert AddInto(b1.root, 0, eq) == withEq;
    var withChild := Context(0, Round, [Leaf(x), Leaf(eq), Nested(Context(1, Round, []))]);
    assert withEq.pieces + [Nested(Context(1, Round, []))] == withChild.pieces;
    assert AddNewContext(withEq, 0, Round) == (withChild, 1);
    var b2 := Step(b1, eq);
    assert b2 == Builder(withChild, 1, Round);
    var full := Context(0, Round, [Leaf(x), Leaf(eq), Nested(Context(1, Round, [Leaf(one)]))]);
    assert AddInto(Context(1, Round, []), 1, one) == Context(1, Round, [Leaf(one)]);
    assert AddInto(withChild, 1, one) == full;
    var b3 := Step(b2, one);
    assert b3.root == full;
    var s := [x, eq, one];
    assert s[1..] == [eq, one] && s[1..][1..] == [one] && s[1..][1..][1..] == [];
    assert WeighFrom(Start, s) == WeighFrom(b1, [eq, one]);
    assert WeighFrom(b1, [eq, one]) == WeighFrom(b2, [one]);
    assert WeighFrom(b2, [one]) == WeighFrom(b3, []);
  }

  /** "(1)(2": after the first group closes, the second opens as a sibling
      with the same id 1, so the 2 is appended to both groups. */
  lemma SiblingGroupsShareTokens(open: Token, close: Token, one: Token, two: Token)
    requires open.kind == ContextOpen && open.op == OpenParenthesis
    requires close.kind == ContextClose && one.kind == IValue && two.kind == IValue
    ensures WeighTokens([open, one, close, open, two])
            == Context(0, Round, [Nested(Context(1, Round, [Leaf(one), Leaf(two)])),
                                  Nested(Context(1, Round, [Leaf(two)]))])
  {
    SiblingSteps(open, close, one, two);
    var b1 := Step(Start, open);
    var b2 := Step(b1, one);
    var b3 := Step(b2, close);
    var b4 := Step(b3, open);
    var s := [open, one, close, open, two];
    assert s[1..] == [one, close, open, two];
    assert WeighFrom(Start, s) == WeighFrom(b1, [one, close, open, two]);
    assert [one, close, open, two][1..] == [close, open, two];
    assert WeighFrom(b1, [one, close, open, two]) == WeighFrom(b2, [close, open, two]);
    assert [close, open, two][1..] == [open, two];
    assert WeighFrom(b2, [close, open, two]) == WeighFrom(b3, [open, two]);
    assert [open, two][1..] == [two] && [two][1..] == [];
    assert WeighFrom(b3, [open, two]) == WeighFrom(b4, [two]);
    assert WeighFrom(b4, [two]) == WeighFrom(Step(b4, two), []);
  }

  /** The five builder steps of "(1)(2" one by one. */
  lemma SiblingSteps(open: Token, close: Token, one: Token, two: Token)
    requires open.kind == ContextOpen && open.op == OpenParenthesis
    requires close.kind == ContextClose && one.kind == IValue && two.kind == IValue
    ensures Step(Step(Step(Step(Step(Start, open), one), close), open), two).root
            == Context(0, Round, [Nested(Context(1, Round, [Leaf(one), Leaf(two)])),
                                  Nested(Context(1, Round, [Leaf(two)]))])
  {
    var g := Context(1, Round, []);
    var b1 := Step(Start, open);
    assert b1 == Builder(Context(0, Round, [Nested(g)]), 1, Round);
    var g1 := Context(1, Round, [Leaf(one)]);
    var b2 := Step(b1, one);
    assert AddInto(g, 1, one) == g1;
    assert b2 == Builder(Context(0, Round, [Nested(g1)]), 1, Round);
    var b3 := Step(b2, close);
    assert CloseContext(b2.root, 1) == 0 by {
      assert CloseContext(g1, 1) == -1;
    }
    assert b3 == Builder(Context(0, Round, [Nested(g1)]), 0, Round);
    var b4 := Step(b3, open);
    assert b4 == Builder(Context(0, Round, [Nested(g1), Nested(g)]), 1, Round);
    assert AddInto(g1, 1, two) == Context(1, Round, [Leaf(one), Leaf(two)]);
    assert AddInto(g, 1, two) == Context(1, Round, [Leaf(two)]);
  }

  // ---------------------------------------------------------------------
  // Parse

  /** `MathParser.Parse` from the fragment list on: tokenize, then build. The
      tree has its root at id 0 under Round, ids equal to depths, and a
      context function in every context. */
  method Parse(fragments: seq<string>, lex: Lexicon) returns (root: Context)
    ensures root.id == 0 && root.contextOperator == Round
    ensures WellNumbered(root, 0) && FunctionsOnly(root)
    ensures root == WeighTokens(ClassifyAll(NonBlank(fragments), lex))
  {
    var tokens := Tokenize(fragments, lex);
    root := WeighTokens(tokens);
    WeighTokensFunctions(tokens);
  }
}
