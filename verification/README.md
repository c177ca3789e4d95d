# MathParser in Dafny

A model of the expression engine in `Token.cs` and `MathParser.cs`. Text is
split into fragments. Each fragment is classified into a `Token`. The tokens
are folded into a tree of `MathContext` scopes, addressed by integer ids. The
tree is then reduced by `Calculate`, which looks one operator ahead. The model
follows the code as written, quirks included. It is purely functional:
contexts are immutable trees, every tree operation returns the new tree, and
every exception becomes an `Err` of a `Result`.

Modules, in dependency order:

- `Wrappers`, `Errors` (wrappers.dfy): `Option`, `Result`, and one error per
  exception the code throws.
- `Numerics` (numerics.dfy): C# `long` semantics. This covers unchecked
  two's-complement `+ - *`, division truncating toward zero, and bitwise
  `| &`. A `double` is a 64-bit pattern. Its primitives come in as a
  `FloatOps` record and are left uninterpreted.
- `Operators` (operators.dfy): the `Operator` enum, the operator dictionary,
  precedence weights, and the context functions `ApplyFunction` /
  `ApplyFunctionLong`.
- `TokenTypes` (token_types.dfy): the `[Flags]` token type as a byte, the
  engine's `IsSet`, and .NET `HasFlag`.
- `Tokens` (tokens.dfy): the `Token` record, classification of a fragment,
  the long and double `Operate` kernels, `ApplyFunction`, `ApplyOperator`,
  `SetValue` and `AssignToRefrence`. The variable stores are two maps,
  passed in and returned.
- `Contexts` (contexts.dfy): `MathPiece` and `MathContext`, with `AddInto`,
  `AddNewContext` and `CloseContext`.
- `Evaluator` (evaluator.dfy): `Calculate` and `GetToken`. The step that
  combines two operands is a parameter.
- `Parser` (parser.dfy): `Tokenize`, `WeighTokens` (the loop as a fold of
  `Step`), and `Parse` from the fragment list on.

Behaviour of the code that the proofs pin down:

- Context ids are nesting depths. A child gets its parent's id plus one, so
  siblings share ids, and `AddInto` appends a token to every sibling with the
  id (`Parser.SiblingGroupsShareTokens`: in "(1)(2" the 2 lands in both
  groups).
- `CloseContext` only recognises direct children of the receiver. A `)` met
  two or more levels deep sets the cursor to -2. From then on every later
  token is silently dropped (`Parser.DeepCloseLosesCursor`,
  `Parser.LostCursorStaysLost`, `Parser.DoubleParenthesesDropRest`).
- The implicit-multiplication guard asks for all four grouping bits at once.
  No classified token has them, so no `*` is ever inserted.
- `SetValue` returns the reference token unchanged, not the assigned value.
- The root and the pending context function are both Round. The pending
  function is never reset after a group opens.
- `Calculate` reads at most one operator ahead. `2+3*4-5` becomes `2+(3*4)`:
  the `-` is read only for its weight, and the `5` is never read
  (`Evaluator.PrecedenceExample`).
- A "." standing apart from digits becomes a `Dot` operator of weight 0.
  Digits and dots are kept together by the splitter, which is not part of
  this model, so "3.14" reaches classification as one fragment.

## Model

| member | source | states |
|---|---|---|
| Numerics.Wrap | Token.cs:115-117 | unchecked long arithmetic: the result is the exact value modulo 2^64 in the long range, and is the exact value whenever that fits |
| Numerics.TruncDiv | Token.cs:118 | long division never grows the magnitude of the dividend |
| Numerics.TruncDivRemainder | Token.cs:118 | C# division truncates: the remainder is smaller than the divisor in magnitude and is zero or has the dividend's sign |
| Numerics.LogicalOnTruthValues | Token.cs:125-126 | on 0/1 values, bitwise or and and are logical or and and |
| Numerics.BitOperatorExample | Token.cs:125-126 | 6 \| 3 is 7 and 6 & 3 is 2, which max and min would not give |
| Numerics.BitOperatorLaws | Token.cs:125-126 | on any two longs, `\|` and `&` commute and are idempotent, 0 is the unit of `\|` and the zero of `&`, and -1 is the unit of `&` |
| Operators.GetOperator | Token.cs:194-195 | a lookup never yields NoOp |
| Operators.OperatorName | Token.cs:104 | the text an operator contributes to a concatenated token text is a capitalised enum member name of 2 to 16 characters |
| Operators.OperatorNameInjective | Token.cs:104 | different operators contribute different texts |
| Operators.GetOperatorInverse | Token.cs:170-195 | a text resolves to an operator exactly when it is that operator's one dictionary key; every operator except NoOp has one; every other string fails |
| Operators.DictionaryInjective | Token.cs:170-192 | no two keys of the dictionary map to the same operator |
| Operators.GetWeight | Token.cs:196-221 | weight -1 exactly for NoOp, 1 exactly for Add/Subtract, 2 exactly for Multiply/Divide, 3 exactly for Raise and the five context functions, 0 for the rest |
| Operators.PrecedenceOrder | Token.cs:196-221 | multiplicative operators weigh strictly more than additive ones, and power, root and rounding more still |
| Operators.ApplyFunction | Token.cs:230-242 | succeeds exactly for NoOp and the five context functions; NoOp is the identity; any other operator fails |
| Operators.ApplyFunctionLong | Token.cs:243-254 | succeeds exactly for the five context functions; NoOp and the rest fail with the narrowing error |
| Operators.ApplyFunctionLongIsCast | Token.cs:230-254 | for root, round, ceiling and floor the long variant is the double variant followed by the long cast |
| TokenTypes.IsSetMeansEveryBit | Token.cs:255-262 | IsSet against Invalid is equality with Invalid; against any other flag it holds iff every bit of the flag is set |
| TokenTypes.IsSet | Token.cs:255-262 | against Invalid, true only for Invalid itself; against any other flag, exactly `HasFlag`; and it never holds where `HasFlag` fails |
| TokenTypes.HasFlag | MathParser.cs:67 | holds exactly when or-ing the flag into the value changes nothing, so the empty flag is present in every value |
| Tokens.OperatorTokenType | Token.cs:44-51 | the five functions are ContextOperator, "(" and "=" ContextOpen, ")" ContextClose, every other operator Operator |
| Tokens.Classify | Token.cs:39-74 | fixed priority: operator table, long, double, float store, int store, Invalid; a long parse gives an IValue token carrying that long, a double parse (when the long one fails) a DValue token carrying that double, a float-store name a float reference carrying the stored double, an int-store-only name an int reference carrying the stored long; non-operators carry NoOp; text kept; weight from the table or 0; reference bit iff only a store resolves the name; Invalid iff nothing does; never all grouping bits |
| Tokens.ClassifyPrefersFloatStore | Token.cs:62-69 | a name in both stores becomes a float reference with the float store's value |
| Tokens.ApplyContextFunction | Token.cs:92-100 | NoOp returns the token unchanged; otherwise type, weight, text and operator are kept and only the live payload changes: with the DValue bit the double becomes the context function of it, without it the long becomes the long variant of the function applied to the long widened |
| Tokens.Operate | Token.cs:111-129 | fails exactly for operators outside the twelve, for a zero divisor and for MinValue/-1; comparisons and inequality yield 0 or 1, and 1 exactly when `a < b`, `a <= b`, `a > b`, `a >= b` or `a != b` holds respectively |
| Tokens.OperateArithmetic | Token.cs:115-117 | add, subtract and multiply are exact when the result fits and congruent modulo 2^64 always |
| Tokens.OperateDivideTruncates | Token.cs:118 | division by a non-zero divisor other than MinValue / -1 succeeds and truncates toward zero: the remainder is smaller than the divisor and zero or of the dividend's sign |
| Tokens.ComparisonsMirror | Token.cs:120-124 | a<b is b>a, a<=b is b>=a, inequality is symmetric, and a<b is 1 exactly when a>=b is 0 |
| Tokens.LogicalConnectives | Token.cs:120-126 | or and and on comparison results are logical or and and |
| Tokens.OperateDouble | Token.cs:130-145 | succeeds exactly for the nine double operators; a<b and a<=b yield 1.0 exactly when the double order holds of (a, b), a>b and a>=b exactly when it holds of (b, a), 0.0 otherwise |
| Tokens.AssignToReference | Token.cs:75-91 | refuses non-references; always succeeds when the float store knows the name and writes that slot (a long widened); otherwise writes the int slot, with the long value or a double narrowed through the context function, and fails exactly when the int store lacks the name or the narrowing is refused; no other name or store changes |
| Tokens.SetValue | Token.cs:146-153 | fails without the reference bit; on success the stores are those of the assignment and the returned token is the receiver unchanged |
| Tokens.AssignmentReadBack | Token.cs:62-91 | classifying a name again after assigning to it yields the value just written |
| Tokens.ApplyOperator | Token.cs:101-110 | "=" is SetValue; otherwise text is left + operator name + right, type/weight/operator kept; two long operands give exactly the long kernel's result; a long left and a double right narrow the right through the context function and a (long) cast, fail exactly when the context function is refused or the long kernel fails, and give that kernel's result; a DValue left succeeds exactly for the double operators and stores the double kernel's result on the left's long payload widened |
| Contexts.AddInto | MathParser.cs:91-99 | keeps the receiver's id and function; a receiver with the id keeps its pieces in order and gains the token as one more piece at the end; any other keeps its number of pieces |
| Contexts.AddIntoLeafCount | MathParser.cs:91-99 | the tree gains exactly as many tokens as there are contexts with the id and no ancestor with it |
| Contexts.TopMatchesAreAllMatches | MathParser.cs:91-99 | in a depth-numbered tree that count is every context with the id, siblings included |
| Contexts.AddIntoWithoutMatch | MathParser.cs:91-99 | an id absent from the tree leaves it unchanged |
| Contexts.AddIntoKeepsNumbering | MathParser.cs:91-99 | adding a token keeps ids equal to depths |
| Contexts.AddIntoKeepsIds | MathParser.cs:91-99 | adding a token keeps the set of ids in the tree |
| Contexts.AddIntoKeepsFunctions | MathParser.cs:91-99 | adding a token keeps every context's function |
| Contexts.AddNewContext | MathParser.cs:100-116 | keeps the receiver's id and function and answers either -1 or the id plus one |
| Contexts.AddNewContextSpec | MathParser.cs:100-116 | an absent id gives (unchanged tree, -1); otherwise exactly one empty child {id+1, op} is appended to the first context with the id in depth-first order and id+1 is returned |
| Contexts.AddNewFromSpec | MathParser.cs:107-115 | the loop over the children answers -1 and changes nothing when no remaining child holds the id |
| Contexts.AppendedKeepsNumbering | MathParser.cs:104-105 | the new child's id is its parent's plus one, so ids stay nesting depths |
| Contexts.AppendedKeepsFunctions | MathParser.cs:104 | a child opened under a context function keeps every context applying one |
| Contexts.AppendedHoldsNew | MathParser.cs:104-105 | after opening, the tree holds the returned id |
| Contexts.AppendedKeepsLeafCount | MathParser.cs:100-116 | opening an empty context adds no token anywhere in the tree |
| Contexts.CloseContext | MathParser.cs:117-133 | answers -1, -2 or the receiver's id, and -1 when the receiver has the id |
| Contexts.CloseContextSpec | MathParser.cs:117-133 | -1 for the receiver's own id, the receiver's id when a direct child has the id, -2 otherwise, a deeper match included |
| Contexts.CloseInNumberedTree | MathParser.cs:117-133 | in a depth-numbered tree, closing from depth 0 gives -1, from depth 1 gives 0, and from depth 2 or more gives -2 |
| Evaluator.Calculate | MathParser.cs:137-158 | empty span gives false and the invalid token; 1-2 pieces give false and a DValue token; 3 or more give true iff piece 1's operator is "=" |
| Evaluator.GetToken | MathParser.cs:159-167 | a token piece yields itself; a nested piece yields the token of its context calculated from piece 0, and fails exactly when that calculation fails |
| Evaluator.GetTokenTotal | MathParser.cs:159-167 | in a tree whose contexts apply context functions, with a combining step that never fails, every piece yields a token |
| Evaluator.ThreeLeaves | MathParser.cs:143-155 | three token pieces combine as left operand, the middle token's operator, right operand, in that order, and the flag is set exactly for "=" |
| Evaluator.GroupExample | MathParser.cs:143-167 | 2*(3+4) as built is computed as 2*(3+4): the group is calculated first and its token is the right operand of * |
| Evaluator.CalculateShortReadsFirst | MathParser.cs:142-157 | with one or two pieces only piece 0 is read |
| Evaluator.CalculateIgnoresTail | MathParser.cs:143-154 | without the lookahead, pieces after index 2 do not affect the result |
| Evaluator.CalculateFiresOnCut | MathParser.cs:147-153 | with the lookahead, the result depends only on the pieces the suffix from index 2 reads |
| Evaluator.CalculateReadsOnlyReach | MathParser.cs:137-158 | cutting the span at its reach does not change the outcome |
| Evaluator.CalculateReadsTo | MathParser.cs:137-158 | the same, by induction over the span, with the cut position named |
| Evaluator.CalculateTotal | MathParser.cs:135-167 | on a tree whose contexts apply context functions, calculation fails only if combining does |
| Evaluator.CalculateCombines | MathParser.cs:143-155 | three or more pieces give one combination of piece 0, piece 1's operator and the right operand, which is piece 2, or the value of the span from piece 2 when there are five or more pieces and piece 3 weighs more than piece 1; it succeeds exactly when every piece read and that combination succeed, and the flag is set exactly for "=" |
| Evaluator.NestedLookaheadExample | MathParser.cs:143-155 | 1+2*3^4 is computed as 1+(2*(3^4)): the lookahead fires twice and the recursion nests to the right |
| Evaluator.PrecedenceExample | MathParser.cs:143-154 | 2+3*4-5 is computed as 2+(3*4); the - is read only for its weight and the 5 never |
| Parser.IsNullOrWhiteSpace | MathParser.cs:65 | the empty text is blank, and a text is blank exactly when every character in it is .NET white space |
| Parser.NonBlank | MathParser.cs:63-65 | keeps exactly the fragments that are not null-or-white-space, no blank one survives, and a list without blanks comes back as it was |
| Parser.NonBlankAppend | MathParser.cs:63-65 | filtering the concatenation of two lists is the concatenation of the filtered lists, and one fragment is kept exactly when it is not blank, which fixes order and multiplicity |
| Parser.Tokenize | MathParser.cs:60-74 | the tokens are exactly the non-blank fragments classified, in order: one token per non-blank fragment, so no "*" is ever inserted |
| Parser.Step | MathParser.cs:31-55 | a step keeps the root's id and function; only "(" , "=" and ")" move the cursor; only a context function changes the pending one |
| Parser.StepKeepsConsistent | MathParser.cs:32-55 | every step keeps ids equal to depths and the cursor either names a context or is -1 or -2 |
| Parser.StepSpec | MathParser.cs:32-44 | on a consistent builder a context function only becomes pending, an invalid token changes nothing, and a value or operator adds one token per context at the cursor's depth (none when the cursor is lost) without moving the cursor |
| Parser.StoreSpec | MathParser.cs:37-44 | storing at the cursor adds as many tokens as there are contexts at the cursor's depth, and none from a negative cursor |
| Parser.OpenSpec | MathParser.cs:45-51 | "(" or "=" at depth d moves the cursor to d+1; the new empty context is appended to the first context of depth d after an "=" has been stored there, so it follows the "="; no token is added besides the "="; from a lost cursor only the cursor changes, to -1 |
| Parser.OpenAt | MathParser.cs:100-116 | opening under an id a builder tree holds answers the id plus one, appends one empty child at the first context with the id, and adds no token |
| Parser.AssignmentShape | MathParser.cs:23-59 | "x = 1" builds the root `[x, =, (1)]`, the "=" before the group it opens |
| Parser.CloseSpec | MathParser.cs:52-54 | ")" leaves the tree alone and moves the cursor from depth 0 to -1, from depth 1 to 0, and from anywhere else to -2 |
| Parser.WeighFrom | MathParser.cs:29-56 | the fold keeps that invariant and the root's id and function |
| Parser.WeighTokens | MathParser.cs:23-59 | the root has id 0 and function Round, and every child's id is its parent's plus one |
| Parser.FlatTokensStayFlat | MathParser.cs:23-59 | tokens that are all values or binary operators end up as leaves of the root, one per token, in input order |
| Parser.WeighTokensFunctions | MathParser.cs:27-49 | from tokens whose context operators are functions, every context applies a context function |
| Parser.LostCursorStaysLost | MathParser.cs:43-53 | once the cursor is negative the tree never changes again |
| Parser.DeepCloseLosesCursor | MathParser.cs:52-53 | a ")" met at depth 2 or more sets the cursor to -2 and leaves the tree alone |
| Parser.DoubleParenthesesDropRest | MathParser.cs:23-59 | "((1))" followed by anything builds only the nested 1 |
| Parser.SiblingGroupsShareTokens | MathParser.cs:23-59 | in "(1)(2" the second group opens with the same id and the 2 is stored in both groups |
| Parser.Parse | MathParser.cs:17-22 | the parsed tree is the one `WeighTokens` builds from the classified non-blank fragments, rooted at id 0 under Round, numbered by depth, with a context function everywhere |

## Left out

- Splitting text into fragments with the generated regular expression is not
  modelled. `Parse` and `Tokenize` take the fragment list as input.
- `long.TryParse` and `double.TryParse` are culture-dependent library parsers.
  They are the `parseLong`/`parseDouble` fields of the `Lexicon` parameter.
- Floating-point arithmetic is left abstract. `Math.Sqrt`, `Round`,
  `Ceiling`, `Floor`, `Pow`, the double operators and the conversions come
  from the `FloatOps` parameter.
- The `ValueReference<T>` ref struct, the `IValueContainer` interfaces and the
  static `CurrentParser` are replaced by a `Stores` value of two maps. The
  integer map holds 64-bit values, following `ValueReference<long>`
  (Token.cs:66) rather than the `IValueContainer<int>` field
  (MathParser.cs:8) that disagrees with it. The null-parser exception is
  not modelled. A name found in neither store gives
  `UnresolvedReference`; the code would dereference a null reference there.
- `OperatorGetter.ApplyOperator<T>` is an unused stub that always returns
  zero. `GetOperators` only lists the dictionary keys.
- Exception message texts are not modelled; each exception is an `Error`
  constructor.
- Evaluator.Calculate: the call that combines two operands does not match
  any `ApplyOperator` signature. It is the `combine` parameter, so store
  updates from an assignment inside an expression are not threaded through
  the evaluation.
- Evaluator.Calculate: the returned token of the short path is only
  described by its type, weight and text. Its value is the abstract float
  function.
- Tokens.ApplyOperator: the double results of both branches are given in
  terms of the abstract float operations, not as numbers.
- Tokens.Operate: `Raise` goes through the abstract `Math.Pow` and the
  abstract cast.
- The token type is kept as one byte. Every value the engine builds fits in
  the low seven bits.
- Long overflow is modelled as the wrap-around C# performs by default,
  rather than excluded by a precondition.
