/** `MathContext` and `MathPiece`: the tree of nested evaluation scopes and
    the three id-addressed operations the builder drives it with. Every
    operation searches the tree from the receiver by id. */
module Contexts {
  import opened Operators
  import opened Tokens

  /** `MathPiece`: a token or a nested context. */
  datatype Piece = Leaf(token: Token) | Nested(context: Context)

  /** `MathContext`: an id, the function applied to its result, and its
      pieces in order. */
  datatype Context = Context(id: int, contextOperator: Operator, pieces: seq<Piece>)

  /** Some context in the tree (the receiver included) has id `id`. */
  ghost predicate HasId(c: Context, id: int)
    decreases c
  {
    c.id == id
    || exists i :: 0 <= i < |c.pieces| && c.pieces[i].Nested? && HasId(c.pieces[i].context, id)
  }

  /** No context in the tree has a negative id. */
  ghost predicate NonNegativeIds(c: Context)
    decreases c
  {
    c.id >= 0
    && forall i :: 0 <= i < |c.pieces| && c.pieces[i].Nested? ==> NonNegativeIds(c.pieces[i].context)
  }

  /** The receiver has id `depth` and every child's id is its parent's plus
      one: ids are nesting depths, so siblings share them. */
  ghost predicate WellNumbered(c: Context, depth: int)
    decreases c
  {
    c.id == depth
    && forall i :: 0 <= i < |c.pieces| && c.pieces[i].Nested? ==> WellNumbered(c.pieces[i].context, depth + 1)
  }

  /** Every context in the tree applies one of the five context functions. */
  ghost predicate FunctionsOnly(c: Context)
    decreases c
  {
    IsContextFunction(c.contextOperator)
    && forall i :: 0 <= i < |c.pieces| && c.pieces[i].Nested? ==> FunctionsOnly(c.pieces[i].context)
  }

  lemma {:induction false} NumberedIsNonNegative(c: Context, depth: int)
    requires WellNumbered(c, depth) && depth >= 0
    ensures NonNegativeIds(c)
    decreases c
  {
    forall i | 0 <= i < |c.pieces| && c.pieces[i].Nested?
      ensures NonNegativeIds(c.pieces[i].context)
    {
      NumberedIsNonNegative(c.pieces[i].context, depth + 1);
    }
  }

  lemma {:induction false} FoundIdIsNonNegative(c: Context, id: int)
    requires NonNegativeIds(c) && HasId(c, id)
    ensures id >= 0
    decreases c
  {
    if c.id != id {
      var i :| 0 <= i < |c.pieces| && c.pieces[i].Nested? && HasId(c.pieces[i].context, id);
      FoundIdIsNonNegative(c.pieces[i].context, id);
    }
  }

  // ---------------------------------------------------------------------
  // AddInto

  /** `MathContext.AddInto`: a receiver with the id gets the token appended;
      any other receiver passes the call to every nested child. */
  function AddInto(c: Context, id: int, t: Token): (r: Context)
    ensures r.id == c.id && r.contextOperator == c.contextOperator
    ensures |r.pieces| == |c.pieces| + (if c.id == id then 1 else 0)
    ensures c.id == id ==> r.pieces == c.pieces + [Leaf(t)]
    decreases c
  {
    if c.id == id then c.(pieces := c.pieces + [Leaf(t)])
    else c.(pieces := seq(|c.pieces|, i requires 0 <= i < |c.pieces| =>
                            if c.pieces[i].Nested? then Nested(AddInto(c.pieces[i].context, id, t))
                            else c.pieces[i]))
  }

  /** Number of token pieces in the whole tree. */
  function LeafCount(c: Context): nat
    decreases c, 1
  {
    LeafCountFrom(c, 0)
  }

  function LeafCountFrom(c: Context, i: nat): nat
    requires i <= |c.pieces|
    decreases c, 0, |c.pieces| - i
  {
    if i == |c.pieces| then 0
    else (match c.pieces[i] case Leaf(_) => 1 case Nested(child) => LeafCount(child))
         + LeafCountFrom(c, i + 1)
  }

  /** Number of contexts with id `id` that have no ancestor with that id:
      the contexts `AddInto` appends to. */
  function TopMatches(c: Context, id: int): nat
    decreases c, 1
  {
    if c.id == id then 1 else TopMatchesFrom(c, 0, id)
  }

  function TopMatchesFrom(c: Context, i: nat, id: int): nat
    requires i <= |c.pieces|
    decreases c, 0, |c.pieces| - i
  {
    if i == |c.pieces| then 0
    else (match c.pieces[i] case Leaf(_) => 0 case Nested(child) => TopMatches(child, id))
         + TopMatchesFrom(c, i + 1, id)
  }

  /** Number of contexts with id `id` anywhere in the tree. */
  function CountId(c: Context, id: int): nat
    decreases c, 1
  {
    (if c.id == id then 1 else 0) + CountIdFrom(c, 0, id)
  }

  function CountIdFrom(c: Context, i: nat, id: int): nat
    requires i <= |c.pieces|
    decreases c, 0, |c.pieces| - i
  {
    if i == |c.pieces| then 0
    else (match c.pieces[i] case Leaf(_) => 0 case Nested(child) => CountId(child, id))
         + CountIdFrom(c, i + 1, id)
  }

  lemma {:induction false} LeafCountAppend(c: Context, c': Context, p: Piece, i: nat)
    requires c'.pieces == c.pieces + [p] && i <= |c.pieces|
    ensures LeafCountFrom(c', i) == LeafCountFrom(c, i) + LeafCountFrom(c'.(pieces := [p]), 0)
    decreases |c.pieces| - i
  {
    if i < |c.pieces| {
      LeafCountAppend(c, c', p, i + 1);
    } else {
      assert c'.pieces[i..] == [p];
    }
  }

  /** `AddInto` adds exactly one token for each context it targets and no
      other token. */
  lemma {:induction false} AddIntoLeafCount(c: Context, id: int, t: Token)
    ensures LeafCount(AddInto(c, id, t)) == LeafCount(c) + TopMatches(c, id)
    decreases c, 1
  {
    var r := AddInto(c, id, t);
    if c.id == id {
      LeafCountAppend(c, r, Leaf(t), 0);
    } else {
      AddIntoLeafCountFrom(c, id, t, 0);
    }
  }

  lemma {:induction false} AddIntoLeafCountFrom(c: Context, id: int, t: Token, i: nat)
    requires c.id != id && i <= |c.pieces|
    ensures LeafCountFrom(AddInto(c, id, t), i) == LeafCountFrom(c, i) + TopMatchesFrom(c, i, id)
    decreases c, 0, |c.pieces| - i
  {
    if i < |c.pieces| {
      AddIntoLeafCountFrom(c, id, t, i + 1);
      if c.pieces[i].Nested? {
        AddIntoLeafCount(c.pieces[i].context, id, t);
      }
    }
  }

  /** In a tree numbered by depth no context lies below another with the same
      id, so `AddInto` reaches every context with the id, siblings and
      cousins included. */
  lemma {:induction false} TopMatchesAreAllMatches(c: Context, depth: int, id: int)
    requires WellNumbered(c, depth) && depth <= id
    ensures TopMatches(c, id) == CountId(c, id)
    decreases c, 1
  {
    if c.id == id {
      NoDeeperMatches(c, depth, id, 0);
    } else {
      TopMatchesAreAllMatchesFrom(c, depth, id, 0);
    }
  }

  lemma {:induction false} TopMatchesAreAllMatchesFrom(c: Context, depth: int, id: int, i: nat)
    requires WellNumbered(c, depth) && depth < id && i <= |c.pieces|
    ensures TopMatchesFrom(c, i, id) == CountIdFrom(c, i, id)
    decreases c, 0, |c.pieces| - i
  {
    if i < |c.pieces| {
      TopMatchesAreAllMatchesFrom(c, depth, id, i + 1);
      if c.pieces[i].Nested? {
        TopMatchesAreAllMatches(c.pieces[i].context, depth + 1, id);
      }
    }
  }

  lemma {:induction false} NoDeeperMatches(c: Context, depth: int, id: int, i: nat)
    requires WellNumbered(c, depth) && id <= depth && i <= |c.pieces|
    ensures CountIdFrom(c, i, id) == 0
    decreases c, 0, |c.pieces| - i
  {
    if i < |c.pieces| {
      NoDeeperMatches(c, depth, id, i + 1);
      if c.pieces[i].Nested? {
        var child := c.pieces[i].context;
        NoDeeperMatches(child, depth + 1, id, 0);
        assert CountId(child, id) == 0;
      }
    }
  }

  /** A tree with no context of that id is left as it was. */
  lemma {:induction false} AddIntoWithoutMatch(c: Context, id: int, t: Token)
    requires !HasId(c, id)
    ensures AddInto(c, id, t) == c
    decreases c
  {
    var r := AddInto(c, id, t);
    forall i | 0 <= i < |c.pieces|
      ensures r.pieces[i] == c.pieces[i]
    {
      if c.pieces[i].Nested? {
        AddIntoWithoutMatch(c.pieces[i].context, id, t);
      }
    }
  }

  lemma AddIntoChild(c: Context, id: int, t: Token, i: int)
    requires c.id != id && 0 <= i < |c.pieces|
    ensures AddInto(c, id, t).pieces[i] ==
              if c.pieces[i].Nested? then Nested(AddInto(c.pieces[i].context, id, t)) else c.pieces[i]
  {
  }

  /** `AddInto` only appends tokens: the numbering of the tree, its context
      functions and the set of ids it holds are what they were. */
  lemma {:induction false} AddIntoKeepsNumbering(c: Context, depth: int, id: int, t: Token)
    requires WellNumbered(c, depth)
    ensures WellNumbered(AddInto(c, id, t), depth)
    decreases c
  {
    var r := AddInto(c, id, t);
    forall i | 0 <= i < |r.pieces| && r.pieces[i].Nested?
      ensures WellNumbered(r.pieces[i].context, depth + 1)
    {
      if c.id != id {
        AddIntoChild(c, id, t, i);
        AddIntoKeepsNumbering(c.pieces[i].context, depth + 1, id, t);
      }
    }
  }

  lemma {:induction false} AddIntoKeepsFunctions(c: Context, id: int, t: Token)
    requires FunctionsOnly(c)
    ensures FunctionsOnly(AddInto(c, id, t))
    decreases c
  {
    var r := AddInto(c, id, t);
    forall i | 0 <= i < |r.pieces| && r.pieces[i].Nested?
      ensures FunctionsOnly(r.pieces[i].context)
    {
      if c.id != id {
        AddIntoChild(c, id, t, i);
        AddIntoKeepsFunctions(c.pieces[i].context, id, t);
      }
    }
  }

  lemma {:induction false} AddIntoKeepsIds(c: Context, id: int, t: Token, x: int)
    ensures HasId(AddInto(c, id, t), x) <==> HasId(c, x)
    decreases c
  {
    var r := AddInto(c, id, t);
    if c.id != id {
      forall i | 0 <= i < |c.pieces| && c.pieces[i].Nested?
        ensures r.pieces[i].Nested? && (HasId(r.pieces[i].context, x) <==> HasId(c.pieces[i].context, x))
      {
        AddIntoChild(c, id, t, i);
        AddIntoKeepsIds(c.pieces[i].context, id, t, x);
      }
      if HasId(r, x) && r.id != x {
        var i :| 0 <= i < |r.pieces| && r.pieces[i].Nested? && HasId(r.pieces[i].context, x);
        AddIntoChild(c, id, t, i);
      }
    } else {
      if HasId(r, x) && r.id != x {
        var i :| 0 <= i < |r.pieces| && r.pieces[i].Nested? && HasId(r.pieces[i].context, x);
        assert r.pieces[i] == c.pieces[i];
      }
      if HasId(c, x) && c.id != x {
        var i :| 0 <= i < |c.pieces| && c.pieces[i].Nested? && HasId(c.pieces[i].context, x);
        assert r.pieces[i] == c.pieces[i];
      }
    }
  }

  // ---------------------------------------------------------------------
  // AddNewContext

  /** `MathContext.AddNewContext`: the first context with the id, in
      depth-first pre-order, gets a new empty child `{id + 1, op}` and the
      call returns `id + 1`; -1 means no context took it. A child that
      answers -1 is passed over and the search goes on. */
  function AddNewContext(c: Context, id: int, op: Operator): (r: (Context, int))
    ensures r.0.id == c.id && r.0.contextOperator == c.contextOperator
    ensures r.1 == -1 || r.1 == id + 1
    decreases c, 1
  {
    if c.id == id then (c.(pieces := c.pieces + [Nested(Context(id + 1, op, []))]), id + 1)
    else AddNewFrom(c, 0, [], id, op)
  }

  /** The loop over the receiver's pieces from index `i`; `done` holds the
      pieces already visited, as the visits left them. */
  function AddNewFrom(c: Context, i: nat, done: seq<Piece>, id: int, op: Operator): (r: (Context, int))
    requires i <= |c.pieces|
    ensures r.0.id == c.id && r.0.contextOperator == c.contextOperator
    ensures r.1 == -1 || r.1 == id + 1
    decreases c, 0, |c.pieces| - i
  {
    if i == |c.pieces| then (c.(pieces := done), -1)
    else
      match c.pieces[i]
      case Leaf(_) => AddNewFrom(c, i + 1, done + [c.pieces[i]], id, op)
      case Nested(child) =>
        var (child', ident) := AddNewContext(child, id, op);
        if ident != -1 then (c.(pieces := done + [Nested(child')] + c.pieces[i + 1..]), ident)
        else AddNewFrom(c, i + 1, done + [Nested(child')], id, op)
  }

  /** Piece `j` is the first nested child whose subtree holds id `id`. */
  ghost predicate FirstMatchAt(c: Context, id: int, j: int) {
    && 0 <= j < |c.pieces|
    && c.pieces[j].Nested?
    && HasId(c.pieces[j].context, id)
    && forall k :: 0 <= k < j && c.pieces[k].Nested? ==> !HasId(c.pieces[k].context, id)
  }

  /** `c'` is `c` with `x` appended as the last piece of the first context
      with id `id` in depth-first pre-order, and nothing else changed. */
  ghost predicate AppendedAtFirst(c: Context, c': Context, id: int, x: Context)
    decreases c
  {
    && c'.id == c.id
    && c'.contextOperator == c.contextOperator
    && if c.id == id then c'.pieces == c.pieces + [Nested(x)]
       else exists j :: && FirstMatchAt(c, id, j)
                        && |c'.pieces| == |c.pieces|
                        && (forall k :: 0 <= k < |c.pieces| && k != j ==> c'.pieces[k] == c.pieces[k])
                        && c'.pieces[j].Nested?
                        && AppendedAtFirst(c.pieces[j].context, c'.pieces[j].context, id, x)
  }

  /** Over non-negative ids (every tree the builder makes), `AddNewContext`
      adds one empty child `{id + 1, op}` under the first context with the id
      in depth-first order and answers `id + 1`, or answers -1 and changes
      nothing when no context has the id. */
  lemma {:induction false} AddNewContextSpec(c: Context, id: int, op: Operator)
    requires NonNegativeIds(c)
    ensures !HasId(c, id) ==> AddNewContext(c, id, op) == (c, -1)
    ensures HasId(c, id) ==> AddNewContext(c, id, op).1 == id + 1
                             && AppendedAtFirst(c, AddNewContext(c, id, op).0, id, Context(id + 1, op, []))
    decreases c, 1
  {
    if c.id != id {
      assert c.pieces[..0] == [];
      AddNewFromSpec(c, 0, id, op);
      if HasId(c, id) {
        var k :| 0 <= k < |c.pieces| && c.pieces[k].Nested? && HasId(c.pieces[k].context, id);
        var r := AddNewFrom(c, 0, c.pieces[..0], id, op);
        var j :| && FirstMatchAt(c, id, j)
                 && r.0.pieces == c.pieces[j := Nested(AddNewContext(c.pieces[j].context, id, op).0)]
                 && AppendedAtFirst(c.pieces[j].context, AddNewContext(c.pieces[j].context, id, op).0,
                                    id, Context(id + 1, op, []));
        assert r.0.pieces[j].context == AddNewContext(c.pieces[j].context, id, op).0;
      }
    }
  }

  lemma {:induction false} AddNewFromSpec(c: Context, i: nat, id: int, op: Operator)
    requires NonNegativeIds(c) && c.id != id && i <= |c.pieces|
    requires forall k :: 0 <= k < i && c.pieces[k].Nested? ==> !HasId(c.pieces[k].context, id)
    ensures (forall k :: i <= k < |c.pieces| && c.pieces[k].Nested? ==> !HasId(c.pieces[k].context, id))
            ==> AddNewFrom(c, i, c.pieces[..i], id, op) == (c, -1)
    ensures (exists k :: i <= k < |c.pieces| && c.pieces[k].Nested? && HasId(c.pieces[k].context, id))
            ==> var r := AddNewFrom(c, i, c.pieces[..i], id, op);
                r.1 == id + 1
                && exists j :: && FirstMatchAt(c, id, j)
                               && r.0.pieces == c.pieces[j := Nested(AddNewContext(c.pieces[j].context, id, op).0)]
                               && AppendedAtFirst(c.pieces[j].context, AddNewContext(c.pieces[j].context, id, op).0,
                                                  id, Context(id + 1, op, []))
    decreases c, 0, |c.pieces| - i, 1
  {
    if i == |c.pieces| {
      assert c.pieces[..i] == c.pieces;
    } else if c.pieces[i].Nested? && HasId(c.pieces[i].context, id) {
      AddNewFromHit(c, i, id, op);
    } else {
      AddNewFromSkip(c, i, id, op);
      AddNewFromSpec(c, i + 1, id, op);
    }
  }

  /** A token piece, or a child without the id, is passed over unchanged. */
  lemma {:induction false} AddNewFromSkip(c: Context, i: nat, id: int, op: Operator)
    requires NonNegativeIds(c) && i < |c.pieces|
    requires c.pieces[i].Nested? ==> !HasId(c.pieces[i].context, id)
    ensures AddNewFrom(c, i, c.pieces[..i], id, op) == AddNewFrom(c, i + 1, c.pieces[..i + 1], id, op)
    decreases c, 0, |c.pieces| - i, 0
  {
    assert c.pieces[..i] + [c.pieces[i]] == c.pieces[..i + 1];
    if c.pieces[i].Nested? {
      AddNewContextSpec(c.pieces[i].context, id, op);
    }
  }

  /** The loop meets the first child holding the id at `i`: that child is
      replaced by its updated copy and the new id is returned. */
  lemma {:induction false} AddNewFromHit(c: Context, i: nat, id: int, op: Operator)
    requires NonNegativeIds(c) && c.id != id && i < |c.pieces|
    requires forall k :: 0 <= k < i && c.pieces[k].Nested? ==> !HasId(c.pieces[k].context, id)
    requires c.pieces[i].Nested? && HasId(c.pieces[i].context, id)
    ensures var r := AddNewFrom(c, i, c.pieces[..i], id, op);
            var child' := AddNewContext(c.pieces[i].context, id, op).0;
            && r.1 == id + 1
            && FirstMatchAt(c, id, i)
            && r.0.pieces == c.pieces[i := Nested(child')]
            && AppendedAtFirst(c.pieces[i].context, child', id, Context(id + 1, op, []))
    decreases c, 0, |c.pieces| - i, 0
  {
    var child := c.pieces[i].context;
    assert NonNegativeIds(child);
    AddNewContextSpec(child, id, op);
    FoundIdIsNonNegative(child, id);
    var child' := AddNewContext(child, id, op).0;
    assert c.pieces[..i] + [Nested(child')] + c.pieces[i + 1..] == c.pieces[i := Nested(child')];
  }

  /** The context appended by `AddNewContext` is numbered one deeper than its
      parent, so numbering by depth survives. */
  lemma {:induction false} AppendedKeepsNumbering(c: Context, c': Context, id: int, x: Context, depth: int)
    requires AppendedAtFirst(c, c', id, x) && WellNumbered(c, depth)
    requires x.id == id + 1 && x.pieces == []
    ensures WellNumbered(c', depth)
    decreases c
  {
    if c.id != id {
      var j :| && FirstMatchAt(c, id, j)
               && |c'.pieces| == |c.pieces|
               && (forall k :: 0 <= k < |c.pieces| && k != j ==> c'.pieces[k] == c.pieces[k])
               && c'.pieces[j].Nested?
               && AppendedAtFirst(c.pieces[j].context, c'.pieces[j].context, id, x);
      AppendedKeepsNumbering(c.pieces[j].context, c'.pieces[j].context, id, x, depth + 1);
    } else {
      assert WellNumbered(x, depth + 1);
    }
  }

  lemma {:induction false} AppendedKeepsFunctions(c: Context, c': Context, id: int, x: Context)
    requires AppendedAtFirst(c, c', id, x) && FunctionsOnly(c)
    requires IsContextFunction(x.contextOperator) && x.pieces == []
    ensures FunctionsOnly(c')
    decreases c
  {
    if c.id != id {
      var j :| && FirstMatchAt(c, id, j)
               && |c'.pieces| == |c.pieces|
               && (forall k :: 0 <= k < |c.pieces| && k != j ==> c'.pieces[k] == c.pieces[k])
               && c'.pieces[j].Nested?
               && AppendedAtFirst(c.pieces[j].context, c'.pieces[j].context, id, x);
      AppendedKeepsFunctions(c.pieces[j].context, c'.pieces[j].context, id, x);
    } else {
      assert FunctionsOnly(x);
    }
  }

  lemma {:induction false} AppendedHoldsNew(c: Context, c': Context, id: int, x: Context)
    requires AppendedAtFirst(c, c', id, x)
    ensures HasId(c', x.id)
    decreases c
  {
    if c.id != id {
      var j :| && FirstMatchAt(c, id, j)
               && |c'.pieces| == |c.pieces|
               && (forall k :: 0 <= k < |c.pieces| && k != j ==> c'.pieces[k] == c.pieces[k])
               && c'.pieces[j].Nested?
               && AppendedAtFirst(c.pieces[j].context, c'.pieces[j].context, id, x);
      AppendedHoldsNew(c.pieces[j].context, c'.pieces[j].context, id, x);
    } else {
      var n := |c.pieces|;
      assert c'.pieces[n] == Nested(x);
      assert HasId(x, x.id);
    }
  }

  /** Opening a context adds no token anywhere in the tree. */
  lemma {:induction false} AppendedKeepsLeafCount(c: Context, c': Context, id: int, x: Context)
    requires AppendedAtFirst(c, c', id, x) && x.pieces == []
    ensures LeafCount(c') == LeafCount(c)
    decreases c
  {
    if c.id == id {
      LeafCountAppend(c, c', Nested(x), 0);
      var single := c'.(pieces := [Nested(x)]);
      assert LeafCountFrom(single, 1) == 0;
      assert LeafCount(x) == LeafCountFrom(x, 0) == 0;
    } else {
      var j :| && FirstMatchAt(c, id, j)
               && |c'.pieces| == |c.pieces|
               && (forall k :: 0 <= k < |c.pieces| && k != j ==> c'.pieces[k] == c.pieces[k])
               && c'.pieces[j].Nested?
               && AppendedAtFirst(c.pieces[j].context, c'.pieces[j].context, id, x);
      AppendedKeepsLeafCount(c.pieces[j].context, c'.pieces[j].context, id, x);
      LeafCountReplace(c, c', j, 0);
    }
  }

  /** Replacing one nested child by one with as many tokens keeps the count. */
  lemma {:induction false} LeafCountReplace(c: Context, c': Context, j: int, i: nat)
    requires |c'.pieces| == |c.pieces| && 0 <= j < |c.pieces| && i <= |c.pieces|
    requires forall k :: 0 <= k < |c.pieces| && k != j ==> c'.pieces[k] == c.pieces[k]
    requires c.pieces[j].Nested? && c'.pieces[j].Nested?
    requires LeafCount(c'.pieces[j].context) == LeafCount(c.pieces[j].context)
    ensures LeafCountFrom(c', i) == LeafCountFrom(c, i)
    decreases |c.pieces| - i
  {
    if i < |c.pieces| {
      LeafCountReplace(c, c', j, i + 1);
    }
  }

  // ---------------------------------------------------------------------
  // CloseContext

  /** `MathContext.CloseContext`: -1 when the receiver itself has the id; the
      receiver's id when one of its children answers -1; -2 otherwise. */
  function CloseContext(c: Context, closedId: int): (r: int)
    ensures c.id == closedId ==> r == -1
    ensures r == -1 || r == -2 || r == c.id
    decreases c, 1
  {
    if c.id == closedId then -1 else CloseFrom(c, 0, closedId)
  }

  function CloseFrom(c: Context, i: nat, closedId: int): (r: int)
    requires i <= |c.pieces|
    ensures r == -2 || r == c.id
    decreases c, 0, |c.pieces| - i
  {
    if i == |c.pieces| then -2
    else
      var ident := match c.pieces[i] case Leaf(_) => -2 case Nested(child) => CloseContext(child, closedId);
      if ident == -1 then c.id else CloseFrom(c, i + 1, closedId)
  }

  /** Some direct child of `c` has id `x`. */
  ghost predicate ChildWithId(c: Context, x: int) {
    exists i :: 0 <= i < |c.pieces| && c.pieces[i].Nested? && c.pieces[i].context.id == x
  }

  /** Over non-negative ids `CloseContext` recognises the receiver and its
      direct children only: a match two or more levels down answers -2. */
  lemma CloseContextSpec(c: Context, x: int)
    requires NonNegativeIds(c)
    ensures CloseContext(c, x) == if c.id == x then -1 else if ChildWithId(c, x) then c.id else -2
  {
    if c.id != x {
      CloseFromSpec(c, 0, x);
    }
  }

  lemma {:induction false} CloseFromSpec(c: Context, i: nat, x: int)
    requires NonNegativeIds(c) && i <= |c.pieces|
    ensures CloseFrom(c, i, x) ==
              if exists k :: i <= k < |c.pieces| && c.pieces[k].Nested? && c.pieces[k].context.id == x
              then c.id else -2
    decreases |c.pieces| - i
  {
    if i < |c.pieces| {
      CloseFromSpec(c, i + 1, x);
      if c.pieces[i].Nested? {
        assert NonNegativeIds(c.pieces[i].context);
      }
    }
  }

  /** In a tree numbered by depth from a root at 0, closing from depth 0
      answers -1, from depth 1 the root's id 0 (once a child exists), and
      from any deeper context -2. */
  lemma CloseInNumberedTree(c: Context, depth: int)
    requires WellNumbered(c, 0) && depth >= 0
    ensures depth == 0 ==> CloseContext(c, depth) == -1
    ensures depth == 1 && HasId(c, 1) ==> CloseContext(c, depth) == 0
    ensures depth >= 2 ==> CloseContext(c, depth) == -2
  {
    NumberedIsNonNegative(c, 0);
    CloseContextSpec(c, depth);
    if depth == 1 && HasId(c, 1) {
      var i :| 0 <= i < |c.pieces| && c.pieces[i].Nested? && HasId(c.pieces[i].context, 1);
      assert c.pieces[i].context.id == 1;
    }
  }
}
