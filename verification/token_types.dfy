/** The `[Flags]` token type: a bit set whose named single bits are listed
    below. Every value the engine builds fits in the low seven bits, so the
    set is kept as a byte. */
module TokenTypes {

  type TokenType = bv8

  const Invalid: TokenType := 0
  const OperatorKind: TokenType := 1
  const ValueReference: TokenType := 2
  const DValue: TokenType := 4
  const IValue: TokenType := 8
  const ContextOpen: TokenType := 16
  const ContextClose: TokenType := 32
  const ContextOperator: TokenType := 64

  /** The engine's own flag test: `Invalid` (no bits) only matches itself,
      any other flag matches when all of its bits are present. */
  function IsSet(self: TokenType, flag: TokenType): (r: bool)
    ensures flag != Invalid ==> (r <==> HasFlag(self, flag))
    ensures flag == Invalid ==> (r <==> self == Invalid)
    ensures r ==> HasFlag(self, flag)
  {
    if flag == Invalid then self == Invalid else self & flag == flag
  }

  /** .NET `Enum.HasFlag`: all bits of `flag` are present (so the empty flag
      is present in everything). */
  function HasFlag(self: TokenType, flag: TokenType): (r: bool)
    ensures r <==> self | flag == self
    ensures flag == Invalid ==> r
  {
    self & flag == flag
  }

  /** Bit `k` of `t`. */
  predicate HasBit(t: TokenType, k: nat)
    requires k < 8
  {
    t & ((1 as bv8) << k) != 0
  }

  /** `IsSet` read bit by bit: against `Invalid` it is equality, against any
      other flag it means every bit of the flag is set in `t`. */
  lemma IsSetMeansEveryBit(t: TokenType, f: TokenType)
    ensures f == Invalid ==> (IsSet(t, f) <==> t == Invalid)
    ensures f != Invalid ==> (IsSet(t, f) <==> forall k :: 0 <= k < 8 && HasBit(f, k) ==> HasBit(t, k))
  {
    if f != Invalid {
      if IsSet(t, f) {
        SetHasEveryBit(t, f);
      }
      if forall k :: 0 <= k < 8 && HasBit(f, k) ==> HasBit(t, k) {
        EveryBitIsSet(t, f);
      }
    }
  }

  lemma SetHasEveryBit(t: TokenType, f: TokenType)
    requires t & f == f
    ensures forall k :: 0 <= k < 8 && HasBit(f, k) ==> HasBit(t, k)
  {
  }

  lemma EveryBitIsSet(t: TokenType, f: TokenType)
    requires forall k :: 0 <= k < 8 && HasBit(f, k) ==> HasBit(t, k)
    ensures t & f == f
  {
    assert HasBit(f, 0) ==> HasBit(t, 0);
    assert HasBit(f, 1) ==> HasBit(t, 1);
    assert HasBit(f, 2) ==> HasBit(t, 2);
    assert HasBit(f, 3) ==> HasBit(t, 3);
    assert HasBit(f, 4) ==> HasBit(t, 4);
    assert HasBit(f, 5) ==> HasBit(t, 5);
    assert HasBit(f, 6) ==> HasBit(t, 6);
    assert HasBit(f, 7) ==> HasBit(t, 7);
  }
}
