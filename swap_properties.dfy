/**
 * Properties of the swap arithmetic: the slippage-protected minimum is bounded
 * by the formatted expected amount, coincides with it at zero slippage, and falls
 * as the slippage grows.
 */
module SwapProperties {
  import opened Wrappers
  import opened Decimals
  import opened IntText
  import opened ValidateSwap

  /** For a non-negative amount, the target falls as the slippage grows. */
  lemma TargetOrder(amount: Dec, s1: Dec, s2: Dec, decimals: int)
    requires Value(amount) >= 0.0 && Value(s1) <= Value(s2)
    ensures MinTarget(amount, s2, decimals) <= MinTarget(amount, s1, decimals)
  {
    assert Value(amount) * RealPow10(decimals) >= 0.0;
    assert (Value(s2) - Value(s1)) * (Value(amount) * RealPow10(decimals)) >= 0.0;
  }

  /** With a slippage of at most 1, the target of a non-negative amount is non-negative. */
  lemma TargetNonNegative(amount: Dec, slippage: Dec, decimals: int)
    requires Value(amount) >= 0.0 && Value(slippage) <= 1.0
    ensures 0.0 <= MinTarget(amount, slippage, decimals)
  {
    assert Value(amount) * RealPow10(decimals) >= 0.0;
    assert (1.0 - Value(slippage)) * (Value(amount) * RealPow10(decimals)) >= 0.0;
  }

  /** With a non-negative slippage the target of a non-negative amount never exceeds the full amount. */
  lemma TargetBelowFull(amount: Dec, slippage: Dec, decimals: int)
    requires Value(amount) >= 0.0 && Value(slippage) >= 0.0
    ensures MinTarget(amount, slippage, decimals) <= RawTarget(amount, decimals)
  {
    assert Value(amount) * RealPow10(decimals) >= 0.0;
    assert Value(slippage) * (Value(amount) * RealPow10(decimals)) >= 0.0;
  }

  /** With zero slippage the minimum is the formatted expected amount, read back as an integer. */
  lemma ZeroSlippageIsFormatted(amount: Dec, slippage: Dec, decimals: int)
    requires Value(slippage) == 0.0
    ensures ParseInt(FormatAmount(amount, decimals)) == Some(CalculateMinAmount(amount, slippage, decimals))
  {
    var m := CalculateMinAmount(amount, slippage, decimals);
    var f := ParseInt(FormatAmount(amount, decimals)).value;
    assert MinTarget(amount, slippage, decimals) == RawTarget(amount, decimals);
    TruncatesToUnique(RawTarget(amount, decimals), m, f);
  }

  /**
   * For a non-negative amount and a slippage between 0 and 1, the protected
   * minimum is non-negative and never exceeds the formatted expected amount.
   */
  lemma MinAmountBounds(amount: Dec, slippage: Dec, decimals: int)
    requires Value(amount) >= 0.0 && 0.0 <= Value(slippage) <= 1.0
    ensures 0 <= CalculateMinAmount(amount, slippage, decimals)
    ensures CalculateMinAmount(amount, slippage, decimals) <= ParseInt(FormatAmount(amount, decimals)).value
  {
    var m := CalculateMinAmount(amount, slippage, decimals);
    var f := ParseInt(FormatAmount(amount, decimals)).value;
    TargetNonNegative(amount, slippage, decimals);
    TruncatesToMonotone(0.0, 0, MinTarget(amount, slippage, decimals), m);
    TargetBelowFull(amount, slippage, decimals);
    TruncatesToMonotone(MinTarget(amount, slippage, decimals), m, RawTarget(amount, decimals), f);
  }

  /** For a non-negative amount, a larger slippage never gives a larger minimum. */
  lemma MinAmountAntitone(amount: Dec, s1: Dec, s2: Dec, decimals: int)
    requires Value(amount) >= 0.0 && Value(s1) <= Value(s2)
    ensures CalculateMinAmount(amount, s2, decimals) <= CalculateMinAmount(amount, s1, decimals)
  {
    var m1, m2 := CalculateMinAmount(amount, s1, decimals), CalculateMinAmount(amount, s2, decimals);
    TargetOrder(amount, s1, s2, decimals);
    TruncatesToMonotone(MinTarget(amount, s2, decimals), m2, MinTarget(amount, s1, decimals), m1);
  }
}
