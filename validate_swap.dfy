/**
 * The amount arithmetic of the swap validation helper (`validate_swap.py`):
 * human-readable decimal amounts converted to a token's smallest unit, a minimum
 * output protected by a slippage tolerance, and a deadline some minutes ahead of
 * the clock, which is a parameter here.
 */
module ValidateSwap {
  import opened Wrappers
  import opened Decimals
  import opened IntText

  /** The exact protected minimum `amount * (1 - slippage) * 10^decimals`, before truncation. */
  function MinTarget(amount: Dec, slippage: Dec, decimals: int): real {
    Value(amount) * (1.0 - Value(slippage)) * RealPow10(decimals)
  }

  /** `n` is the protected minimum truncated toward zero. */
  predicate IsMinAmount(amount: Dec, slippage: Dec, decimals: int, n: int) {
    TruncatesTo(MinTarget(amount, slippage, decimals), n)
  }

  /** The exact amount `amount * 10^decimals` in the token's smallest unit, before truncation. */
  function RawTarget(amount: Dec, decimals: int): real {
    Value(amount) * RealPow10(decimals)
  }

  /** `n` is the amount in the token's smallest unit, truncated toward zero. */
  predicate IsRawAmount(amount: Dec, decimals: int, n: int) {
    TruncatesTo(RawTarget(amount, decimals), n)
  }

  /**
   * `calculate_min_amount`: `amount * (1 - slippage) * 10 ** decimals` in exact
   * decimal arithmetic, truncated toward zero.
   */
  function CalculateMinAmount(amount: Dec, slippage: Dec, decimals: int := 6): (minAmount: int)
    ensures IsMinAmount(amount, slippage, decimals, minAmount)
  {
    var remaining := Sub(One, slippage);
    var minAmountDecimal := Mul(amount, remaining);
    var scaled := Mul(minAmountDecimal, PowTen(decimals));
    assert Value(One) == 1.0;
    assert Value(scaled) == MinTarget(amount, slippage, decimals);
    ToInt(scaled)
  }

  /** `format_amount`: the decimal string of `amount * 10 ** decimals` truncated toward zero. */
  function FormatAmount(amount: Dec, decimals: int := 6): (s: string)
    ensures ParseInt(s).Some? && IsRawAmount(amount, decimals, ParseInt(s).value)
    ensures s == IntToString(ParseInt(s).value)
  {
    var scaled := Mul(amount, PowTen(decimals));
    assert Value(scaled) == RawTarget(amount, decimals);
    IntToString(ToInt(scaled))
  }

  /**
   * `generate_deadline`: the clock reading truncated to whole seconds plus the
   * given minutes: `int(now)` truncates toward zero for every clock reading, and
   * with at least one minute the deadline lies strictly after `now`.
   */
  function GenerateDeadline(now: real, minutes: int := 5): (deadline: int)
    ensures minutes >= 1 ==> deadline as real > now
    ensures TruncatesTo(now, deadline - 60 * minutes)
  {
    Trunc(now) + minutes * 60
  }

  /** The integer and string fields of the dictionary `validate_swap_params` returns. */
  datatype SwapParams = SwapParams(amountIn: string, amountOutMin: string, deadline: int)

  /**
   * `validate_swap_params`: the input amount in the input token's unit, the
   * slippage-protected minimum output in the output token's unit, and a deadline
   * five minutes ahead; both decimals default to 6.
   */
  function ValidateSwapParams(amountIn: Dec, amountOut: Dec, slippage: Dec, now: real,
                              decimalsIn: int := 6, decimalsOut: int := 6): (p: SwapParams)
    ensures ParseInt(p.amountIn).Some? && IsRawAmount(amountIn, decimalsIn, ParseInt(p.amountIn).value)
    ensures p.amountIn == IntToString(ParseInt(p.amountIn).value)
    ensures ParseInt(p.amountOutMin).Some?
    ensures IsMinAmount(amountOut, slippage, decimalsOut, ParseInt(p.amountOutMin).value)
    ensures p.amountOutMin == IntToString(ParseInt(p.amountOutMin).value)
    ensures now < p.deadline as real
    ensures TruncatesTo(now, p.deadline - 300)
  {
    var amountInRaw := FormatAmount(amountIn, decimalsIn);
    var amountOutMin := CalculateMinAmount(amountOut, slippage, decimalsOut);
    SwapParams(amountInRaw, IntToString(amountOutMin), GenerateDeadline(now))
  }
}
