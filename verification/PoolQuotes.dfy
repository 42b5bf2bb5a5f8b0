/** The pool service's quotes, and their agreement with what the contract then executes, for any curve. */
module PoolQuotes {
  import opened Common
  import opened MapSums
  import opened PoolLedger
  import opened PoolMessages

  /** The supply once the pending protocol fee is minted; `None` is the panic on overflow. */
  function EffectiveTotalSupply(c: Curve, pool: Pool, totalSupply: Amount): Option<Amount> {
    match c.mintFee(pool, totalSupply)
    case None => None
    case Some(fee) => if totalSupply + fee > U128_MAX then None else Some(totalSupply + fee)
  }

  /** What a holding is worth; a refused amount is shown as nothing. */
  function QueryLiquidityAmounts(c: Curve, pool: Pool, liquidity: Amount, totalSupply: Amount): Option<(Amount, Amount)> {
    match EffectiveTotalSupply(c, pool, totalSupply)
    case None => None
    case Some(supply) =>
      match LiquidityAmountPair(c, pool, liquidity, supply, None, None)
      case Abort => None
      case Unavailable => Some((0, 0))
      case Value(pair) => Some(pair)
  }

  datatype LiquidityAmount = LiquidityAmount(liquidity: Amount, amount0: Amount, amount1: Amount)

  /** The shares a deposit would earn; an omitted leg is as large as the other needs. */
  function CalculateAmountLiquidity(c: Curve, s: State, desired0: Option<Amount>, desired1: Option<Amount>): Option<LiquidityAmount> {
    if desired0 == None && desired1 == None then None else
    match SwapAmountPair(c, s.pool, desired0.GetOr(U128_MAX), desired1.GetOr(U128_MAX), None, None)
    case Value((x0, x1)) =>
      (match EffectiveTotalSupply(c, s.pool, s.totalSupply)
       case None => None
       case Some(supply) =>
         match c.shares(s.pool, supply, x0, x1)
         case None => None
         case Some(liquidity) => Some(LiquidityAmount(liquidity, x0, x1)))
    case _ => None
  }

  /** The shares an account can burn: its own, and the pending fee if it is the fee receiver. */
  function Burnable(c: Curve, s: State, from: Account): nat {
    Get(s.shares, from) + if from == s.pool.feeTo then c.mintFee(s.pool, s.totalSupply).GetOr(0) else 0
  }

  lemma FeeRaisesSupply(c: Curve, s: State)
    requires SharesBalanced(s)
    ensures var r := MintFee(c, s);
      var supply := EffectiveTotalSupply(c, s.pool, s.totalSupply);
      !r.Err? && (r.Ok? <==> supply.Some?) &&
      (r.Ok? ==> r.state.totalSupply == supply.value && r.state.pool == s.pool && SharesBalanced(r.state) &&
                 forall a :: Get(r.state.shares, a) == Burnable(c, s, a))
  {
    var fee := c.mintFee(s.pool, s.totalSupply);
    if fee.Some? {
      MintBalances(s, s.pool.feeTo, fee.value);
    }
  }

  /**
   * A withdrawal without minimums pays exactly the quote for the same shares, and it succeeds exactly when there is
   * a nonzero quote, the account can burn the shares and the reserves cover the quote.
   */
  lemma RemovePaysQuote(c: Curve, s: State, from: Account, liquidity: Amount, now: Timestamp)
    requires SharesBalanced(s)
    ensures var r := RemoveLiquidity(c, s, from, liquidity, None, None, now);
      var quote := QueryLiquidityAmounts(c, s.pool, liquidity, s.totalSupply);
      (r.Ok? ==> quote == Some(r.value)) &&
      (r.Ok? <==> quote.Some? && quote != Some((0, 0)) && liquidity <= Burnable(c, s, from) &&
                  quote.value.0 <= s.pool.reserve0 && quote.value.1 <= s.pool.reserve1)
  {
    FeeRaisesSupply(c, s);
    var r1 := MintFee(c, s);
    if r1.Ok? {
      BurnBalances(r1.state, from, liquidity);
      SumAtLeast(r1.state.shares, from);
    }
  }

  /** The shares minted for two amounts are the curve's shares at the effective supply, not at the stored one. */
  lemma MintMatchesEffectiveSupply(c: Curve, s: State, x0: Amount, x1: Amount, to: Account)
    requires SharesBalanced(s)
    ensures var r := MintShares(c, s, x0, x1, to);
      r.Ok? ==> (EffectiveTotalSupply(c, s.pool, s.totalSupply).Some? &&
        c.shares(s.pool, EffectiveTotalSupply(c, s.pool, s.totalSupply).value, x0, x1) == Some(r.value))
  {
    FeeRaisesSupply(c, s);
  }

  /**
   * An executed deposit uses the amounts and mints the shares that the service quoted for the same desired amounts:
   * reserves grow by the quoted legs, and the receiver's holding by the quoted shares beside any fee of its own.
   */
  lemma AddMatchesQuote(c: Curve, s: State, in0: Amount, in1: Amount, to: Account, now: Timestamp)
    requires SharesBalanced(s)
    ensures var pair := SwapAmountPair(c, s.pool, in0, in1, None, None);
      pair.Value? ==>
        (var r := AddLiquidity(c, s, pair.value.0, pair.value.1, to, now);
         r.Ok? ==>
           (CalculateAmountLiquidity(c, s, Some(in0), Some(in1)) == Some(LiquidityAmount(r.value, pair.value.0, pair.value.1)) &&
            r.state.pool.reserve0 == s.pool.reserve0 + pair.value.0 &&
            r.state.pool.reserve1 == s.pool.reserve1 + pair.value.1 &&
            Get(r.state.shares, to) == Burnable(c, s, to) + r.value))
  {
    var pair := SwapAmountPair(c, s.pool, in0, in1, None, None);
    if pair.Value? {
      FeeRaisesSupply(c, s);
      MintMatchesEffectiveSupply(c, s, pair.value.0, pair.value.1, to);
    }
  }
}
