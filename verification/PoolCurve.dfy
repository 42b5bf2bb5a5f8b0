/** The contract's integer share formulas, and the two facts about them that the pool's bookkeeping rests on. */
module PoolCurve {
  import opened Common
  import opened Arithmetic
  import opened PoolLedger

  function Root(n: nat): (r: nat)
    ensures r * r <= n < (r + 1) * (r + 1)
  {
    if n == 0 then 0 else
    var r := Root(n - 1);
    if (r + 1) * (r + 1) <= n then r + 1 else r
  }

  /** Narrowing from 256 bits panics when the value does not fit. */
  function Narrow(n: nat): Option<Amount> {
    if n <= U128_MAX then Some(n) else None
  }

  lemma RootFits(x0: Amount, x1: Amount)
    ensures Root(x0 * x1) <= U128_MAX
    ensures x0 > 0 && x1 > 0 ==> Root(x0 * x1) > 0
  {
    var r := Root(x0 * x1);
    MulMonotone(x0, U128_MAX, x1, U128_MAX);
    if r > U128_MAX {
      MulMonotone(U128_MAX + 1, r, U128_MAX + 1, r);
    }
    if x0 > 0 && x1 > 0 {
      MulMonotone(1, x0, 1, x1);
    }
  }

  function MulDiv(a: nat, b: nat, d: nat): nat
    requires d > 0
  {
    a * b / d
  }

  function Shares(pool: Pool, supply: Amount, x0: Amount, x1: Amount): Option<Amount> {
    if (pool.reserve0 == 0 && pool.reserve1 == 0) || supply == 0 then Narrow(Root(x0 * x1))
    else if pool.reserve0 == 0 || pool.reserve1 == 0 then None
    else Narrow(Min(MulDiv(x0, supply, pool.reserve0), MulDiv(x1, supply, pool.reserve1)))
  }

  function FeeShares(pool: Pool, supply: Amount): Option<Amount> {
    if pool.kLast == 0 then Some(0) else FeeForGrowth(Root(pool.reserve0 * pool.reserve1), pool.kLast, supply)
  }

  function FeeForGrowth(root: nat, kLast: nat, supply: nat): Option<Amount>
    requires kLast > 0
  {
    if root <= kLast then Some(0) else Narrow(MulDiv(supply, root - kLast, root * 5 + kLast))
  }

  function Portion(liquidity: Amount, reserve: Amount, supply: Amount): Option<Amount> {
    if supply == 0 then Some(0) else Narrow(MulDiv(liquidity, reserve, supply))
  }

  function Withdrawal(pool: Pool, liquidity: Amount, supply: Amount): Option<(Amount, Amount)> {
    match Portion(liquidity, pool.reserve0, supply)
    case None => None
    case Some(x0) =>
      match Portion(liquidity, pool.reserve1, supply)
      case None => None
      case Some(x1) => Some((x0, x1))
  }

  function RootOfProduct(x0: Amount, x1: Amount): Amount {
    RootFits(x0, x1);
    Root(x0 * x1)
  }

  // ---- The protocol's fee ----

  /** Of the supply after it is minted, the largest part not above a sixth of the root's growth. */
  predicate SixthOfGrowth(root: nat, kLast: nat, supply: nat, fee: nat)
    requires kLast <= root
  {
    && 6 * root * fee <= (root - kLast) * (supply + fee)
    && 6 * root * (fee + 1) > (root - kLast) * (supply + fee + 1)
  }

  lemma GrowthFeeExact(root: nat, kLast: nat, supply: nat, fee: Amount)
    requires kLast > 0 && FeeForGrowth(root, kLast, supply) == Some(fee)
    ensures if root <= kLast then fee == 0 else SixthOfGrowth(root, kLast, supply, fee)
  {
    if root > kLast {
      Quotient(supply * (root - kLast), root * 5 + kLast);
      SixRoots(root, kLast, supply, fee);
      SixRoots(root, kLast, supply, fee + 1);
    }
  }

  lemma SixRoots(root: nat, kLast: nat, supply: nat, n: nat)
    requires kLast < root
    ensures 6 * root * n == n * (root * 5 + kLast) + n * (root - kLast)
    ensures (root - kLast) * (supply + n) == supply * (root - kLast) + n * (root - kLast)
  {
    MulDistributes(root * 5 + kLast, root - kLast, n);
    MulDistributes(supply, n, root - kLast);
  }

  // ---- Swap prices ----

  const FEE_BASE: nat := 10000

  /** What an input buys after the pool's fee, in hundredths of a percent; 256-bit overflow panics. */
  function OutGiven(fee: nat, amountIn: Amount, inReserve: Amount, outReserve: Amount): Quote<Amount> {
    if inReserve == 0 || outReserve == 0 || amountIn == 0 then Unavailable
    else if fee > FEE_BASE then Abort
    else
      var net := amountIn * (FEE_BASE - fee);
      if net * outReserve >= U256_RANGE then Abort else Value(Bought(net, inReserve, outReserve))
  }

  function Bought(net: nat, inReserve: nat, outReserve: nat): (out: nat)
    requires inReserve > 0 && outReserve > 0
    ensures out < outReserve
  {
    OutWithinReserve(net, inReserve, outReserve);
    net * outReserve / (inReserve * FEE_BASE + net)
  }

  lemma OutWithinReserve(net: nat, inReserve: nat, outReserve: nat)
    requires inReserve > 0 && outReserve > 0
    ensures inReserve * FEE_BASE + net > 0
    ensures net * outReserve / (inReserve * FEE_BASE + net) < outReserve
  {
    var d := inReserve * FEE_BASE + net;
    var out := net * outReserve / d;
    Quotient(net * outReserve, d);
    MulDistributes(inReserve * FEE_BASE, net, outReserve);
    MulPositive(inReserve * FEE_BASE, outReserve);
    if out >= outReserve { MulMonotone(outReserve, out, d, d); }
  }

  /** The price is the largest output within the fee-adjusted proportion. */
  lemma PriceExact(fee: nat, amountIn: Amount, inReserve: Amount, outReserve: Amount, out: Amount)
    requires fee <= FEE_BASE && amountIn > 0 && inReserve > 0 && outReserve > 0
    requires amountIn * (FEE_BASE - fee) * outReserve < U256_RANGE
    ensures OutGiven(fee, amountIn, inReserve, outReserve) == Value(out) <==>
      var net := amountIn * (FEE_BASE - fee);
      out * (inReserve * FEE_BASE + net) <= net * outReserve < (out + 1) * (inReserve * FEE_BASE + net)
  {
    var net := amountIn * (FEE_BASE - fee);
    var d := inReserve * FEE_BASE + net;
    Quotient(net * outReserve, d);
    if out * d <= net * outReserve < (out + 1) * d {
      QuotientUnique(net * outReserve, d, out);
    }
  }

  /** The product check on balances net of the fee on their inputs. */
  function KeepsProduct(fee: nat, r0: Amount, r1: Amount, in0: Amount, in1: Amount, out0: Amount, out1: Amount): Quote<()> {
    var net0, net1 := (r0 + in0 - out0) * FEE_BASE - in0 * fee, (r1 + in1 - out1) * FEE_BASE - in1 * fee;
    if net0 < 0 || net1 < 0 then Abort
    else if net0 * net1 >= U256_RANGE || r0 * r1 * FEE_BASE * FEE_BASE >= U256_RANGE then Abort
    else if net0 * net1 < r0 * r1 * FEE_BASE * FEE_BASE then Unavailable
    else Value(())
  }

  /** The rounded price leaves at least the old product on the reserves net of the fee. */
  lemma PriceKeepsProduct(net: nat, inReserve: nat, outReserve: nat)
    requires inReserve > 0 && outReserve > 0
    ensures var left := outReserve - Bought(net, inReserve, outReserve);
      left > 0 && left * (inReserve * FEE_BASE + net) >= outReserve * inReserve * FEE_BASE
  {
    var d := inReserve * FEE_BASE + net;
    var out := net * outReserve / d;
    OutWithinReserve(net, inReserve, outReserve);
    Quotient(net * outReserve, d);
    MulDistributes(outReserve, out, d);
    MulDistributes(inReserve * FEE_BASE, net, outReserve);
    MulAssoc(outReserve, inReserve, FEE_BASE);
  }

  /**
   * A one-sided swap at the quoted price always passes the contract's own product check, and the product of the
   * reserves it leaves is no smaller: the quote and the check cannot disagree, whatever the fee.
   */
  lemma QuotePassesCheck(fee: nat, amountIn: Amount, inReserve: Amount, outReserve: Amount)
    requires OutGiven(fee, amountIn, inReserve, outReserve).Value?
    ensures var out := OutGiven(fee, amountIn, inReserve, outReserve).value;
      out < outReserve && !KeepsProduct(fee, outReserve, inReserve, 0, amountIn, out, 0).Unavailable? &&
      !KeepsProduct(fee, inReserve, outReserve, amountIn, 0, 0, out).Unavailable? &&
      (outReserve - out) * (inReserve + amountIn) >= outReserve * inReserve
  {
    var net := amountIn * (FEE_BASE - fee);
    var out := OutGiven(fee, amountIn, inReserve, outReserve).value;
    var left, d := outReserve - out, inReserve * FEE_BASE + net;
    PriceKeepsProduct(net, inReserve, outReserve);
    MulDistributes(FEE_BASE, fee, amountIn);
    assert (inReserve + amountIn) * FEE_BASE - amountIn * fee == d;
    MulMonotone(outReserve * inReserve * FEE_BASE, left * d, FEE_BASE, FEE_BASE);
    Scaled(left, d, FEE_BASE);
    assert outReserve * inReserve == inReserve * outReserve;
    ReservesKeepProduct(fee, amountIn, inReserve, outReserve, left);
  }

  lemma Scaled(left: nat, d: nat, base: nat)
    ensures left * base * d == left * d * base
    ensures d * (left * base) == left * d * base
  {
    MulAssoc(left, base, d);
    MulAssoc(left, d, base);
  }

  lemma ReservesKeepProduct(fee: nat, amountIn: nat, inReserve: nat, outReserve: nat, left: nat)
    requires fee <= FEE_BASE && left * (inReserve * FEE_BASE + amountIn * (FEE_BASE - fee)) >= outReserve * inReserve * FEE_BASE
    ensures left * (inReserve + amountIn) >= outReserve * inReserve
  {
    MulMonotone(amountIn, amountIn, FEE_BASE - fee, FEE_BASE);
    MulMonotone(left, left, inReserve * FEE_BASE + amountIn * (FEE_BASE - fee), (inReserve + amountIn) * FEE_BASE);
    MulAssoc(left, inReserve + amountIn, FEE_BASE);
  }

  /** The contract's curve for a pool fee; only the decimal-rounded deposit ratios are left open. */
  function ContractCurve(fee: nat, optimal0: (Pool, Amount) -> Option<Amount>, optimal1: (Pool, Amount) -> Option<Amount>): Curve {
    Curve(FeeShares, Shares, Withdrawal, optimal0, optimal1,
          (pool: Pool, x: Amount) => OutGiven(fee, x, pool.reserve1, pool.reserve0),
          (pool: Pool, x: Amount) => OutGiven(fee, x, pool.reserve0, pool.reserve1),
          (pool: Pool, in0: Amount, in1: Amount, out0: Amount, out1: Amount) =>
            KeepsProduct(fee, pool.reserve0, pool.reserve1, in0, in1, out0, out1),
          RootOfProduct)
  }

  /** What the contract's curve computes, in numbers: the settled root is rounded down. */
  lemma ContractRoot(fee: nat, optimal0: (Pool, Amount) -> Option<Amount>, optimal1: (Pool, Amount) -> Option<Amount>,
                     x0: Amount, x1: Amount)
    ensures var r := ContractCurve(fee, optimal0, optimal1).root(x0, x1); r * r <= x0 * x1 < (r + 1) * (r + 1)
  {
    RootFits(x0, x1);
  }

  /** A withdrawal of existing shares never panics, and each leg is the largest amount in proportion to them. */
  lemma ContractWithdrawal(fee: nat, optimal0: (Pool, Amount) -> Option<Amount>, optimal1: (Pool, Amount) -> Option<Amount>,
                           pool: Pool, liquidity: Amount, supply: Amount)
    requires 0 < supply && liquidity <= supply
    ensures var w := ContractCurve(fee, optimal0, optimal1).withdrawal(pool, liquidity, supply);
      && w.Some?
      && w.value.0 * supply <= liquidity * pool.reserve0 < (w.value.0 + 1) * supply
      && w.value.1 * supply <= liquidity * pool.reserve1 < (w.value.1 + 1) * supply
  {
    PortionFits(liquidity, pool.reserve0, supply);
    PortionFits(liquidity, pool.reserve1, supply);
  }

  lemma PortionFits(liquidity: Amount, reserve: Amount, supply: Amount)
    requires 0 < supply && liquidity <= supply
    ensures var part := Portion(liquidity, reserve, supply);
      part.Some? && part.value * supply <= liquidity * reserve < (part.value + 1) * supply
  {
    var part := MulDiv(liquidity, reserve, supply);
    Quotient(liquidity * reserve, supply);
    MulMonotone(liquidity, supply, reserve, reserve);
    if part > reserve { MulMonotone(reserve + 1, part, supply, supply); }
  }

  /** First shares are the root of the product. */
  lemma ContractFirstShares(fee: nat, optimal0: (Pool, Amount) -> Option<Amount>, optimal1: (Pool, Amount) -> Option<Amount>,
                            pool: Pool, supply: Amount, x0: Amount, x1: Amount)
    requires (pool.reserve0 == 0 && pool.reserve1 == 0) || supply == 0
    ensures var l := ContractCurve(fee, optimal0, optimal1).shares(pool, supply, x0, x1);
      l.Some? && l.value * l.value <= x0 * x1 < (l.value + 1) * (l.value + 1)
  {
    RootFits(x0, x1);
  }

  /** Later shares are the most that keep within both legs' proportions, and panic only when neither leg's are an amount. */
  lemma ContractShares(fee: nat, optimal0: (Pool, Amount) -> Option<Amount>, optimal1: (Pool, Amount) -> Option<Amount>,
                       pool: Pool, supply: Amount, x0: Amount, x1: Amount)
    requires pool.reserve0 > 0 && pool.reserve1 > 0 && supply > 0
    ensures var l := ContractCurve(fee, optimal0, optimal1).shares(pool, supply, x0, x1);
      if l.Some? then MostWithin(l.value, pool, supply, x0, x1)
      else (U128_MAX + 1) * pool.reserve0 <= x0 * supply && (U128_MAX + 1) * pool.reserve1 <= x1 * supply
  {
    var a, b := MulDiv(x0, supply, pool.reserve0), MulDiv(x1, supply, pool.reserve1);
    var l := Min(a, b);
    Quotient(x0 * supply, pool.reserve0);
    Quotient(x1 * supply, pool.reserve1);
    MulMonotone(l, a, pool.reserve0, pool.reserve0);
    MulMonotone(l, b, pool.reserve1, pool.reserve1);
    if l > U128_MAX {
      MulMonotone(U128_MAX + 1, l, pool.reserve0, pool.reserve0);
      MulMonotone(U128_MAX + 1, l, pool.reserve1, pool.reserve1);
    }
  }

  predicate MostWithin(l: nat, pool: Pool, supply: nat, x0: nat, x1: nat) {
    && l * pool.reserve0 <= x0 * supply && l * pool.reserve1 <= x1 * supply
    && ((l + 1) * pool.reserve0 > x0 * supply || (l + 1) * pool.reserve1 > x1 * supply)
  }

  /** The protocol's fee never panics: it is a sixth of the growth of the root since the last settlement, if any. */
  lemma ContractFee(fee: nat, optimal0: (Pool, Amount) -> Option<Amount>, optimal1: (Pool, Amount) -> Option<Amount>,
                    pool: Pool, supply: Amount)
    ensures var c := ContractCurve(fee, optimal0, optimal1);
      var root, minted := c.root(pool.reserve0, pool.reserve1), c.mintFee(pool, supply);
      minted.Some? && if 0 < pool.kLast < root then SixthOfGrowth(root, pool.kLast, supply, minted.value) else minted.value == 0
  {
    RootFits(pool.reserve0, pool.reserve1);
    var root := Root(pool.reserve0 * pool.reserve1);
    if 0 < pool.kLast < root {
      FeeFits(root, pool.kLast, supply);
      GrowthFeeExact(root, pool.kLast, supply, FeeForGrowth(root, pool.kLast, supply).value);
    }
  }

  lemma FeeFits(root: nat, kLast: nat, supply: Amount)
    requires 0 < kLast < root
    ensures FeeForGrowth(root, kLast, supply).Some?
  {
    PartWithin(supply, root - kLast, root * 5 + kLast);
  }

  lemma PartWithin(supply: nat, a: nat, d: nat)
    requires d > 0 && a <= d
    ensures MulDiv(supply, a, d) <= supply
  {
    MulMonotone(supply, supply, a, d);
    QuotientMonotone(supply * a, supply * d, d);
    MulDistributes(supply, 1, d);
    QuotientUnique(supply * d, d, supply);
  }

  /** A first deposit earns shares; a part of the shares leaves something in each reserve, all of them leave nothing. */
  ghost predicate Sound(c: Curve) {
    && (forall pool: Pool, supply: Amount, x0: Amount, x1: Amount ::
          x0 > 0 && x1 > 0 && ((pool.reserve0 == 0 && pool.reserve1 == 0) || supply == 0) ==>
          var l := c.shares(pool, supply, x0, x1); l.Some? ==> l.value > 0)
    && (forall pool: Pool, liquidity: Amount, supply: Amount ::
          liquidity <= supply ==>
          var w := c.withdrawal(pool, liquidity, supply);
          w.Some? ==> Leaves(pool.reserve0, w.value.0, liquidity, supply) && Leaves(pool.reserve1, w.value.1, liquidity, supply))
  }

  predicate Leaves(reserve: Amount, part: Amount, liquidity: Amount, supply: Amount) {
    && (liquidity < supply && reserve > 0 ==> part < reserve)
    && (liquidity == supply > 0 ==> part == reserve)
  }

  lemma PortionLeaves(liquidity: Amount, reserve: Amount, supply: Amount)
    requires liquidity <= supply && Portion(liquidity, reserve, supply).Some?
    ensures Leaves(reserve, Portion(liquidity, reserve, supply).value, liquidity, supply)
  {
    if supply > 0 {
      var part := MulDiv(liquidity, reserve, supply);
      Quotient(liquidity * reserve, supply);
      if liquidity < supply && reserve > 0 {
        MulMonotone(liquidity + 1, supply, reserve, reserve);
        if part >= reserve { MulMonotone(reserve, part, supply, supply); }
      }
      if liquidity == supply {
        if part < reserve { MulMonotone(part + 1, reserve, supply, supply); }
        if part > reserve { MulMonotone(reserve + 1, part, supply, supply); }
      }
    }
  }

  /** The contract's own formulas are sound, whatever its fee and its rounded ratios are. */
  lemma ContractCurveSound(fee: nat, optimal0: (Pool, Amount) -> Option<Amount>, optimal1: (Pool, Amount) -> Option<Amount>)
    ensures Sound(ContractCurve(fee, optimal0, optimal1))
  {
    var c := ContractCurve(fee, optimal0, optimal1);
    forall pool: Pool, supply: Amount, x0: Amount, x1: Amount |
      x0 > 0 && x1 > 0 && ((pool.reserve0 == 0 && pool.reserve1 == 0) || supply == 0)
      ensures var l := c.shares(pool, supply, x0, x1); l.Some? ==> l.value > 0
    {
      RootFits(x0, x1);
    }
    forall pool: Pool, liquidity: Amount, supply: Amount | liquidity <= supply
      ensures var w := c.withdrawal(pool, liquidity, supply);
        w.Some? ==> Leaves(pool.reserve0, w.value.0, liquidity, supply) && Leaves(pool.reserve1, w.value.1, liquidity, supply)
    {
      if c.withdrawal(pool, liquidity, supply).Some? {
        PortionLeaves(liquidity, pool.reserve0, supply);
        PortionLeaves(liquidity, pool.reserve1, supply);
      }
    }
  }
}
