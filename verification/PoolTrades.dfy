/**
 * What each pool message does, side by side and owner by owner: when it is carried out, at which amounts, who is
 * credited and whose shares change. None of the predicates here names the functions that carry it out.
 */
module PoolTrades {
  import opened Common
  import opened Arithmetic
  import opened MapSums
  import opened PoolLedger
  import opened PoolMessages
  import opened PoolCurve
  import opened PoolConservation
  import opened PoolQuotes

  // ---- Who is paid ----

  /** The part of a pair of amounts that is in one token. */
  function PartIn(pool: Pool, token: Token, x0: nat, x1: nat): nat {
    if token == Fungible(pool.token0) then x0
    else if token == Native && pool.token1 == None then x1
    else if pool.token1.Some? && token == Fungible(pool.token1.value) then x1
    else 0
  }

  /** `owner` may claim `x0` and `x1` more; nobody else's claimable balance and no claiming balance differs. */
  ghost predicate Pays(s: State, s1: State, owner: Account, x0: nat, x1: nat) {
    && s1.claiming == s.claiming
    && forall token: Token, o: Account ::
         BalanceOf(s1.claimable, token, o) == BalanceOf(s.claimable, token, o) + if o == owner then PartIn(s.pool, token, x0, x1) else 0
  }

  /** Both amounts fit in the owner's claimable balances. */
  predicate HasRoom(s: State, owner: Account, x0: nat, x1: nat) {
    && BalanceOf(s.claimable, Fungible(s.pool.token0), owner) + x0 <= U128_MAX
    && (s.pool.token1 == None ==> BalanceOf(s.claimable, Native, owner) + x1 <= U128_MAX)
    && (s.pool.token1.Some? ==> BalanceOf(s.claimable, Fungible(s.pool.token1.value), owner) + x1 <= U128_MAX)
  }

  predicate SameShares(s: State, s1: State) {
    s1.shares == s.shares && s1.totalSupply == s.totalSupply
  }

  lemma CreditPays(s: State, owner: Account, x0: Amount, x1: Amount)
    requires s.pool.Valid()
    ensures var r := CreditPair(s, owner, x0, x1);
      !r.Panic? && (r.Ok? <==> HasRoom(s, owner, x0, x1)) && r.state.pool == s.pool && SameShares(s, r.state) &&
      (r.Ok? ==> Pays(s, r.state, owner, x0, x1))
  {
    CreditPairClaims(s, owner, x0, x1);
    CreditPairKeepsShares(s, owner, x0, x1);
    if CreditsFit(s, owner, x0, x1) {
      CreditPairOnlyCredits(s, owner, x0, x1);
    }
  }

  // ---- Swaps ----

  /** The curve's prices of the inputs that a swap brings; a missing input buys nothing. */
  predicate PricedAt(c: Curve, pool: Pool, m: Message, out0: Amount, out1: Amount)
    requires m.Swap?
  {
    && (if m.maybeIn1.Some? then c.swapOut0(pool, m.maybeIn1.value) == Value(out0) else out0 == 0)
    && (if m.maybeIn0.Some? then c.swapOut1(pool, m.maybeIn0.value) == Value(out1) else out1 == 0)
  }

  /** Every input buys something, no output is under its minimum, and neither reserve is emptied. */
  predicate Acceptable(pool: Pool, m: Message, out0: Amount, out1: Amount)
    requires m.Swap?
  {
    var in0, in1 := m.maybeIn0.GetOr(0), m.maybeIn1.GetOr(0);
    && (in0 > 0 || in1 > 0) && (out0 > 0 || out1 > 0) && (in0 > 0 ==> out1 > 0) && (in1 > 0 ==> out0 > 0)
    && (m.min0.Some? ==> m.min0.value <= out0) && (m.min1.Some? ==> m.min1.value <= out1)
    && out0 < pool.reserve0 && out1 < pool.reserve1
  }

  /** The native balance covers a native output, and the new reserves are amounts. */
  predicate Affordable(pool: Pool, m: Message, out0: Amount, out1: Amount)
    requires m.Swap?
  {
    && (pool.token1 == None && out1 > 0 ==> out1 <= m.nativeBalance)
    && pool.reserve0 + m.maybeIn0.GetOr(0) <= U128_MAX + out0 && pool.reserve1 + m.maybeIn1.GetOr(0) <= U128_MAX + out1
  }

  /** The reserves take the inputs and give the outputs, which are credited to the receiver. */
  ghost predicate Traded(s: State, s1: State, m: Message, out0: nat, out1: nat)
    requires m.Swap?
  {
    && s1.pool.reserve0 + out0 == s.pool.reserve0 + m.maybeIn0.GetOr(0)
    && s1.pool.reserve1 + out1 == s.pool.reserve1 + m.maybeIn1.GetOr(0)
    && s1.pool == s.pool.(reserve0 := s1.pool.reserve0, reserve1 := s1.pool.reserve1, blockTimestamp := m.now)
    && SameShares(s, s1)
    && (HasRoom(s, m.to.GetOr(m.origin), out0, out1) ==> Pays(s, s1, m.to.GetOr(m.origin), out0, out1))
  }

  /** The whole input is credited back and nothing else changes. */
  ghost predicate Refunded(s: State, s1: State, m: Message)
    requires m.Swap?
  {
    && s1.pool == s.pool && SameShares(s, s1)
    && (HasRoom(s, m.origin, m.maybeIn0.GetOr(0), m.maybeIn1.GetOr(0)) ==>
          Pays(s, s1, m.origin, m.maybeIn0.GetOr(0), m.maybeIn1.GetOr(0)))
  }

  lemma TradedCommit(s: State, m: Message, plan: Plan)
    requires s.pool.Valid() && m.Swap? && plan.Fill? && Exchanges(s, m, plan)
    ensures CommitSwap(s, m, plan).Some? && Traded(s, CommitSwap(s, m, plan).value, m, plan.out0, plan.out1)
  {
    CreditPays(s.(pool := s.pool.Liquid(plan.balance0, plan.balance1, m.now)), m.to.GetOr(m.origin), plan.out0, plan.out1);
  }

  lemma RefundedCommit(s: State, m: Message)
    requires s.pool.Valid() && m.Swap?
    ensures CommitSwap(s, m, Refund).Some? && Refunded(s, CommitSwap(s, m, Refund).value, m)
  {
    CreditPays(s, m.origin, m.maybeIn0.GetOr(0), m.maybeIn1.GetOr(0));
  }

  lemma PlanExact(c: Curve, s: State, m: Message, out0: Amount, out1: Amount)
    requires m.Swap? && PricedAt(c, s.pool, m, out0, out1)
    ensures var check := c.keepsProduct(s.pool, m.maybeIn0.GetOr(0), m.maybeIn1.GetOr(0), out0, out1);
      var plan := SwapPlan(c, s, m);
      (plan.Crash? <==> Acceptable(s.pool, m, out0, out1) && check.Abort?) &&
      (plan.Fill? <==> Acceptable(s.pool, m, out0, out1) && check.Value? && Affordable(s.pool, m, out0, out1)) &&
      (plan.Fill? ==> plan.out0 == out0 && plan.out1 == out1)
  {
  }

  /**
   * A swap on a live pool moves the reserves, by its inputs and the curve's prices of them, exactly when the prices are
   * acceptable, the product check allows them and they are affordable. Otherwise the input is credited back, unless the
   * product check itself panics.
   */
  lemma SwapExact(c: Curve, s: State, m: Message, out0: Amount, out1: Amount)
    requires s.pool.Valid() && Initialized(s) && m.Swap? && PricedAt(c, s.pool, m, out0, out1)
    ensures var check := c.keepsProduct(s.pool, m.maybeIn0.GetOr(0), m.maybeIn1.GetOr(0), out0, out1);
      var r := HandleSwap(c, s, m);
      (r.None? <==> Acceptable(s.pool, m, out0, out1) && check.Abort?) &&
      (r.Some? ==>
         if Acceptable(s.pool, m, out0, out1) && check.Value? && Affordable(s.pool, m, out0, out1)
         then Traded(s, r.value, m, out0, out1) else Refunded(s, r.value, m))
  {
    PlanExact(c, s, m, out0, out1);
    var plan := SwapPlan(c, s, m);
    if plan.Fill? {
      TradedCommit(s, m, plan);
    } else {
      RefundedCommit(s, m);
    }
  }

  /** A swap on a pool that is not live is credited back, or rejected when there is no room. */
  lemma DeadSwap(c: Curve, s: State, m: Message)
    requires s.pool.Valid() && !Initialized(s) && m.Swap?
    ensures var r := HandleSwap(c, s, m);
      (r.Some? <==> HasRoom(s, m.origin, m.maybeIn0.GetOr(0), m.maybeIn1.GetOr(0))) && (r.Some? ==> Refunded(s, r.value, m))
  {
    CreditPays(s, m.origin, m.maybeIn0.GetOr(0), m.maybeIn1.GetOr(0));
  }

  /** A swap with one input that the curve refuses to price is credited back; one it panics on is rejected, or refused before. */
  lemma UnpricedSwap(c: Curve, s: State, m: Message)
    requires s.pool.Valid() && Initialized(s) && m.Swap? && (m.maybeIn0 == None) != (m.maybeIn1 == None)
    ensures var price := if m.maybeIn1.Some? then c.swapOut0(s.pool, m.maybeIn1.value) else c.swapOut1(s.pool, m.maybeIn0.value);
      var refusedFirst := m.maybeIn0.Some? && m.min0.Some? && m.min0.value > 0;
      var r := HandleSwap(c, s, m);
      (price.Unavailable? ==> r.Some? && Refunded(s, r.value, m)) &&
      (price.Abort? ==> if refusedFirst then r.Some? && Refunded(s, r.value, m) else r.None?)
  {
    RefundedCommit(s, m);
    UnpricedPlan(c, s, m);
  }

  lemma UnpricedPlan(c: Curve, s: State, m: Message)
    requires m.Swap? && (m.maybeIn0 == None) != (m.maybeIn1 == None)
    ensures var price := if m.maybeIn1.Some? then c.swapOut0(s.pool, m.maybeIn1.value) else c.swapOut1(s.pool, m.maybeIn0.value);
      var refusedFirst := m.maybeIn0.Some? && m.min0.Some? && m.min0.value > 0;
      (price.Unavailable? ==> SwapPlan(c, s, m) == Refund) &&
      (price.Abort? ==> SwapPlan(c, s, m) == if refusedFirst then Refund else Crash)
  {
  }

  // ---- Swaps at the contract's prices ----

  /** The fee-adjusted proportion of one side, and the largest output within it. */
  predicate Buys(fee: nat, amountIn: Amount, inReserve: Amount, outReserve: Amount, out: Amount) {
    fee <= FEE_BASE &&
    var net := amountIn * (FEE_BASE - fee);
    out * (inReserve * FEE_BASE + net) <= net * outReserve < (out + 1) * (inReserve * FEE_BASE + net)
  }

  /** The 256-bit arithmetic of the price and of the product check does not overflow. */
  predicate Narrows(fee: nat, pool: Pool, in0: Amount, in1: Amount, out0: Amount, out1: Amount) {
    && in0 * (FEE_BASE - fee) * pool.reserve1 < U256_RANGE && in1 * (FEE_BASE - fee) * pool.reserve0 < U256_RANGE
    && pool.reserve0 * pool.reserve1 * FEE_BASE * FEE_BASE < U256_RANGE
    && 0 <= (pool.reserve0 + in0 - out0) * FEE_BASE - in0 * fee && 0 <= (pool.reserve1 + in1 - out1) * FEE_BASE - in1 * fee
    && ((pool.reserve0 + in0 - out0) * FEE_BASE - in0 * fee) * ((pool.reserve1 + in1 - out1) * FEE_BASE - in1 * fee) < U256_RANGE
  }

  /**
   * Buying the first token on the contract's own curve, in numbers: filled at the largest output within the
   * fee-adjusted proportion, exactly when that is positive, not under the minimum, and the native sum is an amount.
   */
  lemma BuyAtContractPrice(fee: nat, optimal0: (Pool, Amount) -> Option<Amount>, optimal1: (Pool, Amount) -> Option<Amount>,
                           s: State, m: Message, x: Amount, out: Amount)
    requires s.pool.Valid() && Initialized(s) && m.Swap? && m.maybeIn0 == None && m.maybeIn1 == Some(x) && x > 0
    requires Buys(fee, x, s.pool.reserve1, s.pool.reserve0, out) && Narrows(fee, s.pool, 0, x, out, 0)
    ensures var r := HandleSwap(ContractCurve(fee, optimal0, optimal1), s, m);
      r.Some? &&
      if out > 0 && m.min0.GetOr(0) <= out && m.min1.GetOr(0) == 0 && s.pool.reserve1 + x <= U128_MAX
      then Traded(s, r.value, m, out, 0) else Refunded(s, r.value, m)
  {
    var c := ContractCurve(fee, optimal0, optimal1);
    PriceExact(fee, x, s.pool.reserve1, s.pool.reserve0, out);
    QuotePassesCheck(fee, x, s.pool.reserve1, s.pool.reserve0);
    assert c.swapOut0(s.pool, x) == Value(out);
    assert c.keepsProduct(s.pool, 0, x, out, 0) == Value(());
    SwapExact(c, s, m, out, 0);
  }

  /** Selling the first token likewise; a native output must also be covered by the native balance. */
  lemma SaleAtContractPrice(fee: nat, optimal0: (Pool, Amount) -> Option<Amount>, optimal1: (Pool, Amount) -> Option<Amount>,
                            s: State, m: Message, x: Amount, out: Amount)
    requires s.pool.Valid() && Initialized(s) && m.Swap? && m.maybeIn0 == Some(x) && m.maybeIn1 == None && x > 0
    requires Buys(fee, x, s.pool.reserve0, s.pool.reserve1, out) && Narrows(fee, s.pool, x, 0, 0, out)
    ensures var r := HandleSwap(ContractCurve(fee, optimal0, optimal1), s, m);
      r.Some? &&
      if out > 0 && m.min0.GetOr(0) == 0 && m.min1.GetOr(0) <= out && s.pool.reserve0 + x <= U128_MAX &&
         (s.pool.token1 == None ==> out <= m.nativeBalance)
      then Traded(s, r.value, m, 0, out) else Refunded(s, r.value, m)
  {
    var c := ContractCurve(fee, optimal0, optimal1);
    PriceExact(fee, x, s.pool.reserve0, s.pool.reserve1, out);
    QuotePassesCheck(fee, x, s.pool.reserve0, s.pool.reserve1);
    assert c.swapOut1(s.pool, x) == Value(out);
    assert c.keepsProduct(s.pool, x, 0, 0, out) == Value(());
    SwapExact(c, s, m, 0, out);
  }

  lemma CheckKeepsProduct(fee: nat, r0: Amount, r1: Amount, in0: Amount, in1: Amount, out0: Amount, out1: Amount)
    requires out0 <= r0 && out1 <= r1 && KeepsProduct(fee, r0, r1, in0, in1, out0, out1).Value?
    ensures (r0 + in0 - out0) * (r1 + in1 - out1) >= r0 * r1
  {
    var b0, b1 := r0 + in0 - out0, r1 + in1 - out1;
    MulMonotone(b0 * FEE_BASE - in0 * fee, b0 * FEE_BASE, b1 * FEE_BASE - in1 * fee, b1 * FEE_BASE);
    MulAssoc(b0, FEE_BASE, b1 * FEE_BASE);
    MulAssoc(b0, b1, FEE_BASE);
  }

  lemma PlanKeepsProduct(fee: nat, optimal0: (Pool, Amount) -> Option<Amount>, optimal1: (Pool, Amount) -> Option<Amount>,
                         s: State, m: Message)
    requires m.Swap?
    ensures var plan := SwapPlan(ContractCurve(fee, optimal0, optimal1), s, m);
      plan.Fill? ==> plan.balance0 * plan.balance1 >= s.pool.reserve0 * s.pool.reserve1
  {
    var plan := SwapPlan(ContractCurve(fee, optimal0, optimal1), s, m);
    if plan.Fill? {
      CheckKeepsProduct(fee, s.pool.reserve0, s.pool.reserve1, m.maybeIn0.GetOr(0), m.maybeIn1.GetOr(0), plan.out0, plan.out1);
    }
  }

  lemma CommitKeepsProduct(s: State, m: Message, plan: Plan)
    requires s.pool.Valid() && m.Swap? && (plan.Fill? ==> Exchanges(s, m, plan))
    requires plan.Fill? ==> plan.balance0 * plan.balance1 >= s.pool.reserve0 * s.pool.reserve1
    ensures var r := CommitSwap(s, m, plan);
      r.Some? ==> r.value.pool.reserve0 * r.value.pool.reserve1 >= s.pool.reserve0 * s.pool.reserve1
  {
    if plan.Fill? {
      TradedCommit(s, m, plan);
    } else if plan.Refund? {
      RefundedCommit(s, m);
    }
  }

  /** On the contract's curve no swap of any shape lowers the product of the reserves, filled or credited back. */
  lemma SwapNeverLowersProduct(fee: nat, optimal0: (Pool, Amount) -> Option<Amount>, optimal1: (Pool, Amount) -> Option<Amount>,
                               s: State, m: Message)
    requires s.pool.Valid() && m.Swap?
    ensures var r := HandleSwap(ContractCurve(fee, optimal0, optimal1), s, m);
      r.Some? ==> r.value.pool.reserve0 * r.value.pool.reserve1 >= s.pool.reserve0 * s.pool.reserve1
  {
    var c := ContractCurve(fee, optimal0, optimal1);
    if Initialized(s) {
      PlanKeepsProduct(fee, optimal0, optimal1, s, m);
      CommitKeepsProduct(s, m, SwapPlan(c, s, m));
    } else {
      DeadSwap(c, s, m);
    }
  }

  // ---- Liquidity ----

  /** The pool after a settlement at new reserves; nothing else of it differs. */
  predicate SettledAt(c: Curve, pool: Pool, pool1: Pool, r0: nat, r1: nat, now: Timestamp) {
    && pool1.reserve0 == r0 && pool1.reserve1 == r1 && pool1.kLast == c.root(pool1.reserve0, pool1.reserve1)
    && pool1 == pool.(reserve0 := pool1.reserve0, reserve1 := pool1.reserve1, kLast := pool1.kLast, blockTimestamp := now)
  }

  /** Every account's shares after the pending fee, except that `owner`'s differ by `change`, as does the total. */
  ghost predicate SharesChange(c: Curve, s: State, s1: State, owner: Account, change: int) {
    && EffectiveTotalSupply(c, s.pool, s.totalSupply).Some?
    && s1.totalSupply == EffectiveTotalSupply(c, s.pool, s.totalSupply).value + change
    && forall a: Account :: Get(s1.shares, a) == Burnable(c, s, a) + if a == owner then change else 0
  }

  /** What a number of shares is worth at the supply after the fee, if it meets the minimums. */
  function Payout(c: Curve, s: State, m: Message): Option<(Amount, Amount)>
    requires m.Remove?
  {
    match EffectiveTotalSupply(c, s.pool, s.totalSupply)
    case None => None
    case Some(supply) =>
      match c.withdrawal(s.pool, m.liquidity, supply)
      case None => None
      case Some((x0, x1)) =>
        if x0 > 0 && x1 > 0 && m.min0.GetOr(0) <= x0 && m.min1.GetOr(0) <= x1 then Some((x0, x1)) else None
  }

  lemma RemoveLedger(c: Curve, s: State, m: Message)
    requires SharesBalanced(s) && m.Remove?
    ensures var r := RemoveLiquidity(c, s, m.origin, m.liquidity, m.min0, m.min1, m.now);
      (r.Ok? <==> Payout(c, s, m).Some? && m.liquidity <= Burnable(c, s, m.origin) &&
                  Payout(c, s, m).value.0 <= s.pool.reserve0 && Payout(c, s, m).value.1 <= s.pool.reserve1) &&
      (r.Ok? ==>
         Payout(c, s, m) == Some(r.value) && r.state.claimable == s.claimable && r.state.claiming == s.claiming &&
         SettledAt(c, s.pool, r.state.pool, s.pool.reserve0 - r.value.0, s.pool.reserve1 - r.value.1, m.now) &&
         SharesChange(c, s, r.state, m.origin, 0 - (m.liquidity as int)))
  {
    FeeRaisesSupply(c, s);
    var r1 := MintFee(c, s);
    if r1.Ok? {
      BurnBalances(r1.state, m.origin, m.liquidity);
      SumAtLeast(r1.state.shares, m.origin);
    }
  }

  /**
   * A withdrawal is carried out exactly when the payout meets the minimums, the origin holds the shares, the reserves
   * and the receiver's balances have room. Then the receiver is credited, side by side, what leaves the reserves, and
   * the origin alone loses the shares.
   */
  lemma RemoveExact(c: Curve, s: State, m: Message)
    requires s.pool.Valid() && SharesBalanced(s) && m.Remove?
    ensures var r, to := HandleRemove(c, s, m), m.to.GetOr(m.origin);
      (r.Some? <==>
         Initialized(s) && Payout(c, s, m).Some? && m.liquidity <= Burnable(c, s, m.origin) &&
         Payout(c, s, m).value.0 <= s.pool.reserve0 && Payout(c, s, m).value.1 <= s.pool.reserve1 &&
         HasRoom(s, to, Payout(c, s, m).value.0, Payout(c, s, m).value.1)) &&
      (r.Some? ==>
         (var (x0, x1) := Payout(c, s, m).value;
          SettledAt(c, s.pool, r.value.pool, s.pool.reserve0 - x0, s.pool.reserve1 - x1, m.now) &&
          SharesChange(c, s, r.value, m.origin, 0 - (m.liquidity as int)) && Pays(s, r.value, to, x0, x1)))
  {
    RemoveLedger(c, s, m);
    var r := RemoveLiquidity(c, s, m.origin, m.liquidity, m.min0, m.min1, m.now);
    if r.Ok? {
      CreditPays(r.state, m.to.GetOr(m.origin), r.value.0, r.value.1);
    }
  }

  /**
   * The deposit that is used: on an empty pool all of both legs; otherwise all of one, and of the other what matches
   * it. A leg that is trimmed must meet its minimum; an untrimmed one is not compared with its own.
   */
  lemma DepositLegs(c: Curve, pool: Pool, in0: Amount, in1: Amount, min0: Option<Amount>, min1: Option<Amount>)
    ensures var q := SwapAmountPair(c, pool, in0, in1, min0, min1);
      var match1, match0 := c.optimal1(pool, in0), c.optimal0(pool, in1);
      if pool.reserve0 == 0 && pool.reserve1 == 0 then q == Value((in0, in1))
      else if match1 == None then q.Abort?
      else if match1.value <= in1 then
        if match1.value >= min1.GetOr(0) then q == Value((in0, match1.value)) else q.Unavailable?
      else if match0 == None then q.Abort?
      else if match0.value <= in0 && match0.value >= min0.GetOr(0) then q == Value((match0.value, in1)) else q.Unavailable?
  {
  }

  lemma MintTo(c: Curve, s: State, x0: Amount, x1: Amount, to: Account)
    requires SharesBalanced(s) && x0 > 0 && x1 > 0
    ensures var r, supply := MintShares(c, s, x0, x1, to), EffectiveTotalSupply(c, s.pool, s.totalSupply);
      !r.Err? &&
      (r.Ok? <==> supply.Some? && c.shares(s.pool, supply.value, x0, x1).Some? &&
                  supply.value + c.shares(s.pool, supply.value, x0, x1).value <= U128_MAX) &&
      (r.Ok? ==>
         Some(r.value) == c.shares(s.pool, supply.value, x0, x1) && r.state.pool == s.pool &&
         r.state.claimable == s.claimable && r.state.claiming == s.claiming && SharesChange(c, s, r.state, to, r.value))
  {
    FeeRaisesSupply(c, s);
    var r1 := MintFee(c, s);
    if r1.Ok? && c.shares(r1.state.pool, r1.state.totalSupply, x0, x1).Some? {
      MintBalances(r1.state, to, c.shares(r1.state.pool, r1.state.totalSupply, x0, x1).value);
    }
  }

  /** The shares two legs earn at the supply after the fee, if the new total is an amount. */
  function Earned(c: Curve, s: State, x0: Amount, x1: Amount): Option<Amount> {
    match EffectiveTotalSupply(c, s.pool, s.totalSupply)
    case None => None
    case Some(supply) =>
      match c.shares(s.pool, supply, x0, x1)
      case None => None
      case Some(l) => if supply + l <= U128_MAX then Some(l) else None
  }

  lemma AddLedger(c: Curve, s: State, x0: Amount, x1: Amount, to: Account, now: Timestamp)
    requires SharesBalanced(s) && x0 > 0 && x1 > 0
    ensures var r := AddLiquidity(c, s, x0, x1, to, now);
      (r.Err? <==> s.pool.reserve0 + x0 > U128_MAX || s.pool.reserve1 + x1 > U128_MAX) && (r.Err? ==> r.state == s) &&
      (r.Ok? <==> !r.Err? && Earned(c, s, x0, x1).Some?) &&
      (r.Ok? ==>
         r.state.claimable == s.claimable && r.state.claiming == s.claiming &&
         SettledAt(c, s.pool, r.state.pool, s.pool.reserve0 + x0, s.pool.reserve1 + x1, now) &&
         SharesChange(c, s, r.state, to, Earned(c, s, x0, x1).value))
  {
    MintTo(c, s, x0, x1, to);
  }

  /** A deposit whose sums do not fit, or with a leg of nothing, is credited back. */
  predicate TooLarge(s: State, x0: Amount, x1: Amount) {
    x0 == 0 || x1 == 0 || s.pool.reserve0 + x0 > U128_MAX || s.pool.reserve1 + x1 > U128_MAX
  }

  /**
   * A deposit that uses `x0` and `x1` adds exactly them to the reserves, mints the earned shares to the receiver, and
   * credits the origin with what was not used.
   */
  lemma AddExact(c: Curve, s: State, m: Message, x0: Amount, x1: Amount)
    requires s.pool.Valid() && SharesBalanced(s) && m.Add?
    requires SwapAmountPair(c, s.pool, m.in0, m.in1, m.min0, m.min1) == Value((x0, x1))
    ensures var r, to := HandleAdd(c, s, m), m.to.GetOr(m.origin);
      if TooLarge(s, x0, x1) then
        (r.Some? <==> HasRoom(s, m.origin, m.in0, m.in1)) &&
        (r.Some? ==> r.value.pool == s.pool && SameShares(s, r.value) && Pays(s, r.value, m.origin, m.in0, m.in1))
      else
        (r.Some? <==> Earned(c, s, x0, x1).Some? && HasRoom(s, m.origin, m.in0 - x0, m.in1 - x1)) &&
        (r.Some? ==>
           SettledAt(c, s.pool, r.value.pool, s.pool.reserve0 + x0, s.pool.reserve1 + x1, m.now) &&
           SharesChange(c, s, r.value, to, Earned(c, s, x0, x1).value) &&
           Pays(s, r.value, m.origin, m.in0 - x0, m.in1 - x1))
  {
    if x0 == 0 || x1 == 0 {
      CreditPays(s, m.origin, m.in0, m.in1);
    } else {
      AddLedger(c, s, x0, x1, m.to.GetOr(m.origin), m.now);
      var r := AddLiquidity(c, s, x0, x1, m.to.GetOr(m.origin), m.now);
      assert HandleAdd(c, s, m) == FinishAdd(m, x0, x1, r);
      if r.Ok? {
        FinishedAdd(s, m, x0, x1, r.state, r.value);
      } else {
        RequirePays(s, m.origin, m.in0, m.in1);
      }
    }
  }

  /** What is left of a deposit after it was used goes back to its origin. */
  lemma FinishedAdd(s: State, m: Message, x0: Amount, x1: Amount, s1: State, liquidity: Amount)
    requires s.pool.Valid() && m.Add? && x0 <= m.in0 && x1 <= m.in1
    requires s1.claimable == s.claimable && s1.claiming == s.claiming
    requires s1.pool.token0 == s.pool.token0 && s1.pool.token1 == s.pool.token1
    ensures var f := FinishAdd(m, x0, x1, Ok(s1, liquidity));
      (f.Some? <==> HasRoom(s, m.origin, m.in0 - x0, m.in1 - x1)) &&
      (f.Some? ==> f.value.pool == s1.pool && SameShares(s1, f.value) && Pays(s, f.value, m.origin, m.in0 - x0, m.in1 - x1))
  {
    var y0: Amount, y1: Amount := m.in0 - x0, m.in1 - x1;
    var f := Require(CreditPair(s1, m.origin, y0, y1));
    assert FinishAdd(m, x0, x1, Ok(s1, liquidity)) == f;
    RequirePays(s1, m.origin, y0, y1);
    PaysFrom(s, s1, f, m.origin, y0, y1);
  }

  lemma RequirePays(s: State, owner: Account, x0: Amount, x1: Amount)
    requires s.pool.Valid()
    ensures var f := Require(CreditPair(s, owner, x0, x1));
      (f.Some? <==> HasRoom(s, owner, x0, x1)) &&
      (f.Some? ==> f.value.pool == s.pool && SameShares(s, f.value) && Pays(s, f.value, owner, x0, x1))
  {
    CreditPays(s, owner, x0, x1);
  }

  lemma PaysFrom(s: State, s0: State, f: Option<State>, owner: Account, x0: Amount, x1: Amount)
    requires s0.claimable == s.claimable && s0.claiming == s.claiming
    requires s0.pool.token0 == s.pool.token0 && s0.pool.token1 == s.pool.token1
    ensures HasRoom(s0, owner, x0, x1) <==> HasRoom(s, owner, x0, x1)
    ensures f.Some? ==> (Pays(s0, f.value, owner, x0, x1) <==> Pays(s, f.value, owner, x0, x1))
  {
  }

  /** A deposit without usable legs is credited back, or rejected when a ratio panics. */
  lemma UnusableAdd(c: Curve, s: State, m: Message)
    requires s.pool.Valid() && m.Add?
    ensures var q, r := SwapAmountPair(c, s.pool, m.in0, m.in1, m.min0, m.min1), HandleAdd(c, s, m);
      (q.Abort? ==> r.None?) &&
      (q.Unavailable? ==>
         (r.Some? <==> HasRoom(s, m.origin, m.in0, m.in1)) &&
         (r.Some? ==> r.value.pool == s.pool && SameShares(s, r.value) && Pays(s, r.value, m.origin, m.in0, m.in1)))
  {
    CreditPays(s, m.origin, m.in0, m.in1);
  }

  /** A pool is opened exactly when it is not live and both legs are positive; the receiver gets the first shares. */
  lemma OpeningExact(c: Curve, s: State, m: Message)
    requires SharesBalanced(s) && m.InitializePool?
    ensures var r, to := Handle(c, s, m), m.to.GetOr(m.origin);
      (r.Some? <==> !Initialized(s) && m.in0 > 0 && m.in1 > 0 && Earned(c, s, m.in0, m.in1).Some?) &&
      (r.Some? ==>
         r.value.claimable == s.claimable && r.value.claiming == s.claiming &&
         SettledAt(c, s.pool, r.value.pool, m.in0, m.in1, m.now) &&
         SharesChange(c, s, r.value, to, Earned(c, s, m.in0, m.in1).value))
  {
    if m.in0 > 0 && m.in1 > 0 {
      MintTo(c, s, m.in0, m.in1, m.to.GetOr(m.origin));
    }
  }

  // ---- The rest ----

  /** A returned leg goes to its owner's balance of its own token. */
  lemma ReturnExact(c: Curve, s: State, owner: Account, token: Option<ApplicationId>, amount: Amount)
    ensures var r := Handle(c, s, ReturnLeg(owner, token, amount));
      var t := if token == None then Native else Fungible(token.value);
      (r.Some? <==> amount > 0 && BalanceOf(s.claimable, t, owner) + amount <= U128_MAX) &&
      (r.Some? ==>
         r.value.(claimable := s.claimable) == s &&
         forall u: Token, o: Account ::
           BalanceOf(r.value.claimable, u, o) == BalanceOf(s.claimable, u, o) + if u == t && o == owner then amount else 0)
  {
  }

  /** Only the setter names the fee receiver or the next setter, and that is all a change does. */
  lemma SetterExact(c: Curve, s: State, operator: Account, account: Account)
    ensures Handle(c, s, ChangeFeeTo(operator, account)) ==
      if operator == s.pool.feeToSetter then Some(s.(pool := s.pool.(feeTo := account))) else None
    ensures Handle(c, s, ChangeFeeToSetter(operator, account)) ==
      if operator == s.pool.feeToSetter then Some(s.(pool := s.pool.(feeToSetter := account))) else None
  {
  }
}
