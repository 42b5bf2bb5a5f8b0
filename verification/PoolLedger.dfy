/**
 * The pool contract's books: reserves, liquidity shares, and per-token claimable and claiming balances.
 * Each operation is a function on the state's value; the class `PoolContract.PoolState` updates the
 * fields step by step and is proved against these functions.
 */
module PoolLedger {
  import opened Common
  import opened MapSums

  datatype Token = Native | Fungible(id: ApplicationId)

  function TokenOf(id: Option<ApplicationId>): Token {
    match id
    case Some(a) => Fungible(a)
    case None => Native
  }

  datatype Pool = Pool(
    token0: ApplicationId,
    token1: Option<ApplicationId>,
    reserve0: Amount,
    reserve1: Amount,
    feeTo: Account,
    feeToSetter: Account,
    kLast: Amount,
    blockTimestamp: Timestamp)
  {
    // Pool creation refuses a pair of a token with itself.
    predicate Valid() {
      Some(token0) != token1
    }

    predicate Trades(token: Option<ApplicationId>) {
      match token
      case Some(t) => t == token0 || Some(t) == token1
      case None => token1 == None
    }

    function Liquid(balance0: Amount, balance1: Amount, now: Timestamp): Pool {
      this.(reserve0 := balance0, reserve1 := balance1, blockTimestamp := now)
    }
  }

  /** A priced quantity: a value, an error the caller handles, or an arithmetic panic. */
  datatype Quote<+T> = Value(value: T) | Unavailable | Abort

  /**
   * The numeric curve, left open: every result below holds for any choice of these functions.
   * `None` and `Abort` stand for the arithmetic panics inside the curve.
   */
  datatype Curve = Curve(
    mintFee: (Pool, Amount) -> Option<Amount>,
    shares: (Pool, Amount, Amount, Amount) -> Option<Amount>,
    withdrawal: (Pool, Amount, Amount) -> Option<(Amount, Amount)>,
    optimal0: (Pool, Amount) -> Option<Amount>,
    optimal1: (Pool, Amount) -> Option<Amount>,
    swapOut0: (Pool, Amount) -> Quote<Amount>,
    swapOut1: (Pool, Amount) -> Quote<Amount>,
    keepsProduct: (Pool, Amount, Amount, Amount, Amount) -> Quote<()>,
    root: (Amount, Amount) -> Amount)

  predicate Below(amount: Amount, minimum: Option<Amount>) {
    minimum.Some? && amount < minimum.value
  }

  /** What a number of shares is worth, refused when either leg is nothing or under its minimum. */
  function LiquidityAmountPair(c: Curve, pool: Pool, liquidity: Amount, supply: Amount,
                               min0: Option<Amount>, min1: Option<Amount>): Quote<(Amount, Amount)> {
    match c.withdrawal(pool, liquidity, supply)
    case None => Abort
    case Some((x0, x1)) =>
      if x0 == 0 || x1 == 0 || Below(x0, min0) || Below(x1, min1) then Unavailable else Value((x0, x1))
  }

  /** The part of the desired deposit that matches the reserves' ratio. */
  function SwapAmountPair(c: Curve, pool: Pool, desired0: Amount, desired1: Amount,
                          min0: Option<Amount>, min1: Option<Amount>): (q: Quote<(Amount, Amount)>)
    ensures q.Value? ==> q.value.0 <= desired0 && q.value.1 <= desired1
    ensures q.Value? ==> q.value.0 == desired0 || q.value.1 == desired1
  {
    if pool.reserve0 == 0 && pool.reserve1 == 0 then Value((desired0, desired1)) else
    match c.optimal1(pool, desired0)
    case None => Abort
    case Some(x1) =>
      if x1 <= desired1 then
        if Below(x1, min1) then Unavailable else Value((desired0, x1))
      else
        match c.optimal0(pool, desired1)
        case None => Abort
        case Some(x0) =>
          if x0 > desired0 || Below(x0, min0) then Unavailable else Value((x0, desired1))
  }

  /** Whether a swap leaves both reserves funded and the fee-adjusted product intact. */
  function ValidateSwap(c: Curve, pool: Pool, in0: Amount, in1: Amount, out0: Amount, out1: Amount): Quote<()> {
    if in0 == 0 && in1 == 0 then Unavailable
    else if out0 >= pool.reserve0 || out1 >= pool.reserve1 then Unavailable
    else c.keepsProduct(pool, in0, in1, out0, out1)
  }

  type Balances = map<Token, map<Account, Amount>>

  datatype State = State(
    pool: Pool,
    totalSupply: Amount,
    shares: map<Account, Amount>,
    claimable: Balances,
    claiming: Balances)

  function BalanceOf(b: Balances, token: Token, owner: Account): Amount {
    Get(Inner(b, token), owner)
  }

  predicate Initialized(s: State) {
    s.pool.reserve0 > 0 && s.pool.reserve1 > 0 && s.totalSupply > 0
  }

  type Result<+T> = Outcome<State, T>

  // ---- Shares ----

  function Mint(s: State, to: Account, amount: Amount): Result<()> {
    if s.totalSupply + amount > U128_MAX then Panic else
    var raised := s.(totalSupply := s.totalSupply + amount);
    var share := Get(s.shares, to);
    if share + amount > U128_MAX then Err(raised) else
    Ok(raised.(shares := s.shares[to := share + amount]), ())
  }

  function Burn(s: State, from: Account, liquidity: Amount): Result<()> {
    if s.totalSupply < liquidity then Err(s) else
    var share := Get(s.shares, from);
    if liquidity > share then Panic else
    Ok(s.(totalSupply := s.totalSupply - liquidity, shares := s.shares[from := share - liquidity]), ())
  }

  function MintFee(c: Curve, s: State): Result<()> {
    match c.mintFee(s.pool, s.totalSupply)
    case None => Panic
    case Some(fee) => Mint(s, s.pool.feeTo, fee)
  }

  function MintShares(c: Curve, s: State, x0: Amount, x1: Amount, to: Account): Result<Amount> {
    if x0 == 0 || x1 == 0 then Panic else
    var (s1, _) :- MintFee(c, s);
    match c.shares(s1.pool, s1.totalSupply, x0, x1)
    case None => Panic
    case Some(liquidity) =>
      var (s2, _) :- Mint(s1, to, liquidity);
      Ok(s2, liquidity)
  }

  function Settle(c: Curve, s: State, balance0: Amount, balance1: Amount, now: Timestamp): State {
    s.(pool := s.pool.Liquid(balance0, balance1, now).(kLast := c.root(balance0, balance1)))
  }

  function AddLiquidity(c: Curve, s: State, x0: Amount, x1: Amount, to: Account, now: Timestamp): Result<Amount> {
    if s.pool.reserve0 + x0 > U128_MAX || s.pool.reserve1 + x1 > U128_MAX then Err(s) else
    var (s1, liquidity) :- MintShares(c, s, x0, x1, to);
    Ok(Settle(c, s1, s.pool.reserve0 + x0, s.pool.reserve1 + x1, now), liquidity)
  }

  function InitializeLiquidity(c: Curve, s: State, x0: Amount, x1: Amount, to: Account, now: Timestamp): Result<Amount> {
    if Initialized(s) || x0 == 0 || x1 == 0 then Panic else
    var (s1, liquidity) :- MintShares(c, s, x0, x1, to);
    Ok(Settle(c, s1, x0, x1, now), liquidity)
  }

  function RemoveLiquidity(c: Curve, s: State, from: Account, liquidity: Amount,
                           min0: Option<Amount>, min1: Option<Amount>, now: Timestamp): Result<(Amount, Amount)> {
    var (s1, _) :- MintFee(c, s);
    match LiquidityAmountPair(c, s1.pool, liquidity, s1.totalSupply, min0, min1)
    case Abort => Panic
    case Unavailable => Err(s1)
    case Value((x0, x1)) =>
      var (s2, _) :- Burn(s1, from, liquidity);
      if s2.pool.reserve0 < x0 || s2.pool.reserve1 < x1 then Err(s2) else
      Ok(Settle(c, s2, s2.pool.reserve0 - x0, s2.pool.reserve1 - x1, now), (x0, x1))
  }

  // ---- Claims ----

  /** Adds to one owner's balance; `None` when it would not fit. */
  function Raise(b: Balances, token: Token, owner: Account, amount: Amount): Option<Balances> {
    var current := BalanceOf(b, token, owner);
    if current + amount > U128_MAX then None else
    Some(b[token := Inner(b, token)[owner := current + amount]])
  }

  /** Takes from one owner's balance, forgetting an owner whose balance reaches zero. */
  function Lower(b: Balances, token: Token, owner: Account, amount: Amount): Option<Balances> {
    var current := BalanceOf(b, token, owner);
    if current < amount then None
    else if current == amount then Some(b[token := Inner(b, token) - {owner}])
    else Some(b[token := Inner(b, token)[owner := current - amount]])
  }

  function Credit(s: State, token: Token, owner: Account, amount: Amount): Result<()> {
    if amount == 0 then Panic else
    match Raise(s.claimable, token, owner, amount)
    case None => Err(s)
    case Some(b) => Ok(s.(claimable := b), ())
  }

  function Debit(s: State, token: Token, owner: Account, amount: Amount): Result<()> {
    if amount == 0 then Panic else
    match Lower(s.claimable, token, owner, amount)
    case None => Panic
    case Some(b) => Ok(s.(claimable := b), ())
  }

  function Claim(s: State, token: Token, owner: Account, amount: Amount): Result<()> {
    var (s1, _) :- Debit(s, token, owner, amount);
    match Raise(s1.claiming, token, owner, amount)
    case None => Err(s1)
    case Some(b) => Ok(s1.(claiming := b), ())
  }

  function ClaimSuccess(s: State, token: Token, owner: Account, amount: Amount): Result<()> {
    if amount == 0 then Panic else
    match Lower(s.claiming, token, owner, amount)
    case None => Panic
    case Some(b) => Ok(s.(claiming := b), ())
  }

  function ClaimFail(s: State, token: Token, owner: Account, amount: Amount): Result<()> {
    var (s1, _) :- ClaimSuccess(s, token, owner, amount);
    Credit(s1, token, owner, amount)
  }

  function SetFeeTo(s: State, operator: Account, account: Account): Result<()> {
    if s.pool.feeToSetter != operator then Panic else Ok(s.(pool := s.pool.(feeTo := account)), ())
  }

  function SetFeeToSetter(s: State, operator: Account, account: Account): Result<()> {
    if s.pool.feeToSetter != operator then Panic else Ok(s.(pool := s.pool.(feeToSetter := account)), ())
  }
}
