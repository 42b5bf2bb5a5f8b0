/**
 * The pool's message handlers on its creator chain, and what a run of them keeps: the shares add up to the
 * total supply, and on each token side everything taken in is in the reserve, claimable, being claimed, or
 * was delivered.
 */
module PoolMessages {
  import opened Common
  import opened MapSums
  import opened PoolLedger

  datatype Message =
    | InitializePool(origin: Account, in0: Amount, in1: Amount, to: Option<Account>, now: Timestamp)
    | Add(origin: Account, in0: Amount, in1: Amount, min0: Option<Amount>, min1: Option<Amount>,
          to: Option<Account>, now: Timestamp)
    | Remove(origin: Account, liquidity: Amount, min0: Option<Amount>, min1: Option<Amount>,
             to: Option<Account>, now: Timestamp)
    // `nativeBalance` is the application's own native balance as the runtime reports it.
    | Swap(origin: Account, maybeIn0: Option<Amount>, maybeIn1: Option<Amount>, min0: Option<Amount>,
           min1: Option<Amount>, to: Option<Account>, nativeBalance: Amount, now: Timestamp)
    | ClaimTokens(origin: Account, token: Option<ApplicationId>, amount: Amount, nativeBalance: Amount)
    | ClaimReceipt(owner: Account, app: ApplicationId, amount: Amount, success: bool)
    // A liquidity deposit whose second leg failed: the first leg, already in custody, is credited.
    | ReturnLeg(owner: Account, token: Option<ApplicationId>, amount: Amount)
    | ChangeFeeTo(operator: Account, account: Account)
    | ChangeFeeToSetter(operator: Account, account: Account)

  /**
   * The messages that the contract's own operations and receipts send to its creator chain. The leg of a deposit that
   * can be returned is always the first one, of the first token, and only where the second token is an application.
   */
  predicate Sent(pool: Pool, m: Message) {
    match m
    case InitializePool(_, in0, in1, _, _) => in0 > 0 && in1 > 0 && pool.token1 == None
    case Add(_, in0, in1, _, _, _, _) => in0 > 0 && in1 > 0
    case Remove(_, liquidity, _, _, _, _) => liquidity > 0
    case Swap(_, maybeIn0, maybeIn1, _, _, _, _, _) =>
      (maybeIn0 == None) != (maybeIn1 == None) && maybeIn0.GetOr(1) > 0 && maybeIn1.GetOr(1) > 0
    case ClaimTokens(_, _, amount, _) => amount > 0
    case ReturnLeg(_, token, amount) => amount > 0 && token == Some(pool.token0) && pool.token1.Some?
    case _ => true
  }

  // The two sides of the pair as claim tokens.
  function Side(pool: Pool, second: bool): Token {
    if second then TokenOf(pool.token1) else Fungible(pool.token0)
  }

  /** Handlers credit nothing for a zero amount. */
  function CreditNonZero(s: State, token: Token, owner: Account, amount: Amount): Result<()> {
    if amount == 0 then Ok(s, ()) else Credit(s, token, owner, amount)
  }

  function CreditPair(s: State, owner: Account, x0: Amount, x1: Amount): Result<()> {
    var (s1, _) :- CreditNonZero(s, Side(s.pool, false), owner, x0);
    CreditNonZero(s1, Side(s.pool, true), owner, x1)
  }

  // ---- Swap ----

  /** What the guards of a swap decide before anything is written. */
  datatype Plan =
    | Fill(out0: Amount, out1: Amount, balance0: Amount, balance1: Amount)
    | Refund
    | Crash

  /** A filled swap adds its inputs to the reserves and takes its outputs from them, leaving both reserves funded. */
  predicate Exchanges(s: State, m: Message, plan: Plan)
    requires m.Swap? && plan.Fill?
  {
    && plan.balance0 + plan.out0 == s.pool.reserve0 + m.maybeIn0.GetOr(0)
    && plan.balance1 + plan.out1 == s.pool.reserve1 + m.maybeIn1.GetOr(0)
    && plan.out0 + plan.out1 > 0 && plan.balance0 > 0 && plan.balance1 > 0
  }

  function QuoteOut(maybeIn: Option<Amount>, price: Amount -> Quote<Amount>): Quote<Amount> {
    match maybeIn
    case None => Value(0)
    case Some(x) => price(x)
  }

  function SwapPlan(c: Curve, s: State, m: Message): (plan: Plan)
    requires m.Swap?
    ensures plan.Fill? ==> Exchanges(s, m, plan)
  {
    var in0, in1 := m.maybeIn0.GetOr(0), m.maybeIn1.GetOr(0);
    match QuoteOut(m.maybeIn1, x => c.swapOut0(s.pool, x))
    case Abort => Crash
    case Unavailable => Refund
    case Value(out0) =>
      if Below(out0, m.min0) then Refund else
      match QuoteOut(m.maybeIn0, x => c.swapOut1(s.pool, x))
      case Abort => Crash
      case Unavailable => Refund
      case Value(out1) =>
        if Below(out1, m.min1) then Refund
        else if in0 > 0 && out1 == 0 then Refund
        else if in1 > 0 && out0 == 0 then Refund
        else if out0 == 0 && out1 == 0 then Refund
        else
          match ValidateSwap(c, s.pool, in0, in1, out0, out1)
          case Abort => Crash
          case Unavailable => Refund
          case Value(_) =>
            if out1 > 0 && s.pool.token1 == None && m.nativeBalance < out1 then Refund
            else if s.pool.reserve0 < out0 || s.pool.reserve0 - out0 + in0 > U128_MAX then Refund
            else if s.pool.reserve1 < out1 || s.pool.reserve1 - out1 + in1 > U128_MAX then Refund
            else Fill(out0, out1, s.pool.reserve0 - out0 + in0, s.pool.reserve1 - out1 + in1)
  }

  /** Commits whatever a caught error left behind. */
  function Keep(r: Result<()>): Option<State> {
    match r
    case Ok(s, _) => Some(s)
    case Err(s) => Some(s)
    case Panic => None
  }

  /** Drops a block whose handler returned an error or panicked. */
  function Require<T>(r: Result<T>): Option<State> {
    if r.Ok? then Some(r.state) else None
  }

  /** Carries out a plan; a credit that does not fit is a caught error, so whatever was written before it stays. */
  function CommitSwap(s: State, m: Message, plan: Plan): Option<State>
    requires m.Swap?
  {
    match plan
    case Crash => None
    case Refund => Keep(CreditPair(s, m.origin, m.maybeIn0.GetOr(0), m.maybeIn1.GetOr(0)))
    case Fill(out0, out1, balance0, balance1) =>
      Keep(CreditPair(s.(pool := s.pool.Liquid(balance0, balance1, m.now)), m.to.GetOr(m.origin), out0, out1))
  }

  /** `None`: the message is rejected and the committed state stands. */
  function HandleSwap(c: Curve, s: State, m: Message): Option<State>
    requires m.Swap?
  {
    if !Initialized(s) then Require(CreditPair(s, m.origin, m.maybeIn0.GetOr(0), m.maybeIn1.GetOr(0)))
    else CommitSwap(s, m, SwapPlan(c, s, m))
  }

  // ---- The other handlers ----

  /** Returns the whole input after an error, or the part beyond what was used. */
  function FinishAdd(m: Message, x0: Amount, x1: Amount, r: Result<Amount>): Option<State>
    requires m.Add? && x0 <= m.in0 && x1 <= m.in1
  {
    match r
    case Panic => None
    case Err(s1) => Require(CreditPair(s1, m.origin, m.in0, m.in1))
    case Ok(s1, _) => Require(CreditPair(s1, m.origin, m.in0 - x0, m.in1 - x1))
  }

  function HandleAdd(c: Curve, s: State, m: Message): Option<State>
    requires m.Add?
  {
    match SwapAmountPair(c, s.pool, m.in0, m.in1, m.min0, m.min1)
    case Abort => None
    case Unavailable => Require(CreditPair(s, m.origin, m.in0, m.in1))
    case Value((x0, x1)) =>
      if x0 == 0 || x1 == 0 then Require(CreditPair(s, m.origin, m.in0, m.in1))
      else FinishAdd(m, x0, x1, AddLiquidity(c, s, x0, x1, m.to.GetOr(m.origin), m.now))
  }

  function FinishRemove(m: Message, r: Result<(Amount, Amount)>): Option<State>
    requires m.Remove?
  {
    match r
    case Ok(s1, (x0, x1)) => Require(CreditPair(s1, m.to.GetOr(m.origin), x0, x1))
    case _ => None
  }

  function HandleRemove(c: Curve, s: State, m: Message): Option<State>
    requires m.Remove?
  {
    if !Initialized(s) then None
    else FinishRemove(m, RemoveLiquidity(c, s, m.origin, m.liquidity, m.min0, m.min1, m.now))
  }

  /** A native claim is paid by the runtime in the same block; a fungible one waits for its receipt. */
  function HandleClaim(s: State, m: Message): Option<State>
    requires m.ClaimTokens?
  {
    if m.amount == 0 || !s.pool.Trades(m.token) then None else
    match Claim(s, TokenOf(m.token), m.origin, m.amount)
    case Ok(s1, _) =>
      if m.token.Some? then Some(s1)
      // The runtime's transfer fails the block when the application's balance is short.
      else if m.nativeBalance < m.amount then None
      else Require(ClaimSuccess(s1, Native, m.origin, m.amount))
    case _ => None
  }

  function HandleReceipt(s: State, m: Message): Option<State>
    requires m.ClaimReceipt?
  {
    if m.amount == 0 || !s.pool.Trades(Some(m.app)) then None
    else if m.success then Require(ClaimSuccess(s, Fungible(m.app), m.owner, m.amount))
    else Require(ClaimFail(s, Fungible(m.app), m.owner, m.amount))
  }

  function Handle(c: Curve, s: State, m: Message): Option<State> {
    match m
    case InitializePool(origin, in0, in1, to, now) => Require(InitializeLiquidity(c, s, in0, in1, to.GetOr(origin), now))
    case Add(_, _, _, _, _, _, _) => HandleAdd(c, s, m)
    case Remove(_, _, _, _, _, _) => HandleRemove(c, s, m)
    case Swap(_, _, _, _, _, _, _, _) => HandleSwap(c, s, m)
    case ClaimTokens(_, _, _, _) => HandleClaim(s, m)
    case ClaimReceipt(_, _, _, _) => HandleReceipt(s, m)
    case ReturnLeg(owner, token, amount) => Require(Credit(s, TokenOf(token), owner, amount))
    case ChangeFeeTo(operator, account) => Require(SetFeeTo(s, operator, account))
    case ChangeFeeToSetter(operator, account) => Require(SetFeeToSetter(s, operator, account))
  }

  function Step(c: Curve, s: State, m: Message): State {
    Handle(c, s, m).GetOr(s)
  }

  // ---- Shares ----

  ghost predicate SharesBalanced(s: State) {
    s.totalSupply == Sum(s.shares)
  }

  /** Once the new total fits in 128 bits, so does the receiver's share: minting either completes or panics. */
  lemma MintBalances(s: State, to: Account, amount: Amount)
    requires SharesBalanced(s)
    ensures var r := Mint(s, to, amount);
      !r.Err? && (r.Ok? <==> s.totalSupply + amount <= U128_MAX) && (r.Ok? ==> SharesBalanced(r.state))
  {
    SumPut(s.shares, to, Get(s.shares, to) + amount);
  }

  lemma BurnBalances(s: State, from: Account, liquidity: Amount)
    requires SharesBalanced(s)
    ensures var r := Burn(s, from, liquidity);
      (r.Ok? <==> liquidity <= Get(s.shares, from)) && (r.Ok? ==> SharesBalanced(r.state))
  {
    SumAtLeast(s.shares, from);
    if liquidity <= Get(s.shares, from) {
      SumPut(s.shares, from, Get(s.shares, from) - liquidity);
    }
  }

  /** Depositing shares never ends in a caught error that leaves the total raised and the share not. */
  lemma MintSharesBalances(c: Curve, s: State, x0: Amount, x1: Amount, to: Account)
    requires SharesBalanced(s)
    ensures var r := MintShares(c, s, x0, x1, to); !r.Err? && (r.Ok? ==> SharesBalanced(r.state))
  {
    var fee := c.mintFee(s.pool, s.totalSupply);
    if fee.Some? {
      MintBalances(s, s.pool.feeTo, fee.value);
      var r1 := MintFee(c, s);
      if r1.Ok? {
        var liquidity := c.shares(r1.state.pool, r1.state.totalSupply, x0, x1);
        if liquidity.Some? {
          MintBalances(r1.state, to, liquidity.value);
        }
      }
    }
  }

  /** An addition that ends in an error has not touched the state, so crediting the input back undoes it whole. */
  lemma FailedAddLeavesState(c: Curve, s: State, x0: Amount, x1: Amount, to: Account, now: Timestamp)
    requires SharesBalanced(s)
    ensures var r := AddLiquidity(c, s, x0, x1, to, now);
      (r.Err? ==> r.state == s) && (r.Ok? ==> SharesBalanced(r.state))
  {
    MintSharesBalances(c, s, x0, x1, to);
  }

  lemma RemoveBalances(c: Curve, s: State, from: Account, liquidity: Amount,
                       min0: Option<Amount>, min1: Option<Amount>, now: Timestamp)
    requires SharesBalanced(s)
    ensures var r := RemoveLiquidity(c, s, from, liquidity, min0, min1, now); r.Ok? ==> SharesBalanced(r.state)
  {
    var fee := c.mintFee(s.pool, s.totalSupply);
    if fee.Some? {
      MintBalances(s, s.pool.feeTo, fee.value);
      var r1 := MintFee(c, s);
      if r1.Ok? {
        BurnBalances(r1.state, from, liquidity);
      }
    }
  }

  lemma CreditPairKeepsShares(s: State, owner: Account, x0: Amount, x1: Amount)
    ensures var r := CreditPair(s, owner, x0, x1);
      !r.Panic? ==> r.state.shares == s.shares && r.state.totalSupply == s.totalSupply && r.state.pool == s.pool
  {
  }

  lemma RequireCreditKeepsShares(s: State, owner: Account, x0: Amount, x1: Amount)
    requires SharesBalanced(s)
    ensures var r := Require(CreditPair(s, owner, x0, x1)); r.Some? ==> SharesBalanced(r.value)
    ensures var r := Keep(CreditPair(s, owner, x0, x1)); r.Some? ==> SharesBalanced(r.value)
  {
    CreditPairKeepsShares(s, owner, x0, x1);
  }

  lemma SwapKeepsShares(s: State, m: Message, plan: Plan)
    requires SharesBalanced(s) && m.Swap?
    ensures SharesBalanced(CommitSwap(s, m, plan).GetOr(s))
  {
    RequireCreditKeepsShares(s, m.origin, m.maybeIn0.GetOr(0), m.maybeIn1.GetOr(0));
    match plan
    case Fill(out0, out1, balance0, balance1) =>
      RequireCreditKeepsShares(s.(pool := s.pool.Liquid(balance0, balance1, m.now)), m.to.GetOr(m.origin), out0, out1);
    case _ =>
  }

  lemma AddKeepsShares(c: Curve, s: State, m: Message)
    requires SharesBalanced(s) && m.Add?
    ensures SharesBalanced(HandleAdd(c, s, m).GetOr(s))
  {
    RequireCreditKeepsShares(s, m.origin, m.in0, m.in1);
    match SwapAmountPair(c, s.pool, m.in0, m.in1, m.min0, m.min1)
    case Value((x0, x1)) =>
      FailedAddLeavesState(c, s, x0, x1, m.to.GetOr(m.origin), m.now);
      var r := AddLiquidity(c, s, x0, x1, m.to.GetOr(m.origin), m.now);
      if r.Ok? {
        RequireCreditKeepsShares(r.state, m.origin, m.in0 - x0, m.in1 - x1);
      }
    case _ =>
  }

  lemma RemoveKeepsShares(c: Curve, s: State, m: Message)
    requires SharesBalanced(s) && m.Remove?
    ensures SharesBalanced(HandleRemove(c, s, m).GetOr(s))
  {
    RemoveBalances(c, s, m.origin, m.liquidity, m.min0, m.min1, m.now);
    match RemoveLiquidity(c, s, m.origin, m.liquidity, m.min0, m.min1, m.now)
    case Ok(s1, (x0, x1)) => RequireCreditKeepsShares(s1, m.to.GetOr(m.origin), x0, x1);
    case _ =>
  }

  /** Every message keeps the total supply equal to the sum of all shares, whoever the fee receiver is. */
  lemma StepKeepsShares(c: Curve, s: State, m: Message)
    requires SharesBalanced(s)
    ensures SharesBalanced(Step(c, s, m))
  {
    match m
    case InitializePool(origin, in0, in1, to, now) => MintSharesBalances(c, s, in0, in1, to.GetOr(origin));
    case Add(_, _, _, _, _, _, _) => AddKeepsShares(c, s, m);
    case Remove(_, _, _, _, _, _) => RemoveKeepsShares(c, s, m);
    case Swap(_, _, _, _, _, _, _, _) =>
      SwapKeepsShares(s, m, SwapPlan(c, s, m));
      RequireCreditKeepsShares(s, m.origin, m.maybeIn0.GetOr(0), m.maybeIn1.GetOr(0));
    case _ =>
  }

  function Run(c: Curve, s: State, ms: seq<Message>): State {
    if ms == [] then s else Step(c, Run(c, s, ms[..|ms| - 1]), ms[|ms| - 1])
  }

  /** In every state a run reaches, the total supply is the sum of the shares. */
  lemma {:induction false} SharesAddUp(c: Curve, s: State, ms: seq<Message>)
    requires SharesBalanced(s)
    ensures SharesBalanced(Run(c, s, ms))
  {
    if ms != [] {
      SharesAddUp(c, s, ms[..|ms| - 1]);
      StepKeepsShares(c, Run(c, s, ms[..|ms| - 1]), ms[|ms| - 1]);
    }
  }

  lemma RunAppend(c: Curve, s: State, ms: seq<Message>, m: Message)
    ensures Run(c, s, ms + [m]) == Step(c, Run(c, s, ms), m)
  {
    assert (ms + [m])[..|ms|] == ms;
  }

  /** A pool against native as it is created. */
  function EmptyPool(creator: Account): State {
    State(Pool(0, None, 0, 0, creator, creator, 0, 0), 0, map[], map[], map[])
  }
}
