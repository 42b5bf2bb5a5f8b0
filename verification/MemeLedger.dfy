/** The meme token's ledger on values: balances, escrowed allowances and rewards paid from the holder. */
module MemeLedger {
  import opened Common
  import opened MapSums
  import Mining

  datatype Liquidity = Liquidity(fungibleAmount: Amount, nativeAmount: Amount)

  datatype State = State(
    initialOwnerBalance: Amount,
    owner: Option<Account>,
    holder: Option<Account>,
    totalSupply: Amount,
    initialLiquidity: Option<Liquidity>,
    swapApplication: Option<ApplicationId>,
    balances: map<Account, Amount>,
    allowances: map<Account, map<Account, Amount>>,
    miningInfo: Option<Mining.Info>)

  type Result<+T> = Outcome<State, T>

  const EMPTY: State := State(0, None, None, 0, None, None, map[], map[], None)

  function BalanceOf(s: State, a: Account): Amount {
    Get(s.balances, a)
  }

  function AllowanceOf(s: State, owner: Account, spender: Account): Amount {
    Get(Inner(s.allowances, owner), spender)
  }

  /** The move behind every transfer; it trusts its callers to have ruled out `from == to`. */
  function MoveTokens(s: State, from: Account, to: Account, amount: Amount): Result<()> {
    if from !in s.balances then Panic
    else if BalanceOf(s, to) + amount > U128_MAX then Err(s)
    else if s.balances[from] < amount then Err(s)
    else Ok(s.(balances := s.balances[from := s.balances[from] - amount][to := BalanceOf(s, to) + amount]), ())
  }

  function Transfer(s: State, from: Account, to: Account, amount: Amount): Result<()> {
    if amount == 0 || from == to || BalanceOf(s, from) < amount then Panic
    else MoveTokens(s, from, to, amount)
  }

  function TransferEnsure(s: State, from: Account, to: Account, amount: Amount): Result<()> {
    if amount == 0 || from == to || BalanceOf(s, from) < amount then Err(s)
    else MoveTokens(s, from, to, amount)
  }

  /** Moves the amount out of the owner's balance into escrow for the spender. */
  function Approve(s: State, owner: Account, spender: Account, amount: Amount): Result<()> {
    if owner == spender then Err(s)
    else if s.holder == None then Panic
    else if owner == s.holder.value && s.owner == None then Panic
    else if owner == s.holder.value && spender == s.owner.value then Err(s)
    else if BalanceOf(s, owner) < amount then Err(s)
    else if AllowanceOf(s, owner, spender) + amount > U128_MAX then Err(s)
    else Ok(s.(balances := s.balances[owner := BalanceOf(s, owner) - amount],
               allowances := s.allowances[owner := Inner(s.allowances, owner)[spender := AllowanceOf(s, owner, spender) + amount]]), ())
  }

  /** The spender `owner` hands part of what `from` escrowed for it to `to`. */
  function TransferFrom(s: State, owner: Account, from: Account, to: Account, amount: Amount): Result<()> {
    if from !in s.allowances || owner !in s.allowances[from] || s.allowances[from][owner] < amount then Panic
    else if BalanceOf(s, to) + amount > U128_MAX then Err(s)
    else Ok(s.(balances := s.balances[to := BalanceOf(s, to) + amount],
               allowances := s.allowances[from := s.allowances[from][owner := s.allowances[from][owner] - amount]]), ())
  }

  function Mint(s: State, to: Account, amount: Amount): Result<()> {
    if s.holder == None then Panic else Transfer(s, s.holder.value, to, amount)
  }

  /** Pays the current reward from the holder, then moves the schedule on. */
  function MiningReward(s: State, miner: Account, now: Timestamp): Result<()> {
    if s.miningInfo == None then Panic else
    var (s1, _) :- Mint(s, miner, s.miningInfo.value.rewardAmount);
    Ok(s1.(miningInfo := Some(Mining.Mine(s1.miningInfo.value, now))), ())
  }

  function TransferOwnership(s: State, owner: Account, newOwner: Account): Result<()> {
    if s.owner != Some(owner) then Panic else Ok(s.(owner := Some(newOwner)), ())
  }

  /** Escrows the initial liquidity for the swap application, trimmed so that the mining supply stays with the holder. */
  function InitializeLiquidity(s: State, liquidity: Liquidity, swapChain: ChainId, enableMining: bool,
                               miningSupply: Option<Amount>): Result<()> {
    if s.holder == None then Panic else
    var holderBalance := BalanceOf(s, s.holder.value);
    var reserved := if enableMining then miningSupply.GetOr(holderBalance) else 0;
    if holderBalance < liquidity.fungibleAmount || holderBalance < reserved then Panic else
    var trimmed := if enableMining && liquidity.fungibleAmount > holderBalance - reserved
                   then liquidity.(fungibleAmount := holderBalance - reserved) else liquidity;
    if trimmed.fungibleAmount == 0 then Ok(s, ())
    else if s.swapApplication == None then Panic
    else Approve(s.(initialLiquidity := Some(trimmed)), s.holder.value,
                 Account(swapChain, ApplicationOwner(s.swapApplication.value)), trimmed.fungibleAmount)
  }

  datatype Argument = Argument(initialSupply: Amount, swapApplication: Option<ApplicationId>)

  /** Puts the whole supply on the application's own account. */
  function Instantiate(s: State, owner: Account, application: Account, argument: Argument, enableMining: bool,
                       miningSupply: Option<Amount>, now: Timestamp): Result<()> {
    if argument.initialSupply == 0 then Panic else
    Ok(s.(initialOwnerBalance := 100 * ONE_TOKEN, swapApplication := argument.swapApplication,
          balances := s.balances[application := argument.initialSupply],
          holder := Some(application), owner := Some(owner), totalSupply := argument.initialSupply,
          miningInfo := if enableMining then Some(Mining.New(miningSupply.GetOr(argument.initialSupply), now)) else s.miningInfo), ())
  }

  // ---- Messages that reach the ledger ----

  datatype Message =
    | TransferTokens(from: Account, to: Account, amount: Amount)
    // A transfer whose failure is answered rather than rejected.
    | TryTransfer(from: Account, to: Account, amount: Amount)
    | ApproveSpender(owner: Account, spender: Account, amount: Amount)
    | SpendAllowance(spender: Account, from: Account, to: Account, amount: Amount)
    | MintTokens(to: Account, amount: Amount)
    | MineBlock(miner: Account, now: Timestamp)
    | GiveOwnership(owner: Account, newOwner: Account)

  function Execute(s: State, m: Message): Result<()> {
    match m
    case TransferTokens(from, to, amount) => Transfer(s, from, to, amount)
    case TryTransfer(from, to, amount) => TransferEnsure(s, from, to, amount)
    case ApproveSpender(owner, spender, amount) => Approve(s, owner, spender, amount)
    case SpendAllowance(spender, from, to, amount) => TransferFrom(s, spender, from, to, amount)
    case MintTokens(to, amount) => Mint(s, to, amount)
    case MineBlock(miner, now) => MiningReward(s, miner, now)
    case GiveOwnership(owner, newOwner) => TransferOwnership(s, owner, newOwner)
  }

  /** A caught error commits what it left; any other failure drops the block. */
  function Step(s: State, m: Message): State {
    match Execute(s, m)
    case Ok(s1, _) => s1
    case Err(s1) => if m.TryTransfer? then s1 else s
    case Panic => s
  }

  function Run(s: State, ms: seq<Message>): State {
    if ms == [] then s else Step(Run(s, ms[..|ms| - 1]), ms[|ms| - 1])
  }
}
