/** Creating a meme token: the supply goes to the application, 100 tokens to the creator, the initial liquidity to escrow. */
module MemeInstantiation {
  import opened Common
  import opened MapSums
  import Ledger = MemeLedger
  import opened MemeLedger
  import opened MemeContract
  import opened MemeConservation
  import Mining

  /** What the runtime supplies: identities, the application parameters and the clock. */
  datatype Environment = Environment(
    signer: AccountOwner,
    creatorSigner: AccountOwner,
    creator: Account,
    application: Account,
    initialLiquidity: Option<Liquidity>,
    swapCreatorChain: ChainId,
    enableMining: bool,
    miningSupply: Option<Amount>,
    now: Timestamp)

  function InstantiateMeme(env: Environment, argument: Argument): Result<()> {
    if env.creatorSigner != env.signer then Panic else
    var (s1, _) :- Ledger.Instantiate(EMPTY, env.creator, env.application, argument, env.enableMining, env.miningSupply, env.now);
    var (s2, _) :- Ledger.Mint(s1, env.creator, s1.initialOwnerBalance);
    match env.initialLiquidity
    case None => Ok(s2, ())
    case Some(liquidity) =>
      Ledger.InitializeLiquidity(s2, liquidity, env.swapCreatorChain, env.enableMining, env.miningSupply)
  }

  class InstantiationHandler {
    var argument: Argument

    constructor (argument: Argument)
      ensures this.argument == argument
    {
      this.argument := argument;
    }

    method Instantiate(state: MemeState, env: Environment) returns (r: Status<()>)
      requires state.View() == EMPTY
      modifies state
      ensures Matches(InstantiateMeme(env, argument), state.View(), r)
    {
      if env.creatorSigner != env.signer {
        return Panicked;
      }
      var _ :- state.Instantiate(env.creator, env.application, argument, env.enableMining, env.miningSupply, env.now);
      var _ :- state.Mint(env.creator, state.initialOwnerBalance);
      if env.initialLiquidity.Some? {
        r := state.InitializeLiquidity(env.initialLiquidity.value, env.swapCreatorChain, env.enableMining, env.miningSupply);
      } else {
        r := Done(());
      }
    }
  }

  const OWNER_TOKENS: nat := 100 * ONE_TOKEN

  /** What mining keeps with the holder once the creator has its tokens. */
  function Reserved(env: Environment, supply: Amount): nat {
    if env.enableMining then env.miningSupply.GetOr(if supply < OWNER_TOKENS then 0 else supply - OWNER_TOKENS) else 0
  }

  /** What is escrowed: the request, trimmed to what mining leaves. */
  function Escrowed(env: Environment, supply: Amount): nat {
    match env.initialLiquidity
    case None => 0
    case Some(request) =>
      var free := if supply < OWNER_TOKENS + Reserved(env, supply) then 0 else supply - OWNER_TOKENS - Reserved(env, supply);
      if env.enableMining then Min(request.fungibleAmount, free) else request.fungibleAmount
  }

  function SwapAccount(env: Environment, app: ApplicationId): Account {
    Account(env.swapCreatorChain, ApplicationOwner(app))
  }

  /** Exactly when a token can be created. */
  predicate Creatable(env: Environment, argument: Argument) {
    && env.creatorSigner == env.signer
    && argument.initialSupply >= OWNER_TOKENS
    && env.creator != env.application
    && (env.initialLiquidity.Some? ==>
          && env.initialLiquidity.value.fungibleAmount <= argument.initialSupply - OWNER_TOKENS
          && Reserved(env, argument.initialSupply) <= argument.initialSupply - OWNER_TOKENS
          && (Escrowed(env, argument.initialSupply) > 0 ==>
                && argument.swapApplication.Some?
                && SwapAccount(env, argument.swapApplication.value) != env.application
                && SwapAccount(env, argument.swapApplication.value) != env.creator))
  }

  function AfterOwnerMint(env: Environment, argument: Argument): State
    requires argument.initialSupply >= OWNER_TOKENS && env.creator != env.application
  {
    State(OWNER_TOKENS, Some(env.creator), Some(env.application), argument.initialSupply, None, argument.swapApplication,
          map[env.application := argument.initialSupply - OWNER_TOKENS, env.creator := OWNER_TOKENS], map[],
          if env.enableMining then Some(Mining.New(env.miningSupply.GetOr(argument.initialSupply), env.now)) else None)
  }

  lemma OwnerMint(env: Environment, argument: Argument)
    requires argument.initialSupply > 0
    ensures var s1 := Ledger.Instantiate(EMPTY, env.creator, env.application, argument, env.enableMining, env.miningSupply, env.now);
      s1.Ok? && Backed(s1.state) &&
      (var r := Ledger.Mint(s1.state, env.creator, OWNER_TOKENS);
       (r.Ok? <==> argument.initialSupply >= OWNER_TOKENS && env.creator != env.application) &&
       (r.Ok? ==> r.state == AfterOwnerMint(env, argument) && Backed(r.state)))
  {
    var s1 := Ledger.Instantiate(EMPTY, env.creator, env.application, argument, env.enableMining, env.miningSupply, env.now).state;
    SumSingleton(env.application, argument.initialSupply);
    assert s1.balances == map[env.application := argument.initialSupply];
    assert Totals(s1.allowances) == map[];
    TransferExact(s1, env.application, env.creator, OWNER_TOKENS);
  }

  /** The state of a created token. */
  function Created(env: Environment, argument: Argument): State
    requires Creatable(env, argument)
  {
    var s := AfterOwnerMint(env, argument);
    var escrowed := Escrowed(env, argument.initialSupply);
    if escrowed == 0 then s else
    s.(balances := map[env.application := argument.initialSupply - OWNER_TOKENS - escrowed, env.creator := OWNER_TOKENS],
       allowances := map[env.application := map[SwapAccount(env, argument.swapApplication.value) := escrowed]],
       initialLiquidity := Some(env.initialLiquidity.value.(fungibleAmount := escrowed)))
  }

  /** Escrowing out of the state after the owner mint, in terms of the two maps it writes. */
  lemma EscrowApproval(env: Environment, argument: Argument, s: State, spender: Account, amount: Amount)
    requires argument.initialSupply >= OWNER_TOKENS && env.creator != env.application
    requires s.balances == map[env.application := argument.initialSupply - OWNER_TOKENS, env.creator := OWNER_TOKENS]
    requires s.allowances == map[] && s.holder == Some(env.application) && s.owner == Some(env.creator)
    ensures var r := Approve(s, env.application, spender, amount);
      (r.Ok? <==> spender != env.application && spender != env.creator && amount <= argument.initialSupply - OWNER_TOKENS) &&
      (r.Ok? ==> r.state == s.(
         balances := map[env.application := argument.initialSupply - OWNER_TOKENS - amount, env.creator := OWNER_TOKENS],
         allowances := map[env.application := map[spender := amount]]))
  {
    assert AllowanceOf(s, env.application, spender) == 0;
    if amount <= argument.initialSupply - OWNER_TOKENS {
      assert s.balances[env.application := argument.initialSupply - OWNER_TOKENS - amount] ==
        map[env.application := argument.initialSupply - OWNER_TOKENS - amount, env.creator := OWNER_TOKENS];
    }
    assert s.allowances[env.application := Inner(s.allowances, env.application)[spender := amount]] ==
      map[env.application := map[spender := amount]];
  }

  lemma EscrowStep(env: Environment, argument: Argument)
    requires argument.initialSupply >= OWNER_TOKENS && env.creator != env.application
    requires env.initialLiquidity.Some? && env.creatorSigner == env.signer
    ensures var s := AfterOwnerMint(env, argument);
      var r := Ledger.InitializeLiquidity(s, env.initialLiquidity.value, env.swapCreatorChain, env.enableMining, env.miningSupply);
      (r.Ok? <==> Creatable(env, argument)) && (r.Ok? ==> r.state == Created(env, argument))
  {
    var s := AfterOwnerMint(env, argument);
    var escrowed := Escrowed(env, argument.initialSupply);
    assert BalanceOf(s, env.application) == argument.initialSupply - OWNER_TOKENS;
    if argument.swapApplication.Some? && escrowed > 0 {
      var trimmed := s.(initialLiquidity := Some(env.initialLiquidity.value.(fungibleAmount := escrowed)));
      EscrowApproval(env, argument, trimmed, SwapAccount(env, argument.swapApplication.value), escrowed);
    }
  }

  /** Instantiation succeeds exactly for creatable tokens and leaves exactly the created state. */
  lemma InstantiationExact(env: Environment, argument: Argument)
    ensures var r := InstantiateMeme(env, argument);
      (r.Ok? <==> Creatable(env, argument)) && (r.Ok? ==> r.state == Created(env, argument))
  {
    if argument.initialSupply > 0 {
      OwnerMint(env, argument);
      if argument.initialSupply >= OWNER_TOKENS && env.creator != env.application && env.creatorSigner == env.signer &&
         env.initialLiquidity.Some? {
        EscrowStep(env, argument);
      }
    }
  }

  /**
   * A created token mines exactly when mining is on: 1.7 of 21 million parts of the mining supply a block, of the whole
   * supply when none is given, until a year after creation, at the easiest target and with no block counted.
   */
  lemma CreatedSchedule(env: Environment, argument: Argument)
    requires InstantiateMeme(env, argument).Ok?
    ensures var s := InstantiateMeme(env, argument).state;
      var mined := if env.miningSupply.Some? then env.miningSupply.value else argument.initialSupply;
      (s.miningInfo.Some? <==> env.enableMining) &&
      (s.miningInfo.Some? ==>
         var info := s.miningInfo.value;
         && 210_000_000 * info.rewardAmount <= 17 * mined < 210_000_000 * (info.rewardAmount + 1)
         && info.initialRewardAmount == info.rewardAmount
         && info.nextHalvingAt == Min(env.now + 365 * 24 * 3600 * 1_000_000, U64_MAX)
         && info.target == Mining.INITIAL_TARGET && info.blockDuration == 3 * 3600 * 1_000_000
         && info.cumulativeBlocks == 0 && info.lastTargetAdjustedAt == env.now)
  {
    InstantiationExact(env, argument);
    Mining.InitialRewardExact(env.miningSupply.GetOr(argument.initialSupply));
  }

  /**
   * A created token's supply is split between the creator's 100 tokens, the escrow of at most the requested liquidity
   * and the holder's rest, which covers the effective mining supply when liquidity is initialized.
   */
  lemma SupplySplit(env: Environment, argument: Argument)
    requires InstantiateMeme(env, argument).Ok?
    ensures var s := InstantiateMeme(env, argument).state;
      var escrowed := Escrowed(env, argument.initialSupply);
      Backed(s) && s.totalSupply == argument.initialSupply && s.holder == Some(env.application) && s.owner == Some(env.creator) &&
      s.balances == map[env.application := argument.initialSupply - OWNER_TOKENS - escrowed, env.creator := OWNER_TOKENS] &&
      s.allowances == (if escrowed == 0 then map[]
                       else map[env.application := map[SwapAccount(env, argument.swapApplication.value) := escrowed]])
    ensures var s := InstantiateMeme(env, argument).state;
      0 <= Escrowed(env, argument.initialSupply) <= s.initialLiquidity.GetOr(Liquidity(0, 0)).fungibleAmount &&
      (env.initialLiquidity.Some? ==>
         Escrowed(env, argument.initialSupply) <= env.initialLiquidity.value.fungibleAmount &&
         BalanceOf(s, env.application) >= Reserved(env, argument.initialSupply))
  {
    InstantiationExact(env, argument);
    var s := Created(env, argument);
    var escrowed := Escrowed(env, argument.initialSupply);
    SumPut(map[env.creator := OWNER_TOKENS], env.application, argument.initialSupply - OWNER_TOKENS - escrowed);
    SumSingleton(env.creator, OWNER_TOKENS);
    assert s.balances == map[env.creator := OWNER_TOKENS][env.application := argument.initialSupply - OWNER_TOKENS - escrowed];
    if escrowed == 0 {
      assert Totals(s.allowances) == map[];
    } else {
      var spender := SwapAccount(env, argument.swapApplication.value);
      EscrowTotal(env.application, spender, escrowed);
    }
  }

  lemma EscrowTotal(holder: Account, spender: Account, amount: Amount)
    ensures NestedSum(map[holder := map[spender := amount]]) == amount
  {
    SumSingleton(spender, amount);
    SumSingleton(holder, amount);
    assert Totals(map[holder := map[spender := amount]]) == map[holder := amount];
  }

  /** The escrow is spendable: the swap application can move all of it to a pool, which empties the escrow. */
  lemma EscrowIsSpendable(env: Environment, argument: Argument, pool: Account)
    requires InstantiateMeme(env, argument).Ok? && Escrowed(env, argument.initialSupply) > 0
    requires pool != env.application && pool != env.creator
    ensures var s := InstantiateMeme(env, argument).state;
      var escrowed := Escrowed(env, argument.initialSupply);
      var r := TransferFrom(s, SwapAccount(env, argument.swapApplication.value), env.application, pool, escrowed);
      r.Ok? && BalanceOf(r.state, pool) == escrowed && NestedSum(r.state.allowances) == 0
  {
    SupplySplit(env, argument);
    InstantiationExact(env, argument);
    var s := Created(env, argument);
    var spender := SwapAccount(env, argument.swapApplication.value);
    var escrowed := Escrowed(env, argument.initialSupply);
    TransferFromExact(s, spender, env.application, pool, escrowed);
    assert map[spender := escrowed][spender := 0] == map[spender := 0];
    assert s.allowances[env.application := map[spender := 0]] == map[env.application := map[spender := 0]];
    EscrowTotal(env.application, spender, 0);
  }

  /**
   * Mining really ends: a token created with a mining supply that earns one atto a block pays the first block that is
   * mined a cycle later, and has no reward left.
   */
  lemma MiningCanEnd(env: Environment, argument: Argument, miner: Account, now: Timestamp)
    requires InstantiateMeme(env, argument).Ok? && env.enableMining && env.miningSupply == Some(12_352_942)
    requires env.now + Mining.HALVING_CYCLE <= now && miner != env.application
    requires argument.initialSupply > OWNER_TOKENS + Escrowed(env, argument.initialSupply)
    ensures var s := InstantiateMeme(env, argument).state;
      var r := MiningReward(s, miner, now);
      r.Ok? && r.state.miningInfo.Some? && r.state.miningInfo.value.rewardAmount == 0
  {
    SupplySplit(env, argument);
    InstantiationExact(env, argument);
    var s := Created(env, argument);
    var info := Mining.New(12_352_942, env.now);
    assert s.miningInfo == Some(info) && info.rewardAmount == 1;
    MiningRewardExact(s, miner, now);
    HalvedOnce(info, now);
  }

  lemma HalvedOnce(info: Mining.Info, now: Timestamp)
    requires info.nextHalvingAt <= now && info.rewardAmount == 1
    ensures Mining.Mine(info, now).rewardAmount == 0
  {
  }
}
