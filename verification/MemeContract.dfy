/** The meme contract's stored state, updated in place in the order the contract writes its views. */
module MemeContract {
  import opened Common
  import opened MapSums
  import Ledger = MemeLedger
  import opened MemeLedger
  import Mining

  class MemeState {
    var initialOwnerBalance: Amount
    var owner: Option<Account>
    var holder: Option<Account>
    var totalSupply: Amount
    var initialLiquidity: Option<Liquidity>
    var swapApplication: Option<ApplicationId>
    var balances: map<Account, Amount>
    var allowances: map<Account, map<Account, Amount>>
    var miningInfo: Option<Mining.Info>

    function View(): State
      reads this
    {
      State(initialOwnerBalance, owner, holder, totalSupply, initialLiquidity, swapApplication, balances, allowances, miningInfo)
    }

    constructor ()
      ensures View() == EMPTY
    {
      initialOwnerBalance, owner, holder, totalSupply := 0, None, None, 0;
      initialLiquidity, swapApplication := None, None;
      balances, allowances, miningInfo := map[], map[], None;
    }

    method Instantiate(newOwner: Account, application: Account, argument: Argument, enableMining: bool,
                       miningSupply: Option<Amount>, now: Timestamp) returns (r: Status<()>)
      modifies this
      ensures Matches(Ledger.Instantiate(old(View()), newOwner, application, argument, enableMining, miningSupply, now), View(), r)
    {
      if argument.initialSupply == 0 {
        return Panicked;
      }
      initialOwnerBalance := 100 * ONE_TOKEN;
      swapApplication := argument.swapApplication;
      balances := balances[application := argument.initialSupply];
      holder := Some(application);
      owner := Some(newOwner);
      totalSupply := argument.initialSupply;
      if enableMining {
        miningInfo := Some(Mining.New(miningSupply.GetOr(totalSupply), now));
      }
      return Done(());
    }

    method MoveTokens(from: Account, to: Account, amount: Amount) returns (r: Status<()>)
      modifies this
      ensures Matches(Ledger.MoveTokens(old(View()), from, to, amount), View(), r)
    {
      if from !in balances {
        return Panicked;
      }
      var fromBalance := balances[from];
      var toBalance := amount;
      if to in balances {
        if balances[to] + amount > U128_MAX {
          return Failed;
        }
        toBalance := balances[to] + amount;
      }
      if fromBalance < amount {
        return Failed;
      }
      balances := balances[from := fromBalance - amount];
      balances := balances[to := toBalance];
      return Done(());
    }

    method Transfer(from: Account, to: Account, amount: Amount) returns (r: Status<()>)
      modifies this
      ensures Matches(Ledger.Transfer(old(View()), from, to, amount), View(), r)
    {
      if amount == 0 || from == to || Get(balances, from) < amount {
        return Panicked;
      }
      r := MoveTokens(from, to, amount);
    }

    method TransferEnsure(from: Account, to: Account, amount: Amount) returns (r: Status<()>)
      modifies this
      ensures Matches(Ledger.TransferEnsure(old(View()), from, to, amount), View(), r)
    {
      if amount == 0 || from == to || Get(balances, from) < amount {
        return Failed;
      }
      r := MoveTokens(from, to, amount);
    }

    method Approve(approver: Account, spender: Account, amount: Amount) returns (r: Status<()>)
      modifies this
      ensures Matches(Ledger.Approve(old(View()), approver, spender, amount), View(), r)
    {
      if approver == spender {
        return Failed;
      }
      if holder == None {
        return Panicked;
      }
      if approver == holder.value {
        if owner == None {
          return Panicked;
        }
        if spender == owner.value {
          return Failed;
        }
      }
      var approverBalance := Get(balances, approver);
      if approverBalance < amount {
        return Failed;
      }
      var granted := Inner(allowances, approver);
      var spenderAllowance := amount;
      if spender in granted {
        if granted[spender] + amount > U128_MAX {
          return Failed;
        }
        spenderAllowance := granted[spender] + amount;
      }
      balances := balances[approver := approverBalance - amount];
      granted := granted[spender := spenderAllowance];
      allowances := allowances[approver := granted];
      return Done(());
    }

    method TransferFrom(spender: Account, from: Account, to: Account, amount: Amount) returns (r: Status<()>)
      modifies this
      ensures Matches(Ledger.TransferFrom(old(View()), spender, from, to, amount), View(), r)
    {
      if from !in allowances {
        return Panicked;
      }
      var granted := allowances[from];
      if spender !in granted || granted[spender] < amount {
        return Panicked;
      }
      var balance := amount;
      if to in balances {
        if balances[to] + amount > U128_MAX {
          return Failed;
        }
        balance := balances[to] + amount;
      }
      balances := balances[to := balance];
      granted := granted[spender := granted[spender] - amount];
      allowances := allowances[from := granted];
      return Done(());
    }

    method Mint(to: Account, amount: Amount) returns (r: Status<()>)
      modifies this
      ensures Matches(Ledger.Mint(old(View()), to, amount), View(), r)
    {
      if holder == None {
        return Panicked;
      }
      r := Transfer(holder.value, to, amount);
    }

    method MiningReward(miner: Account, now: Timestamp) returns (r: Status<()>)
      modifies this
      ensures Matches(Ledger.MiningReward(old(View()), miner, now), View(), r)
    {
      if miningInfo == None {
        return Panicked;
      }
      var _ :- Mint(miner, miningInfo.value.rewardAmount);
      var info := new Mining.MiningInfo(miningInfo.value);
      info.TryHalf(now);
      info.cumulativeBlocks := (info.cumulativeBlocks + 1) % Mining.U16_RANGE;
      info.TryAdjustTarget(now);
      miningInfo := Some(info.View());
      return Done(());
    }

    method TransferOwnership(current: Account, newOwner: Account) returns (r: Status<()>)
      modifies this
      ensures Matches(Ledger.TransferOwnership(old(View()), current, newOwner), View(), r)
    {
      if owner != Some(current) {
        return Panicked;
      }
      owner := Some(newOwner);
      return Done(());
    }

    method InitializeLiquidity(requested: Liquidity, swapChain: ChainId, enableMining: bool, miningSupply: Option<Amount>)
      returns (r: Status<()>)
      modifies this
      ensures Matches(Ledger.InitializeLiquidity(old(View()), requested, swapChain, enableMining, miningSupply), View(), r)
    {
      if holder == None {
        return Panicked;
      }
      var liquidity := requested;
      var holderBalance := Get(balances, holder.value);
      var reserved := 0;
      if enableMining {
        reserved := miningSupply.GetOr(holderBalance);
      }
      if holderBalance < liquidity.fungibleAmount || holderBalance < reserved {
        return Panicked;
      }
      var maxLiquidity := holderBalance - reserved;
      if enableMining && liquidity.fungibleAmount > maxLiquidity {
        liquidity := liquidity.(fungibleAmount := maxLiquidity);
      }
      if liquidity.fungibleAmount == 0 {
        return Done(());
      }
      if swapApplication == None {
        return Panicked;
      }
      initialLiquidity := Some(liquidity);
      var spender := Account(swapChain, ApplicationOwner(swapApplication.value));
      r := Approve(holder.value, spender, liquidity.fungibleAmount);
    }
  }
}
