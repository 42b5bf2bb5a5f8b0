/** The pool contract's stored state, updated in place in the order the contract writes its views. */
module PoolContract {
  import opened Common
  import opened MapSums
  import Ledger = PoolLedger
  import opened PoolLedger

  class PoolState {
    var pool: Pool
    var totalSupply: Amount
    var shares: map<Account, Amount>
    var claimableBalances: Balances
    var claimingBalances: Balances

    function View(): State
      reads this
    {
      State(pool, totalSupply, shares, claimableBalances, claimingBalances)
    }

    constructor (s: State)
      ensures View() == s
    {
      pool, totalSupply, shares := s.pool, s.totalSupply, s.shares;
      claimableBalances, claimingBalances := s.claimable, s.claiming;
    }

    method Mint(to: Account, amount: Amount) returns (r: Status<()>)
      modifies this
      ensures Matches(Ledger.Mint(old(View()), to, amount), View(), r)
    {
      if totalSupply + amount > U128_MAX {
        return Panicked;
      }
      totalSupply := totalSupply + amount;
      var share := Get(shares, to);
      if share + amount > U128_MAX {
        return Failed;
      }
      shares := shares[to := share + amount];
      return Done(());
    }

    method Burn(from: Account, liquidity: Amount) returns (r: Status<()>)
      modifies this
      ensures Matches(Ledger.Burn(old(View()), from, liquidity), View(), r)
    {
      if totalSupply < liquidity {
        return Failed;
      }
      totalSupply := totalSupply - liquidity;
      var share := Get(shares, from);
      if liquidity > share {
        return Panicked;
      }
      shares := shares[from := share - liquidity];
      return Done(());
    }

    method MintShares(c: Curve, x0: Amount, x1: Amount, to: Account) returns (r: Status<Amount>)
      modifies this
      ensures Matches(Ledger.MintShares(c, old(View()), x0, x1, to), View(), r)
    {
      if x0 == 0 || x1 == 0 {
        return Panicked;
      }
      var fee := c.mintFee(pool, totalSupply);
      if fee == None {
        return Panicked;
      }
      var _ :- Mint(pool.feeTo, fee.value);
      var liquidity := c.shares(pool, totalSupply, x0, x1);
      if liquidity == None {
        return Panicked;
      }
      var _ :- Mint(to, liquidity.value);
      return Done(liquidity.value);
    }

    method AddLiquidity(c: Curve, x0: Amount, x1: Amount, to: Account, now: Timestamp) returns (r: Status<Amount>)
      modifies this
      ensures Matches(Ledger.AddLiquidity(c, old(View()), x0, x1, to, now), View(), r)
    {
      if pool.reserve0 + x0 > U128_MAX || pool.reserve1 + x1 > U128_MAX {
        return Failed;
      }
      var balance0, balance1 := pool.reserve0 + x0, pool.reserve1 + x1;
      var liquidity :- MintShares(c, x0, x1, to);
      pool := pool.Liquid(balance0, balance1, now);
      pool := pool.(kLast := c.root(pool.reserve0, pool.reserve1));
      return Done(liquidity);
    }

    method InitializeLiquidity(c: Curve, x0: Amount, x1: Amount, to: Account, now: Timestamp) returns (r: Status<Amount>)
      modifies this
      ensures Matches(Ledger.InitializeLiquidity(c, old(View()), x0, x1, to, now), View(), r)
    {
      if Initialized(View()) || x0 == 0 || x1 == 0 {
        return Panicked;
      }
      var liquidity :- MintShares(c, x0, x1, to);
      pool := pool.Liquid(x0, x1, now);
      pool := pool.(kLast := c.root(pool.reserve0, pool.reserve1));
      return Done(liquidity);
    }

    method RemoveLiquidity(c: Curve, from: Account, liquidity: Amount,
                           min0: Option<Amount>, min1: Option<Amount>, now: Timestamp)
      returns (r: Status<(Amount, Amount)>)
      modifies this
      ensures Matches(Ledger.RemoveLiquidity(c, old(View()), from, liquidity, min0, min1, now), View(), r)
    {
      var fee := c.mintFee(pool, totalSupply);
      if fee == None {
        return Panicked;
      }
      var _ :- Mint(pool.feeTo, fee.value);
      var pair := LiquidityAmountPair(c, pool, liquidity, totalSupply, min0, min1);
      match pair {
        case Abort => return Panicked;
        case Unavailable => return Failed;
        case Value((x0, x1)) =>
          var _ :- Burn(from, liquidity);
          if pool.reserve0 < x0 || pool.reserve1 < x1 {
            return Failed;
          }
          pool := pool.Liquid(pool.reserve0 - x0, pool.reserve1 - x1, now);
          pool := pool.(kLast := c.root(pool.reserve0, pool.reserve1));
          return Done((x0, x1));
      }
    }

    method Credit(token: Token, owner: Account, amount: Amount) returns (r: Status<()>)
      modifies this
      ensures Matches(Ledger.Credit(old(View()), token, owner, amount), View(), r)
    {
      if amount == 0 {
        return Panicked;
      }
      var balances := Inner(claimableBalances, token);
      var current := Get(balances, owner);
      if current + amount > U128_MAX {
        return Failed;
      }
      balances := balances[owner := current + amount];
      claimableBalances := claimableBalances[token := balances];
      return Done(());
    }

    method Debit(token: Token, owner: Account, amount: Amount) returns (r: Status<()>)
      modifies this
      ensures Matches(Ledger.Debit(old(View()), token, owner, amount), View(), r)
    {
      if amount == 0 {
        return Panicked;
      }
      var balances := Inner(claimableBalances, token);
      var current := Get(balances, owner);
      if current < amount {
        return Panicked;
      }
      var next := current - amount;
      if next == 0 {
        balances := balances - {owner};
      } else {
        balances := balances[owner := next];
      }
      claimableBalances := claimableBalances[token := balances];
      return Done(());
    }

    method Claim(token: Token, owner: Account, amount: Amount) returns (r: Status<()>)
      modifies this
      ensures Matches(Ledger.Claim(old(View()), token, owner, amount), View(), r)
    {
      var _ :- Debit(token, owner, amount);
      var balances := Inner(claimingBalances, token);
      var current := Get(balances, owner);
      if current + amount > U128_MAX {
        return Failed;
      }
      balances := balances[owner := current + amount];
      claimingBalances := claimingBalances[token := balances];
      return Done(());
    }

    method ClaimSuccess(token: Token, owner: Account, amount: Amount) returns (r: Status<()>)
      modifies this
      ensures Matches(Ledger.ClaimSuccess(old(View()), token, owner, amount), View(), r)
    {
      if amount == 0 {
        return Panicked;
      }
      var balances := Inner(claimingBalances, token);
      var current := Get(balances, owner);
      if current < amount {
        return Panicked;
      }
      var next := current - amount;
      if next == 0 {
        balances := balances - {owner};
      } else {
        balances := balances[owner := next];
      }
      claimingBalances := claimingBalances[token := balances];
      return Done(());
    }

    method ClaimFail(token: Token, owner: Account, amount: Amount) returns (r: Status<()>)
      modifies this
      ensures Matches(Ledger.ClaimFail(old(View()), token, owner, amount), View(), r)
    {
      var _ :- ClaimSuccess(token, owner, amount);
      r := Credit(token, owner, amount);
    }

    method SetFeeTo(operator: Account, account: Account) returns (r: Status<()>)
      modifies this
      ensures Matches(Ledger.SetFeeTo(old(View()), operator, account), View(), r)
    {
      if pool.feeToSetter != operator {
        return Panicked;
      }
      pool := pool.(feeTo := account);
      return Done(());
    }

    method SetFeeToSetter(operator: Account, account: Account) returns (r: Status<()>)
      modifies this
      ensures Matches(Ledger.SetFeeToSetter(old(View()), operator, account), View(), r)
    {
      if pool.feeToSetter != operator {
        return Panicked;
      }
      pool := pool.(feeToSetter := account);
      return Done(());
    }
  }
}
