/** The pool's side of claims: what each message does to the claiming balances, and exactly when claims are accepted. */
module PoolClaims {
  import opened Common
  import opened MapSums
  import opened PoolLedger
  import opened PoolMessages
  import opened PoolConservation

  /** Pool messages that do not belong to the fungible claim protocol. */
  predicate Unrelated(m: Message) {
    !m.ClaimReceipt? && !(m.ClaimTokens? && m.token.Some?)
  }

  /** A fungible claim does not look at the native balance. */
  function FungibleClaimMessage(owner: Account, app: ApplicationId, amount: Amount): Message {
    ClaimTokens(owner, Some(app), amount, 0)
  }

  // ---- What other pool messages leave alone ----

  ghost predicate SameClaiming(s: State, s1: State) {
    && s1.pool.token0 == s.pool.token0 && s1.pool.token1 == s.pool.token1
    && forall token: Token, owner: Account :: BalanceOf(s1.claiming, token, owner) == BalanceOf(s.claiming, token, owner)
  }

  lemma CreditPairSameClaiming(s: State, owner: Account, x0: Amount, x1: Amount)
    ensures var r := CreditPair(s, owner, x0, x1); !r.Panic? ==> r.state.claiming == s.claiming && r.state.pool == s.pool
  {
  }

  lemma SwapSameClaiming(s: State, m: Message, plan: Plan)
    requires m.Swap?
    ensures SameClaiming(s, CommitSwap(s, m, plan).GetOr(s))
  {
    CreditPairSameClaiming(s, m.origin, m.maybeIn0.GetOr(0), m.maybeIn1.GetOr(0));
    if plan.Fill? {
      CreditPairSameClaiming(s.(pool := s.pool.Liquid(plan.balance0, plan.balance1, m.now)),
                             m.to.GetOr(m.origin), plan.out0, plan.out1);
    }
  }

  lemma FinishAddSameClaiming(s: State, m: Message, x0: Amount, x1: Amount, r: Result<Amount>)
    requires m.Add? && x0 <= m.in0 && x1 <= m.in1 && (!r.Panic? ==> SameClaiming(s, r.state))
    ensures SameClaiming(s, FinishAdd(m, x0, x1, r).GetOr(s))
  {
    if r.Err? {
      CreditPairSameClaiming(r.state, m.origin, m.in0, m.in1);
    } else if r.Ok? {
      var s1 := r.state;
      var y0: Amount, y1: Amount := m.in0 - x0, m.in1 - x1;
      assert FinishAdd(m, x0, x1, r) == Require(CreditPair(s1, m.origin, y0, y1));
      CreditPairSameClaiming(s1, m.origin, y0, y1);
    }
  }

  lemma AddLiquiditySameClaiming(c: Curve, s: State, x0: Amount, x1: Amount, to: Account, now: Timestamp)
    ensures var r := AddLiquidity(c, s, x0, x1, to, now); !r.Panic? ==> SameClaiming(s, r.state)
  {
  }

  lemma AddSameClaiming(c: Curve, s: State, m: Message)
    requires m.Add?
    ensures SameClaiming(s, HandleAdd(c, s, m).GetOr(s))
  {
    CreditPairSameClaiming(s, m.origin, m.in0, m.in1);
    var pair := SwapAmountPair(c, s.pool, m.in0, m.in1, m.min0, m.min1);
    if pair.Value? && pair.value.0 != 0 && pair.value.1 != 0 {
      var x0: Amount, x1: Amount := pair.value.0, pair.value.1;
      var r := AddLiquidity(c, s, x0, x1, m.to.GetOr(m.origin), m.now);
      AddLiquiditySameClaiming(c, s, x0, x1, m.to.GetOr(m.origin), m.now);
      FinishAddSameClaiming(s, m, x0, x1, r);
      assert HandleAdd(c, s, m) == FinishAdd(m, x0, x1, r);
    }
  }

  lemma RemoveSameClaiming(c: Curve, s: State, m: Message)
    requires m.Remove?
    ensures SameClaiming(s, HandleRemove(c, s, m).GetOr(s))
  {
    var r := RemoveLiquidity(c, s, m.origin, m.liquidity, m.min0, m.min1, m.now);
    if r.Ok? {
      CreditPairSameClaiming(r.state, m.to.GetOr(m.origin), r.value.0, r.value.1);
    }
  }

  /** A native claim is opened and closed in one block. */
  lemma NativeClaimSameClaiming(s: State, m: Message)
    requires m.ClaimTokens? && m.token == None
    ensures SameClaiming(s, HandleClaim(s, m).GetOr(s))
  {
  }

  lemma OtherPoolSameClaiming(c: Curve, s: State, m: Message)
    requires Unrelated(m)
    ensures SameClaiming(s, Step(c, s, m))
  {
    match m
    case Add(_, _, _, _, _, _, _) => AddSameClaiming(c, s, m);
    case Remove(_, _, _, _, _, _) => RemoveSameClaiming(c, s, m);
    case Swap(_, _, _, _, _, _, _, _) =>
      CreditPairSameClaiming(s, m.origin, m.maybeIn0.GetOr(0), m.maybeIn1.GetOr(0));
      SwapSameClaiming(s, m, SwapPlan(c, s, m));
    case ClaimTokens(_, _, _, _) => NativeClaimSameClaiming(s, m);
    case _ =>
  }

  // ---- What the claim handlers do to the claiming book ----

  lemma ClaimRaisesClaiming(s: State, owner: Account, app: ApplicationId, amount: Amount)
    ensures var r := HandleClaim(s, FungibleClaimMessage(owner, app, amount));
      r.Some? ==>
        (amount > 0 && s.pool.Trades(Some(app)) && r.value.pool == s.pool &&
         forall a: ApplicationId, o: Account :: BalanceOf(r.value.claiming, Fungible(a), o) ==
           BalanceOf(s.claiming, Fungible(a), o) + if a == app && o == owner then amount else 0)
  {
    var m := FungibleClaimMessage(owner, app, amount);
    if HandleClaim(s, m).Some? {
      RaiseTouchesOne(Claim(s, Fungible(app), owner, amount).state.claiming, Fungible(app), owner, 0);
      RaiseTouchesOne(s.claiming, Fungible(app), owner, amount);
    }
  }

  /** A settlement is refused unless the owner has that much being claimed; a refund must also fit as claimable. */
  lemma SettlementExact(s: State, owner: Account, app: ApplicationId, amount: Amount, success: bool)
    requires amount > 0 && s.pool.Trades(Some(app))
    ensures var r := HandleReceipt(s, ClaimReceipt(owner, app, amount, success));
      (r.Some? <==> amount <= BalanceOf(s.claiming, Fungible(app), owner) &&
                    (success || BalanceOf(s.claimable, Fungible(app), owner) + amount <= U128_MAX)) &&
      (r.Some? ==> r.value.pool == s.pool) &&
      (r.Some? ==>
         forall a: ApplicationId, o: Account ::
           BalanceOf(r.value.claiming, Fungible(a), o) ==
           BalanceOf(s.claiming, Fungible(a), o) - if a == app && o == owner then amount else 0) &&
      (r.Some? ==>
         forall t: Token, o: Account ::
           BalanceOf(r.value.claimable, t, o) ==
           BalanceOf(s.claimable, t, o) + if t == Fungible(app) && o == owner && !success then amount else 0)
  {
    var t := Fungible(app);
    if amount <= BalanceOf(s.claiming, t, owner) {
      LowerTouchesOne(s.claiming, t, owner, amount);
      if BalanceOf(s.claimable, t, owner) + amount <= U128_MAX {
        RaiseTouchesOne(s.claimable, t, owner, amount);
      }
    }
  }

  /** A fungible claim is accepted exactly when the claimable balance covers it, and moves it to the claiming balance. */
  lemma ClaimExact(s: State, owner: Account, app: ApplicationId, amount: Amount)
    ensures var r := HandleClaim(s, FungibleClaimMessage(owner, app, amount));
      (r.Some? <==> amount > 0 && s.pool.Trades(Some(app)) && amount <= BalanceOf(s.claimable, Fungible(app), owner) &&
                    BalanceOf(s.claiming, Fungible(app), owner) + amount <= U128_MAX) &&
      (r.Some? ==>
         r.value.pool == s.pool &&
         BalanceOf(r.value.claimable, Fungible(app), owner) == BalanceOf(s.claimable, Fungible(app), owner) - amount &&
         BalanceOf(r.value.claiming, Fungible(app), owner) == BalanceOf(s.claiming, Fungible(app), owner) + amount)
  {
  }

  /**
   * With nothing native being claimed, a native claim is accepted exactly when both the claimable balance and the
   * application's native balance cover it, and then takes it from the claimable balance at once.
   */
  lemma NativeClaimExact(s: State, owner: Account, amount: Amount, nativeBalance: Amount)
    requires BalanceOf(s.claiming, Native, owner) == 0
    ensures var r := HandleClaim(s, ClaimTokens(owner, None, amount, nativeBalance));
      (r.Some? <==> amount > 0 && s.pool.Trades(None) && amount <= BalanceOf(s.claimable, Native, owner) && amount <= nativeBalance) &&
      (r.Some? ==>
         (r.value.pool == s.pool && SameClaiming(s, r.value) &&
          BalanceOf(r.value.claimable, Native, owner) == BalanceOf(s.claimable, Native, owner) - amount))
  {
  }

  // ---- Native claims are never left open ----

  lemma StepKeepsNative(c: Curve, s: State, m: Message, owner: Account)
    ensures BalanceOf(Step(c, s, m).claiming, Native, owner) == BalanceOf(s.claiming, Native, owner)
  {
    if Unrelated(m) {
      OtherPoolSameClaiming(c, s, m);
    } else if m.ClaimReceipt? {
      ReceiptKeepsNative(s, m, owner);
    } else {
      ClaimKeepsNative(s, m, owner);
    }
  }

  lemma ReceiptKeepsNative(s: State, m: Message, owner: Account)
    requires m.ClaimReceipt?
    ensures BalanceOf(HandleReceipt(s, m).GetOr(s).claiming, Native, owner) == BalanceOf(s.claiming, Native, owner)
  {
  }

  lemma ClaimKeepsNative(s: State, m: Message, owner: Account)
    requires m.ClaimTokens? && m.token.Some?
    ensures BalanceOf(HandleClaim(s, m).GetOr(s).claiming, Native, owner) == BalanceOf(s.claiming, Native, owner)
  {
  }

  /** In every reachable state no native amount is being claimed. */
  lemma {:induction false} NativeNeverClaiming(c: Curve, s: State, ms: seq<Message>, owner: Account)
    requires BalanceOf(s.claiming, Native, owner) == 0
    ensures BalanceOf(Run(c, s, ms).claiming, Native, owner) == 0
  {
    if ms != [] {
      NativeNeverClaiming(c, s, ms[..|ms| - 1], owner);
      StepKeepsNative(c, Run(c, s, ms[..|ms| - 1]), ms[|ms| - 1], owner);
    }
  }

  /** So in every reachable state a native claim is refused exactly when one of the two balances does not cover it. */
  lemma NativeClaimRefusedExactly(c: Curve, s: State, ms: seq<Message>, owner: Account, amount: Amount, nativeBalance: Amount)
    requires BalanceOf(s.claiming, Native, owner) == 0 && amount > 0 && Run(c, s, ms).pool.Trades(None)
    ensures Handle(c, Run(c, s, ms), ClaimTokens(owner, None, amount, nativeBalance)).None? <==>
      BalanceOf(Run(c, s, ms).claimable, Native, owner) < amount || nativeBalance < amount
  {
    NativeNeverClaiming(c, s, ms, owner);
    NativeClaimExact(Run(c, s, ms), owner, amount, nativeBalance);
  }
}
