/** A second receipt for a settled claim that the pool accepts, because another claim of the same owner is open. */
module ClaimDuplicates {
  import opened Common
  import opened MapSums
  import opened PoolLedger
  import opened PoolMessages
  import opened PoolClaims
  import opened ClaimProtocol
  import Meme = MemeLedger
  import opened MemeConservation
  import opened MemeInstantiation

  /** A world in which an owner can claim two units of a token and the token's ledger can pay them. */
  ghost predicate CanClaimTwice(w: World, owner: Account, app: ApplicationId) {
    && Initial(w) && w.pool.pool.Trades(Some(app)) && BalanceOf(w.pool.claimable, Fungible(app), owner) >= 2
    && app in w.memes && w.poolAccount != owner && Meme.BalanceOf(w.memes[app], w.poolAccount) > 0
    && Meme.BalanceOf(w.memes[app], owner) < U128_MAX
  }

  lemma Submitted(w: World, owner: Account, app: ApplicationId)
    requires w.pool.pool.Trades(Some(app)) && BalanceOf(w.pool.claimable, Fungible(app), owner) > 0
    requires BalanceOf(w.pool.claiming, Fungible(app), owner) < U128_MAX
    ensures var w1 := SubmitClaim(w, owner, app, 1);
      w1.claims == w.claims + [FungibleClaim(app, owner, 1)] && w1.mail == w.mail + multiset{Request(|w.claims|)} &&
      w1.(pool := w.pool, claims := w.claims, mail := w.mail) == w && w1.pool.pool == w.pool.pool &&
      BalanceOf(w1.pool.claimable, Fungible(app), owner) == BalanceOf(w.pool.claimable, Fungible(app), owner) - 1 &&
      BalanceOf(w1.pool.claiming, Fungible(app), owner) == BalanceOf(w.pool.claiming, Fungible(app), owner) + 1
  {
    ClaimExact(w.pool, owner, app, 1);
  }

  lemma Paid(w: World, id: nat)
    requires Request(id) in w.mail && id < |w.claims| && w.claims[id].app in w.memes && w.claims[id].amount == 1
    requires w.poolAccount != w.claims[id].owner && Meme.BalanceOf(w.memes[w.claims[id].app], w.poolAccount) > 0
    requires Meme.BalanceOf(w.memes[w.claims[id].app], w.claims[id].owner) < U128_MAX
    ensures var w1 := PayClaim(w, id);
      Receipt(id, true) in w1.mail && w1.pool == w.pool && w1.claims == w.claims && w1.delivered == w.delivered && w1.restored == w.restored
  {
    var ledger := w.memes[w.claims[id].app];
    assert w.poolAccount in ledger.balances;
    assert Transferred(w, id).Ok?;
  }

  lemma Delivers(w: World, id: nat)
    requires Receipt(id, true) in w.mail && id < |w.claims| && w.claims[id].amount > 0 && w.pool.pool.Trades(Some(w.claims[id].app))
    requires BalanceOf(w.pool.claiming, Fungible(w.claims[id].app), w.claims[id].owner) >= w.claims[id].amount
    ensures var w2 := SettleClaim(Redirect(w, Receipt(id, true), Settlement(id, true)), id, true);
      w2.claims == w.claims && w2.pool.pool == w.pool.pool && w2.delivered == w.delivered + multiset{id} && w2.restored == w.restored
  {
    var claim := w.claims[id];
    SettlementExact(w.pool, claim.owner, claim.app, claim.amount, true);
  }

  function TwoClaims(owner: Account, app: ApplicationId): seq<Event> {
    [Submit(owner, app, 1)] + [Submit(owner, app, 1)] + [Pay(0)] + [ForwardReceipt(0, true)] + [Settle(0, true)]
  }

  lemma PlayAppend(w: World, es: seq<Event>, e: Event)
    ensures Play(w, es + [e]) == Next(Play(w, es), e)
  {
    assert (es + [e])[..|es|] == es;
  }

  lemma {:induction false} PlayConcat(w: World, a: seq<Event>, b: seq<Event>)
    ensures Play(w, a + b) == Play(Play(w, a), b)
  {
    if b == [] {
      assert a + b == a;
    } else {
      PlayConcat(w, a, b[..|b| - 1]);
      assert (a + b)[..|a + b| - 1] == a + b[..|b| - 1];
    }
  }

  lemma TwoSubmitted(w: World, owner: Account, app: ApplicationId)
    requires CanClaimTwice(w, owner, app)
    ensures var w2 := SubmitClaim(SubmitClaim(w, owner, app, 1), owner, app, 1);
      var claim := FungibleClaim(app, owner, 1);
      w2.claims == [claim, claim] && Request(0) in w2.mail && w2.pool.pool == w.pool.pool && w2.memes == w.memes &&
      w2.poolAccount == w.poolAccount && w2.delivered == multiset{} && w2.restored == multiset{} &&
      BalanceOf(w2.pool.claiming, Fungible(app), owner) == 2
  {
    Submitted(w, owner, app);
    Submitted(SubmitClaim(w, owner, app, 1), owner, app);
  }

  lemma TwoClaimsPlayed(w: World, owner: Account, app: ApplicationId)
    ensures var w2 := SubmitClaim(SubmitClaim(w, owner, app, 1), owner, app, 1);
      Play(w, TwoClaims(owner, app)) == SettleClaim(Redirect(PayClaim(w2, 0), Receipt(0, true), Settlement(0, true)), 0, true)
  {
    var e1, e3, e4, e5 := Submit(owner, app, 1), Pay(0), ForwardReceipt(0, true), Settle(0, true);
    PlayAppend(w, [], e1);
    PlayAppend(w, [e1], e1);
    PlayAppend(w, [e1] + [e1], e3);
    PlayAppend(w, [e1] + [e1] + [e3], e4);
    PlayAppend(w, [e1] + [e1] + [e3] + [e4], e5);
    assert [] + [e1] == [e1];
  }

  /** Two equal claims, the first one paid and settled. */
  lemma FirstSettled(w: World, owner: Account, app: ApplicationId)
    requires CanClaimTwice(w, owner, app)
    ensures var w1 := Play(w, TwoClaims(owner, app));
      var claim := FungibleClaim(app, owner, 1);
      w1.claims == [claim, claim] && w1.pool.pool.Trades(Some(app)) && Settled(w1, 0) && !Settled(w1, 1)
  {
    TwoClaimsPlayed(w, owner, app);
    TwoSubmitted(w, owner, app);
    var w2 := SubmitClaim(SubmitClaim(w, owner, app, 1), owner, app, 1);
    FirstDelivered(w2);
  }

  lemma FirstDelivered(w: World)
    requires |w.claims| == 2 && w.claims[0].amount == 1 && Request(0) in w.mail && w.claims[0].app in w.memes
    requires w.poolAccount != w.claims[0].owner && Meme.BalanceOf(w.memes[w.claims[0].app], w.poolAccount) > 0
    requires Meme.BalanceOf(w.memes[w.claims[0].app], w.claims[0].owner) < U128_MAX
    requires w.pool.pool.Trades(Some(w.claims[0].app)) && BalanceOf(w.pool.claiming, Fungible(w.claims[0].app), w.claims[0].owner) >= 1
    requires w.delivered == multiset{} && w.restored == multiset{}
    ensures var w1 := SettleClaim(Redirect(PayClaim(w, 0), Receipt(0, true), Settlement(0, true)), 0, true);
      w1.claims == w.claims && w1.pool.pool == w.pool.pool && Settled(w1, 0) && !Settled(w1, 1)
  {
    Paid(w, 0);
    Delivers(PayClaim(w, 0), 0);
  }

  /**
   * Whenever two equal claims can be made, a second success receipt for the settled first one is accepted while the
   * second is open, and the second one's own receipt is then refused.
   */
  lemma DuplicateReceiptAccepted(w: World, owner: Account, app: ApplicationId)
    requires CanClaimTwice(w, owner, app)
    ensures var w1 := Play(w, TwoClaims(owner, app));
      |w1.claims| == 2 && Settled(w1, 0) && !Settled(w1, 1) &&
      var again := HandleReceipt(w1.pool, SettlementMessage(w1, 0, true));
      again.Some? && HandleReceipt(again.value, SettlementMessage(w1, 1, true)) == None
  {
    var es := TwoClaims(owner, app);
    FirstSettled(w, owner, app);
    OneOpen(Play(w, es), owner, app);
    ClaimingIsUnsettled(w, es, app, owner);
    LastUnit(Play(w, es).pool, owner, app);
  }

  lemma OneOpen(w: World, owner: Account, app: ApplicationId)
    requires w.claims == [FungibleClaim(app, owner, 1), FungibleClaim(app, owner, 1)] && Settled(w, 0) && !Settled(w, 1)
    ensures Unsettled(w, app, owner, 2) == 1
  {
    assert Unsettled(w, app, owner, 0) == 0;
    assert Unsettled(w, app, owner, 1) == 0;
  }

  /** The last unit being claimed can be settled once. */
  lemma LastUnit(s: State, owner: Account, app: ApplicationId)
    requires s.pool.Trades(Some(app)) && BalanceOf(s.claiming, Fungible(app), owner) == 1
    ensures var m := ClaimReceipt(owner, app, 1, true);
      HandleReceipt(s, m).Some? && HandleReceipt(HandleReceipt(s, m).value, m) == None
  {
    SettlementExact(s, owner, app, 1, true);
    SettlementExact(HandleReceipt(s, ClaimReceipt(owner, app, 1, true)).value, owner, app, 1, true);
  }

  // ---- Reached from token creation ----

  /** An empty pool of a created token against native; nothing has been claimed, and the pool holds nothing. */
  function FreshWorld(creator: Account, poolAccount: Account, ledger: Meme.State): World {
    World(EmptyPool(creator), poolAccount, map[0 := ledger], [], multiset{}, multiset{}, multiset{}, multiset{}, multiset{})
  }

  /** The creator's tokens go to the pool's account; the swap they are for is credited, the pool not being open. */
  function Funding(creator: Account, poolAccount: Account, c: Curve): seq<Event> {
    [OtherMeme(0, Meme.TransferTokens(creator, poolAccount, 2))] + [OtherPool(c, UnopenedSwap(creator))]
  }

  function UnopenedSwap(creator: Account): Message {
    Swap(creator, Some(2), None, None, None, None, 0, 0)
  }

  lemma CreditedSwap(c: Curve, creator: Account)
    ensures Step(c, EmptyPool(creator), UnopenedSwap(creator))
         == EmptyPool(creator).(claimable := map[Fungible(0) := map[creator := 2]])
  {
    assert map[][Fungible(0) := map[][creator := 2]] == map[Fungible(0) := map[creator := 2]];
  }

  lemma FundedLedger(ledger: Meme.State, creator: Account, poolAccount: Account)
    requires Backed(ledger) && 2 <= Meme.BalanceOf(ledger, creator) < U128_MAX && creator != poolAccount
    ensures var after := Meme.Step(ledger, Meme.TransferTokens(creator, poolAccount, 2));
      Meme.BalanceOf(after, poolAccount) > 0 && Meme.BalanceOf(after, creator) < U128_MAX
  {
    TransferExact(ledger, creator, poolAccount, 2);
  }

  lemma FundedWorld(creator: Account, poolAccount: Account, ledger: Meme.State, c: Curve)
    requires Backed(ledger) && 2 <= Meme.BalanceOf(ledger, creator) < U128_MAX && creator != poolAccount
    ensures CanClaimTwice(Play(FreshWorld(creator, poolAccount, ledger), Funding(creator, poolAccount, c)), creator, 0)
  {
    var w, e := FreshWorld(creator, poolAccount, ledger), OtherMeme(0, Meme.TransferTokens(creator, poolAccount, 2));
    PlayAppend(w, [], e);
    assert [] + [e] == [e];
    PlayAppend(w, [e], OtherPool(c, UnopenedSwap(creator)));
    CreditedSwap(c, creator);
    FundedLedger(ledger, creator, poolAccount);
  }

  /**
   * From the creation of a token and an empty pool of it, by messages the contracts do send: the creator's first claim
   * is settled, and a second receipt for it is accepted while the second claim is open.
   */
  lemma DuplicateIsReachable(env: Environment, argument: Meme.Argument, poolAccount: Account, c: Curve)
    requires InstantiateMeme(env, argument).Ok? && env.creator != poolAccount
    ensures var w := FreshWorld(env.creator, poolAccount, InstantiateMeme(env, argument).state);
      var w1 := Play(w, Funding(env.creator, poolAccount, c) + TwoClaims(env.creator, 0));
      Initial(w) && Sent(w.pool.pool, UnopenedSwap(env.creator)) && |w1.claims| == 2 && Settled(w1, 0) && !Settled(w1, 1) &&
      HandleReceipt(w1.pool, SettlementMessage(w1, 0, true)).Some?
  {
    var ledger := InstantiateMeme(env, argument).state;
    var w := FreshWorld(env.creator, poolAccount, ledger);
    CreatorHolds(env, argument);
    FundedWorld(env.creator, poolAccount, ledger, c);
    PlayConcat(w, Funding(env.creator, poolAccount, c), TwoClaims(env.creator, 0));
    DuplicateReceiptAccepted(Play(w, Funding(env.creator, poolAccount, c)), env.creator, 0);
  }

  lemma CreatorHolds(env: Environment, argument: Meme.Argument)
    requires InstantiateMeme(env, argument).Ok?
    ensures var ledger := InstantiateMeme(env, argument).state;
      Backed(ledger) && Meme.BalanceOf(ledger, env.creator) == OWNER_TOKENS && 2 <= OWNER_TOKENS < U128_MAX
  {
    SupplySplit(env, argument);
    InstantiationExact(env, argument);
  }
}
