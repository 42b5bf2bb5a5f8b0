/** On each token side of the pool, value only enters with deposits and only leaves with delivered claims. */
module PoolConservation {
  import opened Common
  import opened MapSums
  import opened PoolLedger
  import opened PoolMessages
  import opened PoolCurve

  ghost function Claims(s: State, token: Token): nat {
    Sum(Inner(s.claimable, token)) + Sum(Inner(s.claiming, token))
  }

  function Reserve(s: State, second: bool): Amount {
    if second then s.pool.reserve1 else s.pool.reserve0
  }

  /** Everything the pool holds for one side: its reserve, what may be claimed and what is being claimed. */
  ghost function Custody(s: State, second: bool): nat {
    Reserve(s, second) + Claims(s, Side(s.pool, second))
  }

  // ---- Single operations ----

  lemma RaiseSums(b: Balances, token: Token, owner: Account, amount: Amount, other: Token)
    ensures var r := Raise(b, token, owner, amount);
      (r.Some? <==> BalanceOf(b, token, owner) + amount <= U128_MAX) &&
      (r.Some? ==> Sum(Inner(r.value, other)) == Sum(Inner(b, other)) + if other == token then amount else 0)
  {
    SumPut(Inner(b, token), owner, BalanceOf(b, token, owner) + amount);
  }

  lemma LowerSums(b: Balances, token: Token, owner: Account, amount: Amount, other: Token)
    ensures var r := Lower(b, token, owner, amount);
      (r.Some? <==> amount <= BalanceOf(b, token, owner)) &&
      (r.Some? ==> Sum(Inner(r.value, other)) == Sum(Inner(b, other)) - if other == token then amount else 0)
  {
    SumDrop(Inner(b, token), owner);
    if BalanceOf(b, token, owner) > amount {
      SumPut(Inner(b, token), owner, BalanceOf(b, token, owner) - amount);
    }
  }

  /** A claim moves value between the two books and keeps their total. */
  lemma ClaimKeepsClaims(s: State, token: Token, owner: Account, amount: Amount, other: Token)
    requires Claim(s, token, owner, amount).Ok?
    ensures Claims(Claim(s, token, owner, amount).state, other) == Claims(s, other)
  {
    LowerSums(s.claimable, token, owner, amount, other);
    RaiseSums(s.claiming, token, owner, amount, other);
  }

  lemma SuccessLowersClaims(s: State, token: Token, owner: Account, amount: Amount, other: Token)
    requires ClaimSuccess(s, token, owner, amount).Ok?
    ensures Claims(ClaimSuccess(s, token, owner, amount).state, other) == Claims(s, other) - if other == token then amount else 0
  {
    LowerSums(s.claiming, token, owner, amount, other);
  }

  lemma FailKeepsClaims(s: State, token: Token, owner: Account, amount: Amount, other: Token)
    requires ClaimFail(s, token, owner, amount).Ok?
    ensures Claims(ClaimFail(s, token, owner, amount).state, other) == Claims(s, other)
  {
    SuccessLowersClaims(s, token, owner, amount, other);
    var s1 := ClaimSuccess(s, token, owner, amount).state;
    RaiseSums(s1.claimable, token, owner, amount, other);
  }

  predicate CreditsFit(s: State, owner: Account, x0: Amount, x1: Amount) {
    && BalanceOf(s.claimable, Side(s.pool, false), owner) + x0 <= U128_MAX
    && BalanceOf(s.claimable, Side(s.pool, true), owner) + x1 <= U128_MAX
  }

  lemma CreditRaisesClaims(s: State, token: Token, owner: Account, amount: Amount, other: Token)
    ensures var r := CreditNonZero(s, token, owner, amount);
      !r.Panic? && (r.Ok? <==> BalanceOf(s.claimable, token, owner) + amount <= U128_MAX) &&
      Claims(r.state, other) == Claims(s, other) + if other == token && r.Ok? then amount else 0
  {
    RaiseSums(s.claimable, token, owner, amount, other);
  }

  /** Crediting both legs raises both sides in full, or runs over 128 bits and loses at least one leg. */
  lemma CreditPairClaims(s: State, owner: Account, x0: Amount, x1: Amount)
    requires s.pool.Valid()
    ensures var r := CreditPair(s, owner, x0, x1);
      var t0, t1 := Side(s.pool, false), Side(s.pool, true);
      !r.Panic? && (r.Ok? <==> CreditsFit(s, owner, x0, x1)) &&
      (r.Ok? ==> Claims(r.state, t0) == Claims(s, t0) + x0 && Claims(r.state, t1) == Claims(s, t1) + x1) &&
      (r.Err? ==> Claims(r.state, t0) <= Claims(s, t0) + x0 && Claims(r.state, t1) <= Claims(s, t1) + x1 &&
                  Claims(r.state, t0) + Claims(r.state, t1) < Claims(s, t0) + x0 + Claims(s, t1) + x1)
  {
    var t0, t1 := Side(s.pool, false), Side(s.pool, true);
    var r0 := CreditNonZero(s, t0, owner, x0);
    CreditRaisesClaims(s, t0, owner, x0, t0);
    CreditRaisesClaims(s, t0, owner, x0, t1);
    if r0.Ok? {
      CreditRaisesClaims(r0.state, t1, owner, x1, t0);
      CreditRaisesClaims(r0.state, t1, owner, x1, t1);
    }
  }

  // ---- Messages ----

  /** What a message brings into the pool's custody on one side. */
  function Attached(pool: Pool, m: Message, second: bool): nat {
    match m
    case InitializePool(_, in0, in1, _, _) => if second then in1 else in0
    case Add(_, in0, in1, _, _, _, _) => if second then in1 else in0
    case Swap(_, maybeIn0, maybeIn1, _, _, _, _, _) => if second then maybeIn1.GetOr(0) else maybeIn0.GetOr(0)
    case ReturnLeg(_, token, amount) => if TokenOf(token) == Side(pool, second) then amount else 0
    case _ => 0
  }

  /** Attached value counts once the message is executed rather than rejected. */
  function Taken(c: Curve, s: State, m: Message, second: bool): nat {
    if Handle(c, s, m).Some? then Attached(s.pool, m, second) else 0
  }

  /** What an executed message pays out: a native claim at once, a fungible claim when its success receipt lands. */
  function Delivered(c: Curve, s: State, m: Message, second: bool): nat {
    if Handle(c, s, m).None? then 0 else
    match m
    case ClaimTokens(_, None, amount, _) => if Side(s.pool, second) == Native then amount else 0
    case ClaimReceipt(_, app, amount, true) => if Side(s.pool, second) == Fungible(app) then amount else 0
    case _ => 0
  }

  /** Which credits a swap will commit; the only place where an error is committed after reserves may have moved. */
  predicate SwapFits(c: Curve, s: State, m: Message)
    requires m.Swap?
  {
    Initialized(s) ==> PlanFits(s, m, SwapPlan(c, s, m))
  }

  predicate PlanFits(s: State, m: Message, plan: Plan)
    requires m.Swap?
  {
    match plan
    case Crash => true
    case Refund => CreditsFit(s, m.origin, m.maybeIn0.GetOr(0), m.maybeIn1.GetOr(0))
    case Fill(out0, out1, _, _) => CreditsFit(s, m.to.GetOr(m.origin), out0, out1)
  }

  ghost predicate Conserves(c: Curve, s: State, m: Message, second: bool) {
    Custody(Step(c, s, m), second) + Delivered(c, s, m, second) == Custody(s, second) + Taken(c, s, m, second)
  }

  /** Committing a pair of credits on `s1` adds to the custody of `s`, or loses part of what is credited. */
  lemma KeepPairCustody(s: State, owner: Account, x0: Amount, x1: Amount)
    requires s.pool.Valid()
    ensures var r := Keep(CreditPair(s, owner, x0, x1));
      r.Some? && r.value.pool == s.pool && r.value.totalSupply == s.totalSupply &&
      Custody(r.value, false) <= Custody(s, false) + x0 && Custody(r.value, true) <= Custody(s, true) + x1 &&
      (CreditsFit(s, owner, x0, x1) <==>
         Custody(r.value, false) == Custody(s, false) + x0 && Custody(r.value, true) == Custody(s, true) + x1)
    ensures var r := Require(CreditPair(s, owner, x0, x1));
      r.Some? ==> (r.value.pool == s.pool && r.value.totalSupply == s.totalSupply &&
        Custody(r.value, false) == Custody(s, false) + x0 && Custody(r.value, true) == Custody(s, true) + x1)
  {
    CreditPairClaims(s, owner, x0, x1);
    CreditPairKeepsShares(s, owner, x0, x1);
  }

  lemma CommitConserves(s: State, m: Message, plan: Plan)
    requires s.pool.Valid() && m.Swap? && (plan.Fill? ==> Exchanges(s, m, plan))
    ensures var r := CommitSwap(s, m, plan);
      (r.None? <==> plan.Crash?) &&
      (r.Some? ==>
         (forall second :: Side(r.value.pool, second) == Side(s.pool, second) &&
            Custody(r.value, second) <= Custody(s, second) + Attached(s.pool, m, second)) &&
         (PlanFits(s, m, plan) <==>
            forall second :: Custody(r.value, second) == Custody(s, second) + Attached(s.pool, m, second)))
  {
    match plan
    case Crash =>
    case Refund => KeepPairCustody(s, m.origin, m.maybeIn0.GetOr(0), m.maybeIn1.GetOr(0));
    case Fill(_, _, _, _) => FillConserves(s, m, plan);
  }

  lemma FillConserves(s: State, m: Message, plan: Plan)
    requires s.pool.Valid() && m.Swap? && plan.Fill? && Exchanges(s, m, plan)
    ensures var r := CommitSwap(s, m, plan);
      r.Some? &&
      (forall second :: Side(r.value.pool, second) == Side(s.pool, second) &&
         Custody(r.value, second) <= Custody(s, second) + Attached(s.pool, m, second)) &&
      (CreditsFit(s, m.to.GetOr(m.origin), plan.out0, plan.out1) <==>
         forall second :: Custody(r.value, second) == Custody(s, second) + Attached(s.pool, m, second))
  {
    var s1 := s.(pool := s.pool.Liquid(plan.balance0, plan.balance1, m.now));
    KeepPairCustody(s1, m.to.GetOr(m.origin), plan.out0, plan.out1);
  }

  lemma SwapOutcome(c: Curve, s: State, m: Message)
    requires s.pool.Valid() && m.Swap?
    ensures var r := HandleSwap(c, s, m);
      (r.Some? ==> forall second :: Custody(r.value, second) <= Custody(s, second) + Attached(s.pool, m, second)) &&
      (SwapFits(c, s, m) <==>
         (r.Some? ==> forall second :: Custody(r.value, second) == Custody(s, second) + Attached(s.pool, m, second)))
  {
    if Initialized(s) {
      CommitConserves(s, m, SwapPlan(c, s, m));
    } else {
      KeepPairCustody(s, m.origin, m.maybeIn0.GetOr(0), m.maybeIn1.GetOr(0));
    }
  }

  /** A swap, filled or refunded, keeps both sides exactly when the credits it commits fit; it never creates value. */
  lemma SwapConserves(c: Curve, s: State, m: Message)
    requires s.pool.Valid() && m.Swap?
    ensures (forall second :: Conserves(c, s, m, second)) <==> SwapFits(c, s, m)
    ensures forall second :: Custody(Step(c, s, m), second) <= Custody(s, second) + Taken(c, s, m, second)
  {
    SwapOutcome(c, s, m);
    var r := HandleSwap(c, s, m);
    assert Handle(c, s, m) == r;
    forall second: bool
      ensures Conserves(c, s, m, second) <==> (r.Some? ==> Custody(r.value, second) == Custody(s, second) + Attached(s.pool, m, second))
      ensures Custody(Step(c, s, m), second) <= Custody(s, second) + Taken(c, s, m, second)
    {
    }
  }

  /** `owner` is credited `x0` and `x1`; no other part of the state differs. */
  ghost predicate OnlyCredits(s: State, s1: State, owner: Account, x0: Amount, x1: Amount) {
    && s1.pool == s.pool && s1.shares == s.shares && s1.totalSupply == s.totalSupply && s1.claiming == s.claiming
    && forall token: Token, o: Account :: BalanceOf(s1.claimable, token, o) == BalanceOf(s.claimable, token, o) +
         if o == owner && token == Side(s.pool, false) then x0
         else if o == owner && token == Side(s.pool, true) then x1 else 0
  }

  lemma RaiseTouchesOne(b: Balances, token: Token, owner: Account, amount: Amount)
    requires BalanceOf(b, token, owner) + amount <= U128_MAX
    ensures var r := Raise(b, token, owner, amount);
      r.Some? && forall t: Token, o: Account ::
        BalanceOf(r.value, t, o) == BalanceOf(b, t, o) + if t == token && o == owner then amount else 0
  {
  }

  lemma LowerTouchesOne(b: Balances, token: Token, owner: Account, amount: Amount)
    requires amount <= BalanceOf(b, token, owner)
    ensures var r := Lower(b, token, owner, amount);
      r.Some? && forall t: Token, o: Account ::
        BalanceOf(r.value, t, o) == BalanceOf(b, t, o) - if t == token && o == owner then amount else 0
  {
  }

  lemma CreditPairOnlyCredits(s: State, owner: Account, x0: Amount, x1: Amount)
    requires s.pool.Valid() && CreditsFit(s, owner, x0, x1)
    ensures var r := CreditPair(s, owner, x0, x1); r.Ok? && OnlyCredits(s, r.state, owner, x0, x1)
  {
    var t0, t1 := Side(s.pool, false), Side(s.pool, true);
    var s1 := CreditNonZero(s, t0, owner, x0);
    RaiseTouchesOne(s.claimable, t0, owner, x0);
    RaiseTouchesOne(s1.state.claimable, t1, owner, x1);
  }

  /** A swap that fails any of its checks returns its whole input to the sender as claimable and moves no reserve. */
  lemma FailedSwapReturnsInput(c: Curve, s: State, m: Message)
    requires s.pool.Valid() && m.Swap? && (Initialized(s) ==> SwapPlan(c, s, m).Refund?)
    requires CreditsFit(s, m.origin, m.maybeIn0.GetOr(0), m.maybeIn1.GetOr(0))
    ensures OnlyCredits(s, Step(c, s, m), m.origin, m.maybeIn0.GetOr(0), m.maybeIn1.GetOr(0))
  {
    CreditPairOnlyCredits(s, m.origin, m.maybeIn0.GetOr(0), m.maybeIn1.GetOr(0));
  }

  predicate AddFails(c: Curve, s: State, m: Message)
    requires m.Add?
  {
    match SwapAmountPair(c, s.pool, m.in0, m.in1, m.min0, m.min1)
    case Abort => false
    case Unavailable => true
    case Value((x0, x1)) =>
      x0 == 0 || x1 == 0 || AddLiquidity(c, s, x0, x1, m.to.GetOr(m.origin), m.now).Err?
  }

  /** An addition that fails after custody returns its whole input and leaves reserves and shares as they were. */
  lemma FailedAddReturnsInput(c: Curve, s: State, m: Message)
    requires s.pool.Valid() && m.Add? && SharesBalanced(s) && AddFails(c, s, m)
    requires CreditsFit(s, m.origin, m.in0, m.in1)
    ensures OnlyCredits(s, Step(c, s, m), m.origin, m.in0, m.in1)
  {
    CreditPairOnlyCredits(s, m.origin, m.in0, m.in1);
    var pair := SwapAmountPair(c, s.pool, m.in0, m.in1, m.min0, m.min1);
    if pair.Value? {
      FailedAddLeavesState(c, s, pair.value.0, pair.value.1, m.to.GetOr(m.origin), m.now);
    }
  }

  // ---- Runs ----

  /** Either the pool is live, or both reserves are empty and a first deposit replaces nothing. */
  predicate Healthy(s: State) {
    Initialized(s) || (s.pool.reserve0 == 0 && s.pool.reserve1 == 0)
  }

  ghost predicate Fits(s: State, m: Message) {
    forall second :: Custody(s, second) + Attached(s.pool, m, second) <= U128_MAX
  }

  lemma CustodyBoundsBalance(s: State, owner: Account, second: bool)
    ensures BalanceOf(s.claimable, Side(s.pool, second), owner) + Reserve(s, second) <= Custody(s, second)
  {
    SumAtLeast(Inner(s.claimable, Side(s.pool, second)), owner);
  }

  lemma FitsIsEnoughForSwap(c: Curve, s: State, m: Message)
    requires s.pool.Valid() && m.Swap? && Fits(s, m)
    ensures SwapFits(c, s, m)
  {
    var to := m.to.GetOr(m.origin);
    CustodyBoundsBalance(s, m.origin, false);
    CustodyBoundsBalance(s, m.origin, true);
    CustodyBoundsBalance(s, to, false);
    CustodyBoundsBalance(s, to, true);
    assert Custody(s, false) + Attached(s.pool, m, false) <= U128_MAX;
    assert Custody(s, true) + Attached(s.pool, m, true) <= U128_MAX;
  }

  /** Minting shares touches only shares and supply; a sound curve gives a first depositor some. */
  lemma MintSharesEffect(c: Curve, s: State, x0: Amount, x1: Amount, to: Account)
    requires Sound(c)
    ensures var r := MintShares(c, s, x0, x1, to);
      !r.Panic? ==> r.state.pool == s.pool && r.state.claimable == s.claimable && r.state.claiming == s.claiming
    ensures var r := MintShares(c, s, x0, x1, to);
      r.Ok? ==> s.totalSupply <= r.state.totalSupply && (s.pool.reserve0 == 0 && s.pool.reserve1 == 0 ==> r.state.totalSupply > 0)
  {
  }

  ghost predicate SameClaims(s: State, s1: State) {
    && s1.claimable == s.claimable && s1.claiming == s.claiming
    && s1.pool.token0 == s.pool.token0 && s1.pool.token1 == s.pool.token1
  }

  predicate Reserves(s: State, x0: int, x1: int) {
    s.pool.reserve0 == x0 && s.pool.reserve1 == x1
  }

  lemma AddEffect(c: Curve, s: State, x0: Amount, x1: Amount, to: Account, now: Timestamp)
    requires Healthy(s) && Sound(c)
    ensures var r := AddLiquidity(c, s, x0, x1, to, now);
      (r.Err? ==> SameClaims(s, r.state) && r.state.pool == s.pool && Healthy(r.state)) &&
      (r.Ok? ==> SameClaims(s, r.state) && Initialized(r.state)) &&
      (r.Ok? ==> Reserves(r.state, s.pool.reserve0 + x0, s.pool.reserve1 + x1))
  {
    MintSharesEffect(c, s, x0, x1, to);
  }

  lemma InitializeEffect(c: Curve, s: State, x0: Amount, x1: Amount, to: Account, now: Timestamp)
    requires Sound(c) && Healthy(s)
    ensures var r := InitializeLiquidity(c, s, x0, x1, to, now);
      r.Ok? ==> Reserves(s, 0, 0) && SameClaims(s, r.state) && Initialized(r.state) && Reserves(r.state, x0, x1)
  {
    if !Initialized(s) { MintSharesEffect(c, s, x0, x1, to); }
  }

  lemma RemoveEffect(c: Curve, s: State, from: Account, liquidity: Amount,
                     min0: Option<Amount>, min1: Option<Amount>, now: Timestamp)
    requires Sound(c) && Initialized(s)
    ensures var r := RemoveLiquidity(c, s, from, liquidity, min0, min1, now);
      r.Ok? ==> SameClaims(s, r.state) && Healthy(r.state) && Reserves(s, r.state.pool.reserve0 + r.value.0, r.state.pool.reserve1 + r.value.1)
  {
    var r := RemoveLiquidity(c, s, from, liquidity, min0, min1, now);
    if r.Ok? {
      var s1 := MintFee(c, s).state;
      var supply := s1.totalSupply;
      assert liquidity <= supply && c.withdrawal(s1.pool, liquidity, supply) == Some(r.value);
      assert Leaves(s.pool.reserve0, r.value.0, liquidity, supply);
      assert Leaves(s.pool.reserve1, r.value.1, liquidity, supply);
      assert r.state.totalSupply == supply - liquidity;
    }
  }

  // ---- One message ----

  /** The committed state `s1` of a message holds what `s` held and what was attached. */
  ghost predicate Absorbs(s: State, s1: State, m: Message) {
    && s1.pool.token0 == s.pool.token0 && s1.pool.token1 == s.pool.token1
    && Custody(s1, false) == Custody(s, false) + Attached(s.pool, m, false)
    && Custody(s1, true) == Custody(s, true) + Attached(s.pool, m, true)
  }

  lemma RequirePairAbsorbs(s: State, s1: State, m: Message, owner: Account, x0: Amount, x1: Amount)
    requires s.pool.Valid() && SameClaims(s, s1) && Healthy(s1)
    requires Reserve(s1, false) + x0 == Reserve(s, false) + Attached(s.pool, m, false)
    requires Reserve(s1, true) + x1 == Reserve(s, true) + Attached(s.pool, m, true)
    ensures AbsorbsInto(s, Require(CreditPair(s1, owner, x0, x1)), m)
  {
    KeepPairCustody(s1, owner, x0, x1);
  }

  ghost predicate AbsorbsInto(s: State, s1: Option<State>, m: Message) {
    s1.Some? ==> Absorbs(s, s1.value, m) && Healthy(s1.value)
  }

  lemma FailedAddAbsorbs(s: State, m: Message, x0: Amount, x1: Amount, r: Result<Amount>)
    requires m.Add? && x0 <= m.in0 && x1 <= m.in1 && s.pool.Valid()
    requires r.Err? && SameClaims(s, r.state) && r.state.pool == s.pool && Healthy(r.state)
    ensures AbsorbsInto(s, FinishAdd(m, x0, x1, r), m)
  {
    RequirePairAbsorbs(s, r.state, m, m.origin, m.in0, m.in1);
  }

  lemma DoneAddAbsorbs(s: State, m: Message, x0: Amount, x1: Amount, r: Result<Amount>)
    requires m.Add? && x0 <= m.in0 && x1 <= m.in1 && s.pool.Valid()
    requires r.Ok? && SameClaims(s, r.state) && Initialized(r.state)
    requires Reserves(r.state, s.pool.reserve0 + x0, s.pool.reserve1 + x1)
    ensures AbsorbsInto(s, FinishAdd(m, x0, x1, r), m)
  {
    var y0: Amount, y1: Amount := m.in0 - x0, m.in1 - x1;
    var s1 := r.state;
    assert FinishAdd(m, x0, x1, r) == Require(CreditPair(s1, m.origin, y0, y1));
    RequirePairAbsorbs(s, s1, m, m.origin, y0, y1);
  }

  lemma AddAbsorbs(c: Curve, s: State, m: Message)
    requires s.pool.Valid() && m.Add? && Healthy(s) && Sound(c)
    ensures AbsorbsInto(s, HandleAdd(c, s, m), m)
  {
    RequirePairAbsorbs(s, s, m, m.origin, m.in0, m.in1);
    match SwapAmountPair(c, s.pool, m.in0, m.in1, m.min0, m.min1)
    case Value((x0, x1)) =>
      var r := AddLiquidity(c, s, x0, x1, m.to.GetOr(m.origin), m.now);
      AddEffect(c, s, x0, x1, m.to.GetOr(m.origin), m.now);
      if r.Err? {
        FailedAddAbsorbs(s, m, x0, x1, r);
      } else if r.Ok? {
        DoneAddAbsorbs(s, m, x0, x1, r);
      }
    case _ =>
  }

  lemma InitializeAbsorbs(c: Curve, s: State, m: Message)
    requires s.pool.Valid() && m.InitializePool? && Healthy(s) && Sound(c)
    ensures AbsorbsInto(s, Handle(c, s, m), m)
  {
    InitializeEffect(c, s, m.in0, m.in1, m.to.GetOr(m.origin), m.now);
  }

  lemma RemoveAbsorbs(c: Curve, s: State, m: Message)
    requires s.pool.Valid() && m.Remove? && Sound(c)
    ensures AbsorbsInto(s, HandleRemove(c, s, m), m)
  {
    if Initialized(s) {
      RemoveEffect(c, s, m.origin, m.liquidity, m.min0, m.min1, m.now);
      var r := RemoveLiquidity(c, s, m.origin, m.liquidity, m.min0, m.min1, m.now);
      if r.Ok? {
        RequirePairAbsorbs(s, r.state, m, m.to.GetOr(m.origin), r.value.0, r.value.1);
      }
    }
  }

  /** What a message must do, executed or rejected. */
  ghost predicate Accounted(c: Curve, s: State, m: Message) {
    && Conserves(c, s, m, false) && Conserves(c, s, m, true)
    && Step(c, s, m).pool.token0 == s.pool.token0 && Step(c, s, m).pool.token1 == s.pool.token1
    && Healthy(Step(c, s, m))
  }

  predicate Deposits(m: Message) {
    m.InitializePool? || m.Add? || m.Remove?
  }

  lemma DepositAccounted(c: Curve, s: State, m: Message)
    requires Healthy(s) && Deposits(m)
    requires AbsorbsInto(s, Handle(c, s, m), m)
    ensures Accounted(c, s, m)
  {
  }

  lemma ClaimAccounted(c: Curve, s: State, m: Message)
    requires s.pool.Valid() && Healthy(s) && m.ClaimTokens?
    ensures Accounted(c, s, m)
  {
    if HandleClaim(s, m).Some? {
      forall second: bool ensures Conserves(c, s, m, second) {
        var t := Side(s.pool, second);
        ClaimKeepsClaims(s, TokenOf(m.token), m.origin, m.amount, t);
        if m.token == None {
          SuccessLowersClaims(Claim(s, Native, m.origin, m.amount).state, Native, m.origin, m.amount, t);
        }
      }
    }
  }

  lemma ReceiptAccounted(c: Curve, s: State, m: Message)
    requires s.pool.Valid() && Healthy(s) && m.ClaimReceipt?
    ensures Accounted(c, s, m)
  {
    if HandleReceipt(s, m).Some? {
      forall second: bool ensures Conserves(c, s, m, second) {
        var t := Side(s.pool, second);
        if m.success { SuccessLowersClaims(s, Fungible(m.app), m.owner, m.amount, t); }
        else { FailKeepsClaims(s, Fungible(m.app), m.owner, m.amount, t); }
      }
    }
  }

  lemma LegAccounted(c: Curve, s: State, m: Message)
    requires s.pool.Valid() && Healthy(s) && m.ReturnLeg?
    ensures Accounted(c, s, m)
  {
    CreditRaisesClaims(s, TokenOf(m.token), m.owner, m.amount, Side(s.pool, false));
    CreditRaisesClaims(s, TokenOf(m.token), m.owner, m.amount, Side(s.pool, true));
  }

  /** What even a leaking message keeps: nothing is created, the pair stays the pair, the pool stays live or empty. */
  ghost predicate Bounded(c: Curve, s: State, m: Message) {
    && NoGain(c, s, m, false) && NoGain(c, s, m, true)
    && Step(c, s, m).pool.token0 == s.pool.token0 && Step(c, s, m).pool.token1 == s.pool.token1
    && Healthy(Step(c, s, m))
  }

  ghost predicate NoGain(c: Curve, s: State, m: Message, second: bool) {
    Custody(Step(c, s, m), second) + Delivered(c, s, m, second) <= Custody(s, second) + Taken(c, s, m, second)
  }

  lemma CommitStaysHealthy(s: State, m: Message, plan: Plan)
    requires s.pool.Valid() && m.Swap? && Initialized(s) && (plan.Fill? ==> Exchanges(s, m, plan))
    ensures var r := CommitSwap(s, m, plan);
      r.Some? ==> Initialized(r.value) && r.value.pool.token0 == s.pool.token0 && r.value.pool.token1 == s.pool.token1
  {
    match plan
    case Crash =>
    case Refund => CreditPairKeepsShares(s, m.origin, m.maybeIn0.GetOr(0), m.maybeIn1.GetOr(0));
    case Fill(out0, out1, balance0, balance1) =>
      CreditPairKeepsShares(s.(pool := s.pool.Liquid(balance0, balance1, m.now)), m.to.GetOr(m.origin), out0, out1);
  }

  lemma SwapStaysHealthy(c: Curve, s: State, m: Message)
    requires s.pool.Valid() && m.Swap? && Healthy(s)
    ensures var r := HandleSwap(c, s, m);
      r.Some? ==> Healthy(r.value) && r.value.pool.token0 == s.pool.token0 && r.value.pool.token1 == s.pool.token1
  {
    if Initialized(s) {
      CommitStaysHealthy(s, m, SwapPlan(c, s, m));
    } else {
      CreditPairKeepsShares(s, m.origin, m.maybeIn0.GetOr(0), m.maybeIn1.GetOr(0));
    }
  }

  lemma SwapBounded(c: Curve, s: State, m: Message)
    requires s.pool.Valid() && m.Swap? && Healthy(s)
    ensures Bounded(c, s, m)
  {
    SwapConserves(c, s, m);
    SwapStaysHealthy(c, s, m);
    var r := HandleSwap(c, s, m);
    assert Handle(c, s, m) == r && Step(c, s, m) == r.GetOr(s);
    forall second: bool ensures NoGain(c, s, m, second) {
      assert Delivered(c, s, m, second) == 0;
    }
  }

  lemma OtherAccounted(c: Curve, s: State, m: Message)
    requires s.pool.Valid() && Healthy(s) && Sound(c) && !m.Swap?
    ensures Accounted(c, s, m)
  {
    match m
    case InitializePool(_, _, _, _, _) => InitializeAbsorbs(c, s, m); DepositAccounted(c, s, m);
    case Add(_, _, _, _, _, _, _) => AddAbsorbs(c, s, m); DepositAccounted(c, s, m);
    case Remove(_, _, _, _, _, _) => RemoveAbsorbs(c, s, m); DepositAccounted(c, s, m);
    case ClaimTokens(_, _, _, _) => ClaimAccounted(c, s, m);
    case ClaimReceipt(_, _, _, _) => ReceiptAccounted(c, s, m);
    case ReturnLeg(_, _, _) => LegAccounted(c, s, m);
    case _ =>
  }

  /**
   * One message never creates value, and what either side holds changes by exactly what came in and what was
   * delivered, except for a swap whose committed credits do not fit.
   */
  lemma StepConserves(c: Curve, s: State, m: Message)
    requires s.pool.Valid() && Healthy(s) && Sound(c)
    ensures Bounded(c, s, m)
    ensures Conserves(c, s, m, false) && Conserves(c, s, m, true) <==> (m.Swap? ==> SwapFits(c, s, m))
  {
    if m.Swap? {
      SwapBounded(c, s, m);
      SwapConserves(c, s, m);
      assert (forall second :: Conserves(c, s, m, second)) <==> Conserves(c, s, m, false) && Conserves(c, s, m, true);
    } else {
      OtherAccounted(c, s, m);
    }
  }

  // ---- Whole runs ----

  function TotalAttached(pool: Pool, ms: seq<Message>, second: bool): nat {
    if ms == [] then 0 else TotalAttached(pool, ms[..|ms| - 1], second) + Attached(pool, ms[|ms| - 1], second)
  }

  function TotalTaken(c: Curve, s: State, ms: seq<Message>, second: bool): nat {
    if ms == [] then 0 else
    var front := ms[..|ms| - 1];
    TotalTaken(c, s, front, second) + Taken(c, Run(c, s, front), ms[|ms| - 1], second)
  }

  function TotalDelivered(c: Curve, s: State, ms: seq<Message>, second: bool): nat {
    if ms == [] then 0 else
    var front := ms[..|ms| - 1];
    TotalDelivered(c, s, front, second) + Delivered(c, Run(c, s, front), ms[|ms| - 1], second)
  }

  /** Every swap of the run commits credits that fit at the moment it is executed. */
  predicate SwapsFit(c: Curve, s: State, ms: seq<Message>) {
    ms == [] ||
    (SwapsFit(c, s, ms[..|ms| - 1]) && (ms[|ms| - 1].Swap? ==> SwapFits(c, Run(c, s, ms[..|ms| - 1]), ms[|ms| - 1])))
  }

  ghost predicate SamePair(s: State, s1: State) {
    s1.pool.token0 == s.pool.token0 && s1.pool.token1 == s.pool.token1
  }

  ghost function Held(c: Curve, s: State, ms: seq<Message>, second: bool): nat {
    Custody(Run(c, s, ms), second) + TotalDelivered(c, s, ms, second)
  }

  ghost function Received(c: Curve, s: State, ms: seq<Message>, second: bool): nat {
    Custody(s, second) + TotalTaken(c, s, ms, second)
  }

  /**
   * Over any run, custody never exceeds what was there plus deposits minus deliveries, and it is exactly that on both
   * sides if and only if every swap's credits fitted.
   */
  lemma {:induction false} CustodyExact(c: Curve, s: State, ms: seq<Message>)
    requires s.pool.Valid() && Healthy(s) && Sound(c)
    ensures Healthy(Run(c, s, ms)) && SamePair(s, Run(c, s, ms))
    ensures Held(c, s, ms, false) <= Received(c, s, ms, false) && Held(c, s, ms, true) <= Received(c, s, ms, true)
    ensures Held(c, s, ms, false) == Received(c, s, ms, false) && Held(c, s, ms, true) == Received(c, s, ms, true)
       <==> SwapsFit(c, s, ms)
  {
    if ms != [] {
      var front, m := ms[..|ms| - 1], ms[|ms| - 1];
      CustodyExact(c, s, front);
      StepConserves(c, Run(c, s, front), m);
      LastStep(c, s, ms, false);
      LastStep(c, s, ms, true);
    }
  }

  lemma LastStep(c: Curve, s: State, ms: seq<Message>, second: bool)
    requires ms != []
    requires var front := ms[..|ms| - 1];
      NoGain(c, Run(c, s, front), ms[|ms| - 1], second) && Held(c, s, front, second) <= Received(c, s, front, second)
    ensures Held(c, s, ms, second) <= Received(c, s, ms, second)
    ensures Held(c, s, ms, second) == Received(c, s, ms, second) <==>
      Held(c, s, ms[..|ms| - 1], second) == Received(c, s, ms[..|ms| - 1], second) &&
      Conserves(c, Run(c, s, ms[..|ms| - 1]), ms[|ms| - 1], second)
  {
  }

  /**
   * Before every swap, what each side has received with the swap's own input exceeds what it has delivered by no more
   * than 128 bits hold. Tokens may go in and out any number of times.
   */
  ghost predicate WithinBounds(c: Curve, s: State, ms: seq<Message>) {
    ms == [] ||
    (var front, m := ms[..|ms| - 1], ms[|ms| - 1];
     WithinBounds(c, s, front) &&
     (m.Swap? ==> NetFits(c, s, front, m, false) && NetFits(c, s, front, m, true)))
  }

  ghost predicate NetFits(c: Curve, s: State, ms: seq<Message>, m: Message, second: bool) {
    Received(c, s, ms, second) + Attached(s.pool, m, second) <= U128_MAX + TotalDelivered(c, s, ms, second)
  }

  lemma {:induction false} BoundedSwapsFit(c: Curve, s: State, ms: seq<Message>)
    requires s.pool.Valid() && Healthy(s) && Sound(c) && WithinBounds(c, s, ms)
    ensures SwapsFit(c, s, ms)
  {
    if ms != [] {
      var front, m := ms[..|ms| - 1], ms[|ms| - 1];
      BoundedSwapsFit(c, s, front);
      CustodyExact(c, s, front);
      if m.Swap? {
        NetIsCustody(c, s, front, m, false);
        NetIsCustody(c, s, front, m, true);
        FitsIsEnoughForSwap(c, Run(c, s, front), m);
      }
    }
  }

  lemma NetIsCustody(c: Curve, s: State, ms: seq<Message>, m: Message, second: bool)
    requires SamePair(s, Run(c, s, ms)) && m.Swap?
    requires Held(c, s, ms, second) == Received(c, s, ms, second) && NetFits(c, s, ms, m, second)
    ensures Custody(Run(c, s, ms), second) + Attached(Run(c, s, ms).pool, m, second) <= U128_MAX
  {
  }

  /** Within those bounds nothing is ever lost: custody changes only by deposits taken in and claims delivered. */
  lemma CustodyIsDepositsMinusDeliveries(c: Curve, s: State, ms: seq<Message>, second: bool)
    requires s.pool.Valid() && Healthy(s) && Sound(c) && WithinBounds(c, s, ms)
    ensures Custody(Run(c, s, ms), second) + TotalDelivered(c, s, ms, second) == Custody(s, second) + TotalTaken(c, s, ms, second)
  {
    BoundedSwapsFit(c, s, ms);
    CustodyExact(c, s, ms);
  }

  // ---- Value attached to rejected messages ----

  /** What rejected messages brought: it is on the pool's account and in none of its books. */
  function TotalStranded(c: Curve, s: State, ms: seq<Message>, second: bool): nat {
    if ms == [] then 0 else
    var front, m := ms[..|ms| - 1], ms[|ms| - 1];
    TotalStranded(c, s, front, second) + if Handle(c, Run(c, s, front), m).None? then Attached(s.pool, m, second) else 0
  }

  lemma {:induction false} TakenOrStranded(c: Curve, s: State, ms: seq<Message>, second: bool)
    requires s.pool.Valid() && Healthy(s) && Sound(c)
    ensures TotalTaken(c, s, ms, second) + TotalStranded(c, s, ms, second) == TotalAttached(s.pool, ms, second)
  {
    if ms != [] {
      var front := ms[..|ms| - 1];
      TakenOrStranded(c, s, front, second);
      CustodyExact(c, s, front);
      assert Side(Run(c, s, front).pool, second) == Side(s.pool, second);
    }
  }

  /**
   * Measured against everything that was attached, custody and deliveries fall short by what rejected messages
   * stranded, and by nothing else exactly when every swap's credits fitted.
   */
  lemma AttachedExact(c: Curve, s: State, ms: seq<Message>)
    requires s.pool.Valid() && Healthy(s) && Sound(c)
    ensures forall second ::
      Held(c, s, ms, second) + TotalStranded(c, s, ms, second) <= Custody(s, second) + TotalAttached(s.pool, ms, second)
    ensures (forall second ::
        Held(c, s, ms, second) + TotalStranded(c, s, ms, second) == Custody(s, second) + TotalAttached(s.pool, ms, second))
       <==> SwapsFit(c, s, ms)
  {
    CustodyExact(c, s, ms);
    TakenOrStranded(c, s, ms, false);
    TakenOrStranded(c, s, ms, true);
  }
}
