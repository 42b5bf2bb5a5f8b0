/** Whether the application's native balance covers what the pool owes in native tokens, when some liquidity is virtual. */
module PoolCoverage {
  import opened Common
  import opened MapSums
  import opened Arithmetic
  import opened PoolLedger
  import opened PoolMessages
  import opened PoolCurve
  import opened PoolConservation

  /** What the application's account holds on one side after a run, rejected messages' value included. */
  function AccountBalance(c: Curve, s: State, ms: seq<Message>, balance: nat, second: bool): int {
    balance + TotalAttached(s.pool, ms, second) - TotalDelivered(c, s, ms, second)
  }

  /**
   * A pool opened with some native liquidity that is only virtual: after any run without leaks, the application's
   * native balance covers every outstanding native claim exactly when the reserve, with what rejected messages left on
   * the account, still holds the virtual part.
   */
  lemma NativeClaimsCovered(c: Curve, s: State, ms: seq<Message>, balance: nat, virtually: nat)
    requires s.pool.Valid() && Healthy(s) && Sound(c) && SwapsFit(c, s, ms) && s.pool.token1 == None
    requires balance + virtually == Custody(s, true)
    ensures var s1 := Run(c, s, ms);
      Claims(s1, Native) <= AccountBalance(c, s, ms, balance, true) <==>
        virtually <= s1.pool.reserve1 + TotalStranded(c, s, ms, true)
  {
    CustodyExact(c, s, ms);
    TakenOrStranded(c, s, ms, true);
    assert Side(Run(c, s, ms).pool, true) == Native;
  }

  // ---- Swaps that leave the virtual part in reserve never leak ----

  lemma CustodyIsBacked(c: Curve, s: State, ms: seq<Message>, balance: nat, virtually: nat, second: bool)
    requires s.pool.Valid() && Healthy(s) && Sound(c) && SwapsFit(c, s, ms)
    requires Custody(s, second) <= balance + virtually
    ensures Custody(Run(c, s, ms), second) <= AccountBalance(c, s, ms, balance, second) + virtually
  {
    CustodyExact(c, s, ms);
    TakenOrStranded(c, s, ms, second);
  }

  /** The swap, filled or refunded, leaves at least the virtual part in the second reserve. */
  predicate LeavesVirtual(c: Curve, s: State, m: Message, virtually: nat)
    requires m.Swap?
  {
    Initialized(s) ==>
      match SwapPlan(c, s, m)
      case Fill(_, _, _, balance1) => virtually <= balance1
      case Refund => virtually <= s.pool.reserve1
      case Crash => true
  }

  lemma PlanAboveVirtualFits(s: State, m: Message, plan: Plan, held0: nat, held1: nat, virtually: nat)
    requires s.pool.Valid() && m.Swap? && (plan.Fill? ==> Exchanges(s, m, plan) && virtually <= plan.balance1)
    requires plan.Refund? ==> virtually <= s.pool.reserve1
    requires Custody(s, false) <= held0 && Custody(s, true) <= held1 + virtually
    requires held0 + m.maybeIn0.GetOr(0) <= U128_MAX && held1 + m.maybeIn1.GetOr(0) <= U128_MAX
    ensures PlanFits(s, m, plan)
  {
    var owner := if plan.Fill? then m.to.GetOr(m.origin) else m.origin;
    CustodyBoundsBalance(s, owner, false);
    CustodyBoundsBalance(s, owner, true);
  }

  /**
   * A swap that leaves at least the virtual liquidity in the second reserve always fits, as long as the account's real
   * balances, with the swap's input, are amounts: what the caller can see before the swap is enough.
   */
  lemma SwapAboveVirtualFits(c: Curve, s: State, ms: seq<Message>, m: Message, balance0: nat, balance1: nat, virtually: nat)
    requires s.pool.Valid() && Healthy(s) && Sound(c) && SwapsFit(c, s, ms) && m.Swap?
    requires Custody(s, false) <= balance0 && Custody(s, true) <= balance1 + virtually
    requires AccountBalance(c, s, ms, balance0, false) + m.maybeIn0.GetOr(0) <= U128_MAX
    requires AccountBalance(c, s, ms, balance1, true) + m.maybeIn1.GetOr(0) <= U128_MAX
    requires 0 <= AccountBalance(c, s, ms, balance1, true)
    requires LeavesVirtual(c, Run(c, s, ms), m, virtually)
    ensures SwapFits(c, Run(c, s, ms), m)
  {
    var s1 := Run(c, s, ms);
    CustodyExact(c, s, ms);
    CustodyIsBacked(c, s, ms, balance0, 0, false);
    CustodyIsBacked(c, s, ms, balance1, virtually, true);
    if Initialized(s1) {
      PlanAboveVirtualFits(s1, m, SwapPlan(c, s1, m), AccountBalance(c, s, ms, balance0, false),
                           AccountBalance(c, s, ms, balance1, true), virtually);
    }
  }

  /** The account's balances are amounts throughout the run, and every swap leaves the virtual part in reserve. */
  predicate StaysAbove(c: Curve, s: State, ms: seq<Message>, balance0: nat, balance1: nat, virtually: nat) {
    ms == [] ||
    (var front, m := ms[..|ms| - 1], ms[|ms| - 1];
     StaysAbove(c, s, front, balance0, balance1, virtually) &&
     AccountBalance(c, s, front, balance0, false) + Attached(s.pool, m, false) <= U128_MAX &&
     0 <= AccountBalance(c, s, front, balance1, true) &&
     AccountBalance(c, s, front, balance1, true) + Attached(s.pool, m, true) <= U128_MAX &&
     (m.Swap? ==> LeavesVirtual(c, Run(c, s, front), m, virtually)))
  }

  /** A run in which every swap leaves the virtual part in reserve loses nothing; with no virtual part, no run does. */
  lemma {:induction false} NothingLostAboveVirtual(c: Curve, s: State, ms: seq<Message>, balance0: nat, balance1: nat, virtually: nat)
    requires s.pool.Valid() && Healthy(s) && Sound(c)
    requires Custody(s, false) <= balance0 && Custody(s, true) <= balance1 + virtually
    requires StaysAbove(c, s, ms, balance0, balance1, virtually)
    ensures SwapsFit(c, s, ms)
    ensures Held(c, s, ms, false) == Received(c, s, ms, false) && Held(c, s, ms, true) == Received(c, s, ms, true)
  {
    if ms != [] {
      var front, m := ms[..|ms| - 1], ms[|ms| - 1];
      NothingLostAboveVirtual(c, s, front, balance0, balance1, virtually);
      if m.Swap? {
        SwapAboveVirtualFits(c, s, front, m, balance0, balance1, virtually);
      }
    }
    CustodyExact(c, s, ms);
  }

  // ---- A run that outgrows the balance ----

  /** A pool opened with a hundred units of each token, the native ones virtual. */
  function VirtualPool(a: Account): State {
    Holding(a, 100, 100, map[])
  }

  function Holding(a: Account, r0: Amount, r1: Amount, claimable: Balances): State {
    State(Pool(0, None, r0, r1, a, a, 100, 0), 100, map[a := 100], claimable, map[])
  }

  /** The message that opens it. */
  function Opening(a: Account): Message {
    InitializePool(a, 100, 100, None, 0)
  }

  /** Buying with 50 native units, and two sales against that balance of 50. */
  function FirstBuy(a: Account): Message {
    Swap(a, None, Some(50), None, None, None, 50, 0)
  }

  function Sale(a: Account, amount: Amount): Message {
    Swap(a, Some(amount), None, None, None, None, 50, 0)
  }

  function AfterBuy(a: Account): State {
    Holding(a, 67, 150, map[Fungible(0) := map[a := 33]])
  }

  function AfterSale(a: Account): State {
    Holding(a, 101, 100, map[Fungible(0) := map[a := 33], Native := map[a := 50]])
  }

  function AfterBoth(a: Account): State {
    Holding(a, 151, 67, map[Fungible(0) := map[a := 33], Native := map[a := 83]])
  }

  lemma RootUnique(n: nat, r: nat)
    requires r * r <= n < (r + 1) * (r + 1)
    ensures Root(n) == r
  {
    var q := Root(n);
    if q < r { MulMonotone(q + 1, r, q + 1, r); }
    if r < q { MulMonotone(r + 1, q, r + 1, q); }
  }

  /** The virtual pool is what the contract opens from an empty one. */
  lemma VirtualPoolIsOpened(a: Account, c: Curve)
    requires c.mintFee(EmptyPool(a).pool, 0) == Some(0) && c.shares(EmptyPool(a).pool, 0, 100, 100) == Some(100) && c.root(100, 100) == 100
    ensures Step(c, EmptyPool(a), Opening(a)) == VirtualPool(a)
  {
    assert map[a := 0][a := 100] == map[a := 100];
  }

  /** One-sided swaps at given outputs. */
  lemma BuyStep(c: Curve, s: State, m: Message, x: Amount, out: Amount)
    requires m.Swap? && m.maybeIn0 == None && m.maybeIn1 == Some(x) && m.min0 == None && m.min1 == None && m.to == None
    requires Initialized(s) && x > 0 && 0 < out < s.pool.reserve0 && s.pool.reserve1 + x <= U128_MAX
    requires c.swapOut0(s.pool, x) == Value(out) && c.keepsProduct(s.pool, 0, x, out, 0) == Value(())
    ensures SwapPlan(c, s, m) == Fill(out, 0, s.pool.reserve0 - out, s.pool.reserve1 + x)
  {
  }

  lemma SaleStep(c: Curve, s: State, m: Message, x: Amount, out: Amount)
    requires m.Swap? && m.maybeIn1 == None && m.maybeIn0 == Some(x) && m.min0 == None && m.min1 == None && m.to == None
    requires Initialized(s) && x > 0 && 0 < out < s.pool.reserve1 && s.pool.reserve0 + x <= U128_MAX
    requires s.pool.token1 == None ==> out <= m.nativeBalance
    requires c.swapOut1(s.pool, x) == Value(out) && c.keepsProduct(s.pool, x, 0, 0, out) == Value(())
    ensures SwapPlan(c, s, m) == Fill(0, out, s.pool.reserve0 + x, s.pool.reserve1 - out)
  {
  }

  lemma BuyIsFilled(c: Curve, a: Account)
    requires c.swapOut0(VirtualPool(a).pool, 50) == Value(33) && c.keepsProduct(VirtualPool(a).pool, 0, 50, 33, 0) == Value(())
    ensures Handle(c, VirtualPool(a), FirstBuy(a)) == Some(AfterBuy(a)) && SwapFits(c, VirtualPool(a), FirstBuy(a))
  {
    BuyStep(c, VirtualPool(a), FirstBuy(a), 50, 33);
    assert map[][Fungible(0) := map[][a := 33]] == map[Fungible(0) := map[a := 33]];
  }

  lemma SaleIsFilled(c: Curve, a: Account)
    requires c.swapOut1(AfterBuy(a).pool, 34) == Value(50) && c.keepsProduct(AfterBuy(a).pool, 34, 0, 0, 50) == Value(())
    ensures Handle(c, AfterBuy(a), Sale(a, 34)) == Some(AfterSale(a)) && SwapFits(c, AfterBuy(a), Sale(a, 34))
  {
    SaleStep(c, AfterBuy(a), Sale(a, 34), 34, 50);
    assert AfterBuy(a).claimable[Native := map[][a := 50]] == AfterSale(a).claimable;
  }

  lemma SecondSaleIsFilled(c: Curve, a: Account)
    requires c.swapOut1(AfterSale(a).pool, 50) == Value(33) && c.keepsProduct(AfterSale(a).pool, 50, 0, 0, 33) == Value(())
    ensures Handle(c, AfterSale(a), Sale(a, 50)) == Some(AfterBoth(a)) && SwapFits(c, AfterSale(a), Sale(a, 50))
  {
    SaleStep(c, AfterSale(a), Sale(a, 50), 50, 33);
    assert map[a := 50][a := 83] == map[a := 83];
    assert AfterSale(a).claimable[Native := map[a := 83]] == AfterBoth(a).claimable;
  }

  lemma Prices(c: Curve, a: Account, optimal0: (Pool, Amount) -> Option<Amount>, optimal1: (Pool, Amount) -> Option<Amount>)
    requires c == ContractCurve(30, optimal0, optimal1)
    ensures c.swapOut0(VirtualPool(a).pool, 50) == Value(33) && c.keepsProduct(VirtualPool(a).pool, 0, 50, 33, 0) == Value(())
    ensures c.swapOut1(AfterBuy(a).pool, 34) == Value(50) && c.keepsProduct(AfterBuy(a).pool, 34, 0, 0, 50) == Value(())
    ensures c.swapOut1(AfterSale(a).pool, 50) == Value(33) && c.keepsProduct(AfterSale(a).pool, 50, 0, 0, 33) == Value(())
  {
    assert 498500 * 100 / 1498500 == 33;
    assert 338980 * 150 / 1008980 == 50;
    assert 498500 * 100 / 1508500 == 33;
  }

  lemma OpeningPrices(c: Curve, a: Account, optimal0: (Pool, Amount) -> Option<Amount>, optimal1: (Pool, Amount) -> Option<Amount>)
    requires c == ContractCurve(30, optimal0, optimal1)
    ensures c.mintFee(EmptyPool(a).pool, 0) == Some(0) && c.shares(EmptyPool(a).pool, 0, 100, 100) == Some(100) && c.root(100, 100) == 100
  {
    RootUnique(10000, 100);
  }

  function OutgrowingRun(a: Account): seq<Message> {
    [FirstBuy(a)] + [Sale(a, 34)] + [Sale(a, 50)]
  }

  lemma SwapsFitAppend(c: Curve, s: State, ms: seq<Message>, m: Message)
    requires SwapsFit(c, s, ms) && (m.Swap? ==> SwapFits(c, Run(c, s, ms), m))
    ensures SwapsFit(c, s, ms + [m])
  {
    assert (ms + [m])[..|ms|] == ms;
  }

  lemma OutgrowingStates(c: Curve, a: Account, optimal0: (Pool, Amount) -> Option<Amount>, optimal1: (Pool, Amount) -> Option<Amount>)
    requires c == ContractCurve(30, optimal0, optimal1)
    ensures Run(c, VirtualPool(a), OutgrowingRun(a)) == AfterBoth(a) && SwapsFit(c, VirtualPool(a), OutgrowingRun(a))
  {
    var s, m0, m1, m2 := VirtualPool(a), FirstBuy(a), Sale(a, 34), Sale(a, 50);
    Prices(c, a, optimal0, optimal1);
    BuyIsFilled(c, a);
    SaleIsFilled(c, a);
    SecondSaleIsFilled(c, a);
    RunAppend(c, s, [], m0);
    assert [] + [m0] == [m0];
    RunAppend(c, s, [m0], m1);
    RunAppend(c, s, [m0] + [m1], m2);
    SwapsFitAppend(c, s, [], m0);
    SwapsFitAppend(c, s, [m0], m1);
    SwapsFitAppend(c, s, [m0] + [m1], m2);
  }

  lemma {:induction false} SwapsDeliverNothing(c: Curve, s: State, ms: seq<Message>, second: bool)
    requires forall m :: m in ms ==> m.Swap?
    ensures TotalDelivered(c, s, ms, second) == 0
  {
    if ms != [] {
      SwapsDeliverNothing(c, s, ms[..|ms| - 1], second);
    }
  }

  lemma AttachedAppend(pool: Pool, ms: seq<Message>, m: Message, second: bool)
    ensures TotalAttached(pool, ms + [m], second) == TotalAttached(pool, ms, second) + Attached(pool, m, second)
  {
    assert (ms + [m])[..|ms|] == ms;
  }

  lemma OutgrowingBalance(c: Curve, a: Account)
    ensures AccountBalance(c, VirtualPool(a), OutgrowingRun(a), 0, true) == 50
  {
    var pool := VirtualPool(a).pool;
    SwapsDeliverNothing(c, VirtualPool(a), OutgrowingRun(a), true);
    AttachedAppend(pool, [], FirstBuy(a), true);
    assert [] + [FirstBuy(a)] == [FirstBuy(a)];
    AttachedAppend(pool, [FirstBuy(a)], Sale(a, 34), true);
    AttachedAppend(pool, [FirstBuy(a)] + [Sale(a, 34)], Sale(a, 50), true);
  }

  lemma OwesEightyThree(a: Account)
    ensures Claims(AfterBoth(a), Native) == 83 && Claims(VirtualPool(a), Native) == 0 && Custody(VirtualPool(a), true) == 100
  {
    SumSingleton(a, 83);
    assert Sum<Account>(map[]) == 0;
  }

  /** What the outgrowing run leaves: claims of 83 against an account balance of 50. */
  ghost predicate Outgrown(c: Curve, s: State, ms: seq<Message>) {
    && SwapsFit(c, s, ms) && (forall m :: m in ms ==> Sent(s.pool, m)) && Custody(s, true) == 100 && Claims(s, Native) == 0
    && Claims(Run(c, s, ms), Native) == 83 && AccountBalance(c, s, ms, 0, true) == 50
  }

  lemma VirtualPoolOutgrown(c: Curve, a: Account, optimal0: (Pool, Amount) -> Option<Amount>, optimal1: (Pool, Amount) -> Option<Amount>)
    requires c == ContractCurve(30, optimal0, optimal1)
    ensures Outgrown(c, VirtualPool(a), OutgrowingRun(a))
  {
    OutgrowingStates(c, a, optimal0, optimal1);
    OwesEightyThree(a);
    OutgrowingBalance(c, a);
  }

  /**
   * The guard on the native balance does not keep it sufficient: with the contract's own curve, a pool it opens with
   * virtual liquidity fills two sales, each within the balance of 50, and then owes 83.
   */
  lemma CoverageCanBeLost(a: Account, optimal0: (Pool, Amount) -> Option<Amount>, optimal1: (Pool, Amount) -> Option<Amount>)
    ensures var c := ContractCurve(30, optimal0, optimal1);
      Sound(c) && Outgrown(c, Step(c, EmptyPool(a), Opening(a)), OutgrowingRun(a))
  {
    var c := ContractCurve(30, optimal0, optimal1);
    ContractCurveSound(30, optimal0, optimal1);
    OpeningPrices(c, a, optimal0, optimal1);
    VirtualPoolIsOpened(a, c);
    VirtualPoolOutgrown(c, a, optimal0, optimal1);
  }

  // ---- A run that loses value ----

  /** A native swap that the unopened pool credits, a virtual opening, and a sale by the same account. */
  function LosingRun(a: Account): seq<Message> {
    [Deposit(a)] + [Opening(a)] + [BigSale(a)]
  }

  function Deposit(a: Account): Message {
    Swap(a, None, Some(U128_MAX), None, None, None, 0, 0)
  }

  function BigSale(a: Account): Message {
    Swap(a, Some(100), None, None, None, None, U128_MAX, 0)
  }

  function Full(a: Account): Balances {
    map[Native := map[a := U128_MAX]]
  }

  lemma DepositStep(c: Curve, a: Account)
    ensures Step(c, EmptyPool(a), Deposit(a)) == EmptyPool(a).(claimable := Full(a))
  {
    assert map[][Native := map[][a := U128_MAX]] == Full(a);
  }

  lemma OpeningStep(c: Curve, a: Account)
    requires c.mintFee(EmptyPool(a).pool, 0) == Some(0) && c.shares(EmptyPool(a).pool, 0, 100, 100) == Some(100) && c.root(100, 100) == 100
    ensures Step(c, EmptyPool(a).(claimable := Full(a)), Opening(a)) == Holding(a, 100, 100, Full(a))
  {
    assert map[a := 0][a := 100] == map[a := 100];
  }

  /** The sale is filled at 49 and the reserves move, but the output does not fit in the seller's claimable balance. */
  lemma BigSaleStep(c: Curve, a: Account)
    requires c.swapOut1(VirtualPool(a).pool, 100) == Value(49) && c.keepsProduct(VirtualPool(a).pool, 100, 0, 0, 49) == Value(())
    ensures var s := Holding(a, 100, 100, Full(a));
      Handle(c, s, BigSale(a)) == Some(Holding(a, 200, 51, Full(a))) && !Conserves(c, s, BigSale(a), true)
  {
    var s := Holding(a, 100, 100, Full(a));
    SaleStep(c, s, BigSale(a), 100, 49);
    assert !CreditsFit(s, a, 0, 49);
  }

  lemma BigSalePrice(c: Curve, a: Account, optimal0: (Pool, Amount) -> Option<Amount>, optimal1: (Pool, Amount) -> Option<Amount>)
    requires c == ContractCurve(30, optimal0, optimal1)
    ensures c.swapOut1(VirtualPool(a).pool, 100) == Value(49) && c.keepsProduct(VirtualPool(a).pool, 100, 0, 0, 49) == Value(())
  {
    assert 997000 * 100 / 1997000 == 49;
  }

  lemma LosingStates(c: Curve, a: Account, optimal0: (Pool, Amount) -> Option<Amount>, optimal1: (Pool, Amount) -> Option<Amount>)
    requires c == ContractCurve(30, optimal0, optimal1)
    ensures Run(c, EmptyPool(a), [Deposit(a)] + [Opening(a)]) == Holding(a, 100, 100, Full(a))
  {
    OpeningPrices(c, a, optimal0, optimal1);
    DepositStep(c, a);
    OpeningStep(c, a);
    RunAppend(c, EmptyPool(a), [], Deposit(a));
    assert [] + [Deposit(a)] == [Deposit(a)];
    RunAppend(c, EmptyPool(a), [Deposit(a)], Opening(a));
  }

  /**
   * The committed error path is real: three messages the contract does send, on a pool it creates and with its own
   * curve, after which a filled sale's output of 49 is in neither the reserve nor any balance.
   */
  lemma SwapCanLoseOutput(a: Account, optimal0: (Pool, Amount) -> Option<Amount>, optimal1: (Pool, Amount) -> Option<Amount>)
    ensures var c, s, ms := ContractCurve(30, optimal0, optimal1), EmptyPool(a), LosingRun(a);
      Sound(c) && (forall m :: m in ms ==> Sent(s.pool, m)) && !SwapsFit(c, s, ms) &&
      Run(c, s, ms).pool.reserve1 == 51 && Held(c, s, ms, true) < Received(c, s, ms, true)
  {
    var c, s := ContractCurve(30, optimal0, optimal1), EmptyPool(a);
    var front, ms := [Deposit(a)] + [Opening(a)], LosingRun(a);
    ContractCurveSound(30, optimal0, optimal1);
    LosingStates(c, a, optimal0, optimal1);
    BigSalePrice(c, a, optimal0, optimal1);
    BigSaleStep(c, a);
    RunAppend(c, s, front, BigSale(a));
    assert ms[..|ms| - 1] == front && ms[|ms| - 1] == BigSale(a);
    CustodyExact(c, s, front);
    StepConserves(c, Run(c, s, front), BigSale(a));
    LastStep(c, s, ms, true);
    CustodyExact(c, s, ms);
  }
}
