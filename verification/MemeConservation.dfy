/** The meme ledger neither creates nor destroys tokens, so none of its additions can overflow; mining pays the schedule. */
module MemeConservation {
  import opened Common
  import opened MapSums
  import opened MemeLedger
  import Mining

  /** All tokens: spendable balances and escrowed allowances. */
  ghost function Total(s: State): nat {
    Sum(s.balances) + NestedSum(s.allowances)
  }

  ghost predicate Backed(s: State) {
    Total(s) == s.totalSupply
  }

  lemma BalanceWithinTotal(s: State, a: Account, owner: Account, spender: Account)
    ensures BalanceOf(s, a) + AllowanceOf(s, owner, spender) <= Total(s)
  {
    SumAtLeast(s.balances, a);
    SumAtLeast(Inner(s.allowances, owner), spender);
    NestedPut(s.allowances, owner, map[]);
  }

  // ---- Each operation ----

  /**
   * The unguarded move: it keeps the total exactly when the two accounts differ or nothing is moved. A move of an
   * account to itself would add the amount to the supply.
   */
  lemma MoveTokensTotal(s: State, from: Account, to: Account, amount: Amount)
    ensures var r := MoveTokens(s, from, to, amount);
      r.Ok? ==> Total(r.state) == Total(s) + if from == to then amount else 0
  {
    var r := MoveTokens(s, from, to, amount);
    if r.Ok? {
      var debited := s.balances[from := s.balances[from] - amount];
      SumPut(s.balances, from, s.balances[from] - amount);
      SumPut(debited, to, BalanceOf(s, to) + amount);
    }
  }

  /** With the supply backed, a guarded transfer succeeds exactly when its guards pass: no addition overflows. */
  lemma TransferExact(s: State, from: Account, to: Account, amount: Amount)
    requires Backed(s)
    ensures var r := Transfer(s, from, to, amount);
      (r.Ok? <==> 0 < amount <= BalanceOf(s, from) && from != to) && (r.Ok? ==> Backed(r.state)) && !r.Err?
    ensures var r := TransferEnsure(s, from, to, amount);
      (r.Ok? <==> 0 < amount <= BalanceOf(s, from) && from != to) && (r.Ok? ==> Backed(r.state)) && (r.Err? ==> r.state == s) && !r.Panic?
  {
    if 0 < amount <= BalanceOf(s, from) && from != to {
      SumAtLeastTwo(s.balances, from, to);
      MoveTokensTotal(s, from, to, amount);
    }
  }

  /** With the supply backed, an approval succeeds exactly when the spender is allowed and the balance covers it. */
  lemma ApproveExact(s: State, owner: Account, spender: Account, amount: Amount)
    requires Backed(s) && s.holder.Some? && s.owner.Some?
    ensures var r := Approve(s, owner, spender, amount);
      (r.Ok? <==> owner != spender && !(owner == s.holder.value && spender == s.owner.value) && amount <= BalanceOf(s, owner)) &&
      (r.Ok? ==> Backed(r.state) && AllowanceOf(r.state, owner, spender) == AllowanceOf(s, owner, spender) + amount &&
                 BalanceOf(r.state, owner) == BalanceOf(s, owner) - amount)
  {
    BalanceWithinTotal(s, owner, owner, spender);
    ApproveTotal(s, owner, spender, amount);
  }

  /** Writing one balance and one allowance changes the total by what the two entries change by. */
  lemma TwoEntries(balances: map<Account, Amount>, allowances: map<Account, map<Account, Amount>>,
                   a: Account, balance: Amount, owner: Account, spender: Account, allowance: Amount)
    ensures Sum(balances[a := balance]) + NestedSum(allowances[owner := Inner(allowances, owner)[spender := allowance]])
            + Get(balances, a) + Get(Inner(allowances, owner), spender)
         == Sum(balances) + NestedSum(allowances) + balance + allowance
  {
    SumPut(balances, a, balance);
    SumPut(Inner(allowances, owner), spender, allowance);
    NestedPut(allowances, owner, Inner(allowances, owner)[spender := allowance]);
  }

  lemma ApproveTotal(s: State, owner: Account, spender: Account, amount: Amount)
    ensures var r := Approve(s, owner, spender, amount); r.Ok? ==> Total(r.state) == Total(s)
  {
    if Approve(s, owner, spender, amount).Ok? {
      TwoEntries(s.balances, s.allowances, owner, BalanceOf(s, owner) - amount, owner, spender, AllowanceOf(s, owner, spender) + amount);
    }
  }

  lemma TransferFromTotal(s: State, spender: Account, from: Account, to: Account, amount: Amount)
    ensures var r := TransferFrom(s, spender, from, to, amount); r.Ok? ==> Total(r.state) == Total(s)
  {
    if TransferFrom(s, spender, from, to, amount).Ok? {
      TwoEntries(s.balances, s.allowances, to, BalanceOf(s, to) + amount, from, spender, AllowanceOf(s, from, spender) - amount);
    }
  }

  /** With the supply backed, spending an allowance succeeds exactly when a recorded allowance covers it. */
  lemma TransferFromExact(s: State, spender: Account, from: Account, to: Account, amount: Amount)
    requires Backed(s)
    ensures var r := TransferFrom(s, spender, from, to, amount);
      (r.Ok? <==> from in s.allowances && spender in s.allowances[from] && amount <= s.allowances[from][spender]) &&
      (r.Ok? ==> Backed(r.state) && AllowanceOf(r.state, from, spender) == AllowanceOf(s, from, spender) - amount)
  {
    BalanceWithinTotal(s, to, from, spender);
    TransferFromTotal(s, spender, from, to, amount);
  }

  /**
   * A block is paid exactly when mining is on, the reward is not yet zero, the miner is not the holder and the holder
   * can afford the reward of before any halving this block triggers.
   */
  lemma MiningRewardExact(s: State, miner: Account, now: Timestamp)
    requires Backed(s) && s.holder.Some? && s.miningInfo.Some?
    ensures var reward := s.miningInfo.value.rewardAmount;
      var r := MiningReward(s, miner, now);
      (r.Ok? <==> 0 < reward <= BalanceOf(s, s.holder.value) && miner != s.holder.value) &&
      (r.Ok? ==> Backed(r.state) && BalanceOf(r.state, s.holder.value) == BalanceOf(s, s.holder.value) - reward &&
                 BalanceOf(r.state, miner) == BalanceOf(s, miner) + reward &&
                 r.state.holder == s.holder && r.state.miningInfo == Some(Mining.Mine(s.miningInfo.value, now)))
  {
    TransferExact(s, s.holder.value, miner, s.miningInfo.value.rewardAmount);
  }

  // ---- Runs ----

  lemma StepKeepsBacking(s: State, m: Message)
    requires Backed(s) && s.holder.Some? && s.owner.Some?
    ensures var s1 := Step(s, m);
      Backed(s1) && s1.totalSupply == s.totalSupply && s1.holder == s.holder && s1.owner.Some?
  {
    match m
    case TransferTokens(from, to, amount) => TransferExact(s, from, to, amount);
    case TryTransfer(from, to, amount) => TransferExact(s, from, to, amount);
    case ApproveSpender(owner, spender, amount) => ApproveExact(s, owner, spender, amount);
    case SpendAllowance(spender, from, to, amount) => TransferFromExact(s, spender, from, to, amount);
    case MintTokens(to, amount) => TransferExact(s, s.holder.value, to, amount);
    case MineBlock(miner, now) =>
      if s.miningInfo.Some? { MiningRewardExact(s, miner, now); }
    case GiveOwnership(_, _) =>
  }

  /** In every reachable state, balances and all nested allowances together are the initial supply. */
  lemma {:induction false} SupplyIsConserved(s: State, ms: seq<Message>)
    requires Backed(s) && s.holder.Some? && s.owner.Some?
    ensures var s1 := Run(s, ms);
      Backed(s1) && s1.totalSupply == s.totalSupply && s1.holder == s.holder && s1.owner.Some?
  {
    if ms != [] {
      SupplyIsConserved(s, ms[..|ms| - 1]);
      StepKeepsBacking(Run(s, ms[..|ms| - 1]), ms[|ms| - 1]);
    }
  }

  // ---- Mining ----

  /** The clock readings of the blocks that were paid, among all messages of a run. */
  function PaidClock(s: State, ms: seq<Message>): seq<Timestamp> {
    if ms == [] then [] else
    var front, last := ms[..|ms| - 1], ms[|ms| - 1];
    PaidClock(s, front) + if last.MineBlock? && Execute(Run(s, front), last).Ok? then [last.now] else []
  }

  /** The rewards the schedule announces along a clock, each read before the block it pays for. */
  function Rewards(info: Mining.Info, clock: seq<Timestamp>): nat {
    if clock == [] then 0 else
    var front := clock[..|clock| - 1];
    Rewards(info, front) + Mining.Run(info, front).rewardAmount
  }

  /** How far mining messages, paid or not, have lowered one account's balance. */
  function MiningOutflow(s: State, ms: seq<Message>, holder: Account): int {
    if ms == [] then 0 else
    var front, last := ms[..|ms| - 1], ms[|ms| - 1];
    MiningOutflow(s, front, holder) +
    if last.MineBlock? then BalanceOf(Run(s, front), holder) - BalanceOf(Run(s, ms), holder) else 0
  }

  lemma OthersKeepSchedule(s: State, m: Message)
    requires !m.MineBlock?
    ensures Step(s, m).miningInfo == s.miningInfo
  {
  }

  lemma MineStep(s: State, m: Message)
    requires Backed(s) && s.holder.Some? && s.miningInfo.Some? && m.MineBlock?
    ensures var s1, info := Step(s, m), s.miningInfo.value;
      if Execute(s, m).Ok? then
        s1.miningInfo == Some(Mining.Mine(info, m.now)) &&
        BalanceOf(s1, s.holder.value) + info.rewardAmount == BalanceOf(s, s.holder.value)
      else s1 == s
  {
    MiningRewardExact(s, m.miner, m.now);
  }

  lemma PaidAppend(info: Mining.Info, paid: seq<Timestamp>, now: Timestamp)
    ensures Mining.Run(info, paid + [now]) == Mining.Mine(Mining.Run(info, paid), now)
    ensures Rewards(info, paid + [now]) == Rewards(info, paid) + Mining.Run(info, paid).rewardAmount
  {
    assert (paid + [now])[..|paid|] == paid;
  }

  lemma MineAppend(s: State, ms: seq<Message>, last: Message, holder: Account)
    requires last.MineBlock?
    ensures Run(s, ms + [last]) == Step(Run(s, ms), last)
    ensures PaidClock(s, ms + [last]) == PaidClock(s, ms) + if Execute(Run(s, ms), last).Ok? then [last.now] else []
    ensures MiningOutflow(s, ms + [last], holder)
         == MiningOutflow(s, ms, holder) + BalanceOf(Run(s, ms), holder) - BalanceOf(Step(Run(s, ms), last), holder)
  {
    assert (ms + [last])[..|ms|] == ms;
  }

  lemma MineAdvances(info: Mining.Info, paid: seq<Timestamp>, mid: State, m: Message)
    requires Backed(mid) && mid.holder.Some? && mid.miningInfo == Some(Mining.Run(info, paid)) && m.MineBlock?
    ensures var clock := paid + if Execute(mid, m).Ok? then [m.now] else [];
      BalanceOf(Step(mid, m), mid.holder.value) + Rewards(info, clock) == BalanceOf(mid, mid.holder.value) + Rewards(info, paid) &&
      Step(mid, m).miningInfo == Some(Mining.Run(info, clock))
  {
    MineStep(mid, m);
    PaidAppend(info, paid, m.now);
    assert paid + [] == paid;
  }

  lemma MinedLast(s: State, ms: seq<Message>, last: Message)
    requires Backed(Run(s, ms)) && s.holder.Some? && Run(s, ms).holder == s.holder
    requires s.miningInfo.Some? && Scheduled(s, ms) && last.MineBlock?
    ensures Scheduled(s, ms + [last])
  {
    MineAppend(s, ms, last, s.holder.value);
    MineAdvances(s.miningInfo.value, PaidClock(s, ms), Run(s, ms), last);
  }

  lemma OtherLast(s: State, ms: seq<Message>, last: Message)
    requires s.holder.Some? && s.miningInfo.Some? && Scheduled(s, ms) && !last.MineBlock?
    ensures Scheduled(s, ms + [last])
  {
    OthersKeepSchedule(Run(s, ms), last);
    assert (ms + [last])[..|ms|] == ms;
    assert PaidClock(s, ms + [last]) == PaidClock(s, ms);
  }

  /** The schedule is where the paid blocks took it, and mining took from the holder what they announced. */
  ghost predicate Scheduled(s: State, ms: seq<Message>)
    requires s.holder.Some? && s.miningInfo.Some?
  {
    && Run(s, ms).miningInfo == Some(Mining.Run(s.miningInfo.value, PaidClock(s, ms)))
    && MiningOutflow(s, ms, s.holder.value) == Rewards(s.miningInfo.value, PaidClock(s, ms))
  }

  /**
   * Over any run of messages of every kind, the schedule is where the paid blocks alone took it, and mining has taken
   * from the holder exactly the rewards announced before each of them, whoever mined.
   */
  lemma {:induction false} MiningPaysTheSchedule(s: State, ms: seq<Message>)
    requires Backed(s) && s.holder.Some? && s.owner.Some? && s.miningInfo.Some?
    ensures var clock := PaidClock(s, ms);
      Run(s, ms).miningInfo == Some(Mining.Run(s.miningInfo.value, clock)) &&
      MiningOutflow(s, ms, s.holder.value) == Rewards(s.miningInfo.value, clock)
  {
    if ms != [] {
      var front, last := ms[..|ms| - 1], ms[|ms| - 1];
      MiningPaysTheSchedule(s, front);
      SupplyIsConserved(s, front);
      assert Scheduled(s, front) && ms == front + [last];
      if last.MineBlock? {
        MinedLast(s, front, last);
      } else {
        OtherLast(s, front, last);
      }
      assert Scheduled(s, ms);
    }
  }

  lemma ZeroRewardRefusesBlocks(s: State, miner: Account, now: Timestamp)
    requires s.miningInfo.Some? && s.miningInfo.value.rewardAmount == 0
    ensures Step(s, MineBlock(miner, now)) == s
  {
  }

  /**
   * Once halving has brought the reward to zero, the schedule never changes again in any run, and a mining message
   * after any run changes nothing at all.
   */
  lemma {:induction false} ZeroRewardEndsMining(s: State, ms: seq<Message>, miner: Account, now: Timestamp)
    requires s.miningInfo.Some? && s.miningInfo.value.rewardAmount == 0
    ensures Run(s, ms).miningInfo == s.miningInfo
    ensures Step(Run(s, ms), MineBlock(miner, now)) == Run(s, ms)
  {
    if ms != [] {
      var front, last := ms[..|ms| - 1], ms[|ms| - 1];
      ZeroRewardEndsMining(s, front, miner, now);
      if last.MineBlock? {
        ZeroRewardRefusesBlocks(Run(s, front), last.miner, last.now);
      } else {
        OthersKeepSchedule(Run(s, front), last);
      }
    }
    ZeroRewardRefusesBlocks(Run(s, ms), miner, now);
  }
}
