/** The statement of every account of a meme token: what each message pays to whom, and how balances add up over a run. */
module MemeStatements {
  import opened Common
  import opened MapSums
  import opened MemeLedger
  import opened MemeConservation

  /** What a block pays its miner. */
  function Reward(s: State): Amount {
    if s.miningInfo.Some? then s.miningInfo.value.rewardAmount else 0
  }

  /** What an executed message adds to an account's balance. */
  function Received(s: State, m: Message, a: Account): nat {
    match m
    case TransferTokens(_, to, amount) => if a == to then amount else 0
    case TryTransfer(_, to, amount) => if a == to then amount else 0
    case ApproveSpender(_, _, _) => 0
    case SpendAllowance(_, _, to, amount) => if a == to then amount else 0
    case MintTokens(to, amount) => if a == to then amount else 0
    case MineBlock(miner, _) => if a == miner then Reward(s) else 0
    case GiveOwnership(_, _) => 0
  }

  /** What an executed message takes from an account's balance: mints and rewards come from the holder. */
  function Sent(s: State, m: Message, a: Account): nat {
    match m
    case TransferTokens(from, _, amount) => if a == from then amount else 0
    case TryTransfer(from, _, amount) => if a == from then amount else 0
    case ApproveSpender(owner, _, amount) => if a == owner then amount else 0
    case SpendAllowance(_, _, _, _) => 0
    case MintTokens(_, amount) => if Some(a) == s.holder then amount else 0
    case MineBlock(_, _) => if Some(a) == s.holder then Reward(s) else 0
    case GiveOwnership(_, _) => 0
  }

  /** What an executed message adds to what a spender may spend for an owner. */
  function Granted(m: Message, owner: Account, spender: Account): nat {
    if m.ApproveSpender? && m.owner == owner && m.spender == spender then m.amount else 0
  }

  /** What an executed message uses up of it. */
  function Used(m: Message, owner: Account, spender: Account): nat {
    if m.SpendAllowance? && m.from == owner && m.spender == spender then m.amount else 0
  }

  /** The balances and allowances after an executed message, account by account. */
  ghost predicate Posted(s: State, m: Message, s1: State) {
    && (forall a :: BalanceOf(s1, a) == BalanceOf(s, a) - Sent(s, m, a) + Received(s, m, a))
    && (forall a, b :: AllowanceOf(s1, a, b) == AllowanceOf(s, a, b) + Granted(m, a, b) - Used(m, a, b))
  }

  /** What no message but its own kind changes: the owner and the schedule; nothing changes the rest. */
  predicate Settings(s: State, m: Message, s1: State) {
    && s1.owner == (if m.GiveOwnership? then Some(m.newOwner) else s.owner)
    && (!m.MineBlock? ==> s1.miningInfo == s.miningInfo)
    && s1 == s.(balances := s1.balances, allowances := s1.allowances, owner := s1.owner, miningInfo := s1.miningInfo)
  }

  /** A transfer moves its amount between its two accounts and changes nothing else. */
  lemma TransferEffect(s: State, from: Account, to: Account, amount: Amount)
    ensures TransferEnsure(s, from, to, amount).Ok? ==>
      var s1 := TransferEnsure(s, from, to, amount).state;
      && s1 == s.(balances := s1.balances)
      && forall a :: BalanceOf(s1, a) == BalanceOf(s, a) - (if a == from then amount else 0) + (if a == to then amount else 0)
    ensures Transfer(s, from, to, amount).Ok? <==> TransferEnsure(s, from, to, amount).Ok?
    ensures Transfer(s, from, to, amount).Ok? ==> Transfer(s, from, to, amount) == TransferEnsure(s, from, to, amount)
    ensures TransferEnsure(s, from, to, amount).Err? ==> TransferEnsure(s, from, to, amount).state == s
  {
  }

  lemma ApproveEffect(s: State, owner: Account, spender: Account, amount: Amount)
    ensures var m := ApproveSpender(owner, spender, amount);
      Approve(s, owner, spender, amount).Ok? ==> Posted(s, m, Approve(s, owner, spender, amount).state)
  {
  }

  lemma TransferFromEffect(s: State, spender: Account, from: Account, to: Account, amount: Amount)
    ensures var m := SpendAllowance(spender, from, to, amount);
      TransferFrom(s, spender, from, to, amount).Ok? ==> Posted(s, m, TransferFrom(s, spender, from, to, amount).state)
  {
  }

  /** A message is posted in full or leaves the ledger as it was. */
  lemma StepIsPosted(s: State, m: Message)
    ensures if Execute(s, m).Ok? then Posted(s, m, Step(s, m)) else Step(s, m) == s
  {
    match m
    case TransferTokens(from, to, amount) => TransferEffect(s, from, to, amount);
    case TryTransfer(from, to, amount) => TransferEffect(s, from, to, amount);
    case ApproveSpender(owner, spender, amount) => ApproveEffect(s, owner, spender, amount);
    case SpendAllowance(spender, from, to, amount) => TransferFromEffect(s, spender, from, to, amount);
    case MintTokens(to, amount) =>
      if s.holder.Some? { TransferEffect(s, s.holder.value, to, amount); }
    case MineBlock(miner, now) =>
      if s.holder.Some? { TransferEffect(s, s.holder.value, miner, Reward(s)); }
    case GiveOwnership(owner, newOwner) =>
  }

  /** Only handing on the ownership changes the owner, only mining moves the schedule, and nothing changes the rest. */
  lemma StepKeepsSettings(s: State, m: Message)
    ensures Execute(s, m).Ok? ==> Settings(s, m, Step(s, m))
    ensures m.GiveOwnership? ==> (Execute(s, m).Ok? <==> s.owner == Some(m.owner))
  {
  }

  // ---- Runs ----

  function TotalReceived(s: State, ms: seq<Message>, a: Account): nat {
    if ms == [] then 0 else
    var front, last := ms[..|ms| - 1], ms[|ms| - 1];
    TotalReceived(s, front, a) + if Execute(Run(s, front), last).Ok? then Received(Run(s, front), last, a) else 0
  }

  function TotalSent(s: State, ms: seq<Message>, a: Account): nat {
    if ms == [] then 0 else
    var front, last := ms[..|ms| - 1], ms[|ms| - 1];
    TotalSent(s, front, a) + if Execute(Run(s, front), last).Ok? then Sent(Run(s, front), last, a) else 0
  }

  function TotalGranted(s: State, ms: seq<Message>, owner: Account, spender: Account): nat {
    if ms == [] then 0 else
    var front, last := ms[..|ms| - 1], ms[|ms| - 1];
    TotalGranted(s, front, owner, spender) + if Execute(Run(s, front), last).Ok? then Granted(last, owner, spender) else 0
  }

  function TotalUsed(s: State, ms: seq<Message>, owner: Account, spender: Account): nat {
    if ms == [] then 0 else
    var front, last := ms[..|ms| - 1], ms[|ms| - 1];
    TotalUsed(s, front, owner, spender) + if Execute(Run(s, front), last).Ok? then Used(last, owner, spender) else 0
  }

  /** After any run, an account holds what it held, less what it sent, and what it received, by executed messages alone. */
  lemma {:induction false} BalanceStatement(s: State, ms: seq<Message>, a: Account)
    ensures BalanceOf(Run(s, ms), a) == BalanceOf(s, a) - TotalSent(s, ms, a) + TotalReceived(s, ms, a)
  {
    if ms != [] {
      BalanceStatement(s, ms[..|ms| - 1], a);
      StepIsPosted(Run(s, ms[..|ms| - 1]), ms[|ms| - 1]);
    }
  }

  /** A spender never uses more of an owner's tokens than it was granted. */
  lemma {:induction false} AllowanceStatement(s: State, ms: seq<Message>, owner: Account, spender: Account)
    ensures AllowanceOf(Run(s, ms), owner, spender)
         == AllowanceOf(s, owner, spender) + TotalGranted(s, ms, owner, spender) - TotalUsed(s, ms, owner, spender)
  {
    if ms != [] {
      AllowanceStatement(s, ms[..|ms| - 1], owner, spender);
      StepIsPosted(Run(s, ms[..|ms| - 1]), ms[|ms| - 1]);
    }
  }
}
