/** The proxy's governance and miner records: what each call does to them, on values. */
module ProxyLedger {
  import opened Common
  import opened Approvals

  datatype GenesisMiner = GenesisMiner(owner: Account, approval: Votes)

  datatype Miner = Miner(owner: Account, registeredAt: Timestamp)

  datatype State = State(
    operators: map<Account, Votes>,
    banningOperators: map<Account, Votes>,
    genesisMiners: map<Account, GenesisMiner>,
    removingGenesisMiners: map<Account, Votes>,
    miners: map<Account, Miner>)

  const EMPTY := State(map[], map[], map[], map[], map[])

  type Result = Outcome<State, ()>

  // ---- Instantiation ----

  /** The single vote that founders' records start with. */
  function FoundingVotes(voter: Account): Votes {
    Votes(map[voter := true], 1)
  }

  function Founders(operators: seq<Account>, voter: Account): map<Account, Votes> {
    map o | o in operators :: FoundingVotes(voter)
  }

  function FoundingMiners(owners: seq<Account>): map<Account, GenesisMiner> {
    map o | o in owners :: GenesisMiner(o, FoundingVotes(o))
  }

  /** Founding operators are vouched for by the first chain owner, so naming one needs an owner. */
  function Instantiate(s: State, operators: seq<Account>, owners: seq<Account>): Result {
    if operators != [] && owners == [] then Panic else
      Ok(s.(operators := if operators == [] then s.operators else s.operators + Founders(operators, owners[0]),
            genesisMiners := s.genesisMiners + FoundingMiners(owners)), ())
  }

  // ---- Ballots ----

  /** Two thirds of the operator records, rounded down, and never less than one vote. */
  function Quorum(s: State): nat {
    Max(|s.operators| * 2 / 3, 1)
  }

  function InitialApproval(s: State): Votes {
    New(Quorum(s))
  }

  predicate ValidOperator(s: State, a: Account) {
    a in s.operators && Approved(s.operators[a])
  }

  function AddOperator(s: State, owner: Account): Result {
    if owner in s.operators then Panic else
      Ok(s.(operators := s.operators[owner := InitialApproval(s)]), ())
  }

  function ApproveAddOperator(s: State, owner: Account, operator: Account): Result {
    if owner !in s.operators then Panic else
      match Cast(s.operators[owner], operator, true)
      case None => Panic
      case Some(v) => Ok(s.(operators := s.operators[owner := v]), ())
  }

  function BanOperator(s: State, owner: Account): Result {
    if owner !in s.operators || owner in s.banningOperators then Panic else
      Ok(s.(banningOperators := s.banningOperators[owner := InitialApproval(s)]), ())
  }

  function ApproveBanOperator(s: State, owner: Account, operator: Account): Result {
    if owner !in s.banningOperators then Panic else
      match Cast(s.banningOperators[owner], operator, true)
      case None => Panic
      case Some(v) =>
        if Approved(v) then
          Ok(s.(banningOperators := s.banningOperators - {owner}, operators := s.operators - {owner}), ())
        else Ok(s.(banningOperators := s.banningOperators[owner := v]), ())
  }

  function AddGenesisMiner(s: State, owner: Account): Result {
    if owner in s.genesisMiners then Panic else
      Ok(s.(genesisMiners := s.genesisMiners[owner := GenesisMiner(owner, InitialApproval(s))]), ())
  }

  function ApproveAddGenesisMiner(s: State, owner: Account, operator: Account): Result {
    if owner !in s.genesisMiners then Panic else
      match Cast(s.genesisMiners[owner].approval, operator, true)
      case None => Panic
      case Some(v) => Ok(s.(genesisMiners := s.genesisMiners[owner := s.genesisMiners[owner].(approval := v)]), ())
  }

  /** Proposing an open removal again is accepted and opens nothing. */
  function RemoveGenesisMiner(s: State, owner: Account): Result {
    if owner in s.removingGenesisMiners then Ok(s, ())
    else if owner !in s.genesisMiners then Err(s)
    else Ok(s.(removingGenesisMiners := s.removingGenesisMiners[owner := InitialApproval(s)]), ())
  }

  function ApproveRemoveGenesisMiner(s: State, owner: Account, operator: Account): Result {
    if owner !in s.removingGenesisMiners then Panic else
      match Cast(s.removingGenesisMiners[owner], operator, true)
      case None => Panic
      case Some(v) =>
        if Approved(v) then
          Ok(s.(removingGenesisMiners := s.removingGenesisMiners - {owner}, genesisMiners := s.genesisMiners - {owner}), ())
        else Ok(s.(removingGenesisMiners := s.removingGenesisMiners[owner := v]), ())
  }

  // ---- Miners ----

  predicate ApprovedGenesis(s: State, a: Account) {
    a in s.genesisMiners && Approved(s.genesisMiners[a].approval)
  }

  predicate Registered(s: State, owner: AccountOwner) {
    exists a :: a in s.miners && s.miners[a].owner.owner == owner
  }

  predicate GenesisHolds(s: State, owner: AccountOwner) {
    exists a :: a in s.genesisMiners && ApprovedGenesis(s, a) && a.owner == owner
  }

  function RegisterMiner(s: State, owner: Account, now: Timestamp): Result {
    if Registered(s, owner.owner) || GenesisHolds(s, owner.owner) then Panic else
      Ok(s.(miners := s.miners[owner := Miner(owner, now)]), ())
  }

  function DeregisterMiner(s: State, owner: Account): Result {
    if owner !in s.miners then Err(s) else Ok(s.(miners := s.miners - {owner}), ())
  }

  // ---- Messages ----

  /** What a ballot decides. */
  datatype Topic = AddingOperator | BanningOperator | AddingMiner | RemovingMiner

  datatype Message =
    | Propose(topic: Topic, operator: Account, owner: Account)
    | Approve(topic: Topic, operator: Account, owner: Account)
    | Register(owner: Account, now: Timestamp)
    | Deregister(owner: Account)

  function Open(s: State, topic: Topic, owner: Account): Result {
    match topic
    case AddingOperator => AddOperator(s, owner)
    case BanningOperator => BanOperator(s, owner)
    case AddingMiner => AddGenesisMiner(s, owner)
    case RemovingMiner => RemoveGenesisMiner(s, owner)
  }

  function Vote(s: State, topic: Topic, owner: Account, operator: Account): Result {
    match topic
    case AddingOperator => ApproveAddOperator(s, owner, operator)
    case BanningOperator => ApproveBanOperator(s, owner, operator)
    case AddingMiner => ApproveAddGenesisMiner(s, owner, operator)
    case RemovingMiner => ApproveRemoveGenesisMiner(s, owner, operator)
  }

  function GuardedVote(s: State, topic: Topic, owner: Account, operator: Account): Result {
    if !ValidOperator(s, operator) then Panic else Vote(s, topic, owner, operator)
  }

  function Handle(s: State, m: Message): Result {
    match m
    case Propose(topic, operator, owner) =>
      var (proposed, _) :- Open(s, topic, owner);
      GuardedVote(proposed, topic, owner, operator)
    case Approve(topic, operator, owner) => GuardedVote(s, topic, owner, operator)
    case Register(owner, now) => RegisterMiner(s, owner, now)
    case Deregister(owner) => DeregisterMiner(s, owner)
  }

  /** Errors panic too, so a message that fails leaves the committed state as it was. */
  function Step(s: State, m: Message): State {
    match Handle(s, m)
    case Ok(after, _) => after
    case Err(_) => s
    case Panic => s
  }

  function Run(s: State, ms: seq<Message>): State {
    if ms == [] then s else Step(Run(s, ms[..|ms| - 1]), ms[|ms| - 1])
  }
}
