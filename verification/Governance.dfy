/** What the proxy's records owe to votes, over every run of messages. */
module Governance {
  import opened Common
  import opened Approvals
  import opened ProxyLedger
  import opened MinerRegistry

  // ---- Ballots by topic ----

  function Ballots(s: State, topic: Topic): map<Account, Votes> {
    match topic
    case AddingOperator => s.operators
    case BanningOperator => s.banningOperators
    case AddingMiner => map a | a in s.genesisMiners :: s.genesisMiners[a].approval
    case RemovingMiner => s.removingGenesisMiners
  }

  /** A removal ballot that passes deletes itself and the record it is about. */
  predicate Removes(topic: Topic) {
    topic == BanningOperator || topic == RemovingMiner
  }

  function Target(topic: Topic): Topic {
    if topic == BanningOperator || topic == AddingOperator then AddingOperator else AddingMiner
  }

  ghost predicate OpenEffect(s: State, topic: Topic, owner: Account, after: State) {
    && (forall t :: t != topic ==> Ballots(after, t) == Ballots(s, t))
    && Ballots(after, topic) == (if owner in Ballots(s, topic) then Ballots(s, topic) else Ballots(s, topic)[owner := InitialApproval(s)])
    && (Removes(topic) ==> owner in Ballots(s, topic) || owner in Ballots(s, Target(topic)))
  }

  ghost predicate VoteEffect(s: State, topic: Topic, owner: Account, v: Votes, after: State) {
    if Removes(topic) && Approved(v) then
      && Ballots(after, topic) == Ballots(s, topic) - {owner}
      && Ballots(after, Target(topic)) == Ballots(s, Target(topic)) - {owner}
      && forall t :: t != topic && t != Target(topic) ==> Ballots(after, t) == Ballots(s, t)
    else
      && Ballots(after, topic) == Ballots(s, topic)[owner := v]
      && forall t :: t != topic ==> Ballots(after, t) == Ballots(s, t)
  }

  lemma OpenBallots(s: State, topic: Topic, owner: Account)
    requires Open(s, topic, owner).Ok?
    ensures OpenEffect(s, topic, owner, Open(s, topic, owner).state)
    ensures Open(s, topic, owner).state.miners == s.miners
  {
  }

  lemma VoteBallots(s: State, topic: Topic, owner: Account, operator: Account)
    requires Vote(s, topic, owner, operator).Ok?
    ensures owner in Ballots(s, topic) && Cast(Ballots(s, topic)[owner], operator, true).Some?
    ensures VoteEffect(s, topic, owner, Cast(Ballots(s, topic)[owner], operator, true).value,
                       Vote(s, topic, owner, operator).state)
    ensures Vote(s, topic, owner, operator).state.miners == s.miners
  {
    match topic
    case AddingOperator => OperatorVote(s, owner, operator);
    case BanningOperator => BanVote(s, owner, operator);
    case AddingMiner => MinerVote(s, owner, operator);
    case RemovingMiner => RemovalVote(s, owner, operator);
  }

  lemma OperatorVote(s: State, owner: Account, operator: Account)
    requires ApproveAddOperator(s, owner, operator).Ok?
    ensures VoteEffect(s, AddingOperator, owner, Cast(s.operators[owner], operator, true).value,
                       ApproveAddOperator(s, owner, operator).state)
  {
  }

  lemma BanVote(s: State, owner: Account, operator: Account)
    requires ApproveBanOperator(s, owner, operator).Ok?
    ensures VoteEffect(s, BanningOperator, owner, Cast(s.banningOperators[owner], operator, true).value,
                       ApproveBanOperator(s, owner, operator).state)
  {
  }

  lemma MinerVote(s: State, owner: Account, operator: Account)
    requires ApproveAddGenesisMiner(s, owner, operator).Ok?
    ensures VoteEffect(s, AddingMiner, owner, Cast(s.genesisMiners[owner].approval, operator, true).value,
                       ApproveAddGenesisMiner(s, owner, operator).state)
  {
  }

  lemma RemovalVote(s: State, owner: Account, operator: Account)
    requires ApproveRemoveGenesisMiner(s, owner, operator).Ok?
    ensures VoteEffect(s, RemovingMiner, owner, Cast(s.removingGenesisMiners[owner], operator, true).value,
                       ApproveRemoveGenesisMiner(s, owner, operator).state)
  {
  }

  lemma NewIsOpen(least: nat)
    requires least > 0
    ensures !Approved(New(least))
  {
    assert InFavour(New(least)) == {};
  }

  lemma OpenKeepsValidity(s: State, topic: Topic, owner: Account, a: Account)
    requires Open(s, topic, owner).Ok?
    ensures ValidOperator(Open(s, topic, owner).state, a) <==> ValidOperator(s, a)
  {
    OpenBallots(s, topic, owner);
    NewIsOpen(Quorum(s));
  }

  predicate IsVote(m: Message, topic: Topic, owner: Account, voter: Account) {
    (m.Propose? || m.Approve?) && m.topic == topic && m.owner == owner && m.operator == voter
  }

  /** The ballot a vote is added to: the open one, or for a proposal a new one at the present quorum. */
  function BallotFor(s: State, topic: Topic, owner: Account): Votes {
    if owner in Ballots(s, topic) then Ballots(s, topic)[owner] else InitialApproval(s)
  }

  predicate Accepted(s: State, m: Message) {
    Handle(s, m).Ok?
  }

  predicate CastsVote(m: Message) {
    m.Propose? || m.Approve?
  }

  /** One new vote by an approved operator, and what a passing removal deletes. */
  ghost predicate Voting(s: State, m: Message, after: State)
    requires CastsVote(m)
  {
    && ValidOperator(s, m.operator)
    && (m.Approve? ==> m.owner in Ballots(s, m.topic))
    && (Removes(m.topic) ==> m.owner in Ballots(s, m.topic) || m.owner in Ballots(s, Target(m.topic)))
    && match Cast(BallotFor(s, m.topic, m.owner), m.operator, true)
       case None => false
       case Some(v) => VoteEffect(s, m.topic, m.owner, v, after)
  }

  ghost predicate Effect(s: State, m: Message, accepted: bool, after: State) {
    if accepted && CastsVote(m) then Voting(s, m, after) else forall t :: Ballots(after, t) == Ballots(s, t)
  }

  lemma AcceptedApproval(s: State, m: Message)
    requires m.Approve? && Accepted(s, m)
    ensures Voting(s, m, Step(s, m))
  {
    VoteBallots(s, m.topic, m.owner, m.operator);
  }

  lemma OpenedBallot(s: State, topic: Topic, owner: Account, v: Votes, proposed: State)
    requires OpenEffect(s, topic, owner, proposed)
    ensures owner in Ballots(proposed, topic) && Ballots(proposed, topic)[owner] == BallotFor(s, topic, owner)
    ensures Ballots(proposed, topic) - {owner} == Ballots(s, topic) - {owner}
    ensures Ballots(proposed, topic)[owner := v] == Ballots(s, topic)[owner := v]
  {
  }

  lemma VoteAfterOpening(s: State, topic: Topic, owner: Account, v: Votes, proposed: State, after: State)
    requires OpenEffect(s, topic, owner, proposed) && VoteEffect(proposed, topic, owner, v, after)
    ensures VoteEffect(s, topic, owner, v, after)
  {
    OpenedBallot(s, topic, owner, v, proposed);
    assert forall t :: t != topic ==> Ballots(proposed, t) == Ballots(s, t);
    if Removes(topic) {
      assert Target(topic) != topic;
    }
  }

  lemma AcceptedProposal(s: State, m: Message)
    requires m.Propose? && Accepted(s, m)
    ensures Voting(s, m, Step(s, m))
  {
    var proposed := Open(s, m.topic, m.owner).state;
    OpenBallots(s, m.topic, m.owner);
    OpenKeepsValidity(s, m.topic, m.owner, m.operator);
    VoteBallots(proposed, m.topic, m.owner, m.operator);
    OpenedBallot(s, m.topic, m.owner, InitialApproval(s), proposed);
    var v := Cast(Ballots(proposed, m.topic)[m.owner], m.operator, true).value;
    VoteAfterOpening(s, m.topic, m.owner, v, proposed, Step(s, m));
  }

  /** Every message casts one accepted vote or leaves all ballots as they were. */
  lemma StepEffect(s: State, m: Message)
    ensures Effect(s, m, Accepted(s, m), Step(s, m))
  {
    if Accepted(s, m) && m.Approve? {
      AcceptedApproval(s, m);
    } else if Accepted(s, m) && m.Propose? {
      AcceptedProposal(s, m);
    }
  }

  /** A record after a step is untouched, or is the ballot the step voted on. */
  lemma StepBallots(s: State, m: Message, accepted: bool, after: State, topic: Topic, owner: Account)
    requires Effect(s, m, accepted, after) && owner in Ballots(after, topic)
    ensures (owner in Ballots(s, topic) && Ballots(after, topic)[owner] == Ballots(s, topic)[owner])
         || (accepted && CastsVote(m) && IsVote(m, topic, owner, m.operator) &&
             Some(Ballots(after, topic)[owner]) == Cast(BallotFor(s, topic, owner), m.operator, true))
  {
  }

  /** Something to vote on: an open ballot, or for a proposal a record that is absent, present, or already being removed. */
  predicate Votable(s: State, m: Message)
    requires CastsVote(m)
  {
    if m.Approve? then m.owner in Ballots(s, m.topic) else
      match m.topic
      case AddingOperator => m.owner !in s.operators
      case BanningOperator => m.owner in s.operators && m.owner !in s.banningOperators
      case AddingMiner => m.owner !in s.genesisMiners
      case RemovingMiner => m.owner in s.genesisMiners || m.owner in s.removingGenesisMiners
  }

  /** A message is accepted exactly when there is something to vote on and an approved operator votes on it for the first time. */
  lemma AcceptedExactly(s: State, m: Message)
    requires CastsVote(m)
    ensures Accepted(s, m) <==>
      Votable(s, m) && ValidOperator(s, m.operator) && !Voted(BallotFor(s, m.topic, m.owner), m.operator)
  {
    if m.Propose? && Open(s, m.topic, m.owner).Ok? {
      OpenBallots(s, m.topic, m.owner);
      OpenKeepsValidity(s, m.topic, m.owner, m.operator);
    }
  }

  function RemovalOf(topic: Topic): Topic {
    if topic == AddingOperator then BanningOperator else RemovingMiner
  }

  /** The message is the accepted vote that completes the removal of `owner`. */
  ghost predicate Completes(s: State, m: Message, accepted: bool, removal: Topic, owner: Account) {
    && accepted && CastsVote(m) && IsVote(m, removal, owner, m.operator)
    && match Cast(BallotFor(s, removal, owner), m.operator, true)
       case None => false
       case Some(v) => Approved(v)
  }

  lemma LossFromEffect(s: State, m: Message, accepted: bool, after: State, topic: Topic, owner: Account)
    requires Effect(s, m, accepted, after) && !Removes(topic) && owner in Ballots(s, topic)
    ensures owner !in Ballots(after, topic) <==> Completes(s, m, accepted, RemovalOf(topic), owner)
  {
  }

  /** A record disappears exactly when a message completes its removal. */
  lemma LossExact(s: State, m: Message, topic: Topic, owner: Account)
    requires !Removes(topic) && owner in Ballots(s, topic)
    ensures owner !in Ballots(Step(s, m), topic) <==> Completes(s, m, Accepted(s, m), RemovalOf(topic), owner)
  {
    StepEffect(s, m);
    LossFromEffect(s, m, Accepted(s, m), Step(s, m), topic, owner);
  }

  // ---- Provenance over a run ----

  /** One message of a run: the state it met, and whether it was accepted. */
  datatype Entry = Entry(before: State, message: Message, accepted: bool)

  function Log(start: State, ms: seq<Message>): seq<Entry> {
    if ms == [] then [] else
      var front, m := ms[..|ms| - 1], ms[|ms| - 1];
      Log(start, front) + [Entry(Run(start, front), m, Accepted(Run(start, front), m))]
  }

  /** The threshold for n operator records: at least one vote, and otherwise two thirds of n, rounded down. */
  predicate TwoThirds(votes: nat, n: nat) {
    votes >= 1 && 3 * votes + 2 >= 2 * n && (votes > 1 ==> 3 * votes <= 2 * n)
  }

  /** Proposals open ballots at that threshold. */
  lemma ThresholdIsTwoThirds(s: State, votes: nat)
    ensures InitialApproval(s).approvers == map[]
    ensures InitialApproval(s).leastApprovals == votes <==> TwoThirds(votes, |s.operators|)
  {
  }

  /** A ballot at the threshold for n records passes exactly from two thirds of n on, and never without a vote. */
  lemma BallotPassesExactly(v: Votes, n: nat)
    requires TwoThirds(v.leastApprovals, n)
    ensures Approved(v) <==> |InFavour(v)| >= 1 && 3 * |InFavour(v)| + 2 >= 2 * n
  {
  }

  ghost predicate VotedAt(log: seq<Entry>, topic: Topic, owner: Account, voter: Account, j: nat) {
    j < |log| && log[j].accepted && IsVote(log[j].message, topic, owner, voter) && ValidOperator(log[j].before, voter)
  }

  ghost predicate ProposedAt(log: seq<Entry>, topic: Topic, owner: Account, k: nat) {
    && k < |log| && log[k].message.Propose? && VotedAt(log, topic, owner, log[k].message.operator, k)
    && owner !in Ballots(log[k].before, topic)
  }

  ghost predicate VotedSince(log: seq<Entry>, topic: Topic, owner: Account, voter: Account, k: nat) {
    exists j: nat :: k <= j && VotedAt(log, topic, owner, voter, j)
  }

  ghost predicate AllVoted(log: seq<Entry>, topic: Topic, owner: Account, v: Votes, k: nat) {
    forall a :: a in v.approvers ==> v.approvers[a] && VotedSince(log, topic, owner, a, k)
  }

  ghost predicate ProvenanceAt(log: seq<Entry>, topic: Topic, owner: Account, v: Votes, k: nat) {
    && ProposedAt(log, topic, owner, k) && TwoThirds(v.leastApprovals, |log[k].before.operators|)
    && AllVoted(log, topic, owner, v, k)
  }

  /** The ballot was proposed by some message, with two thirds of that moment's records as its threshold, and every vote in it was cast since. */
  ghost predicate Provenance(log: seq<Entry>, topic: Topic, owner: Account, v: Votes) {
    exists k: nat :: ProvenanceAt(log, topic, owner, v, k)
  }

  /** The record has been there, without a gap, from the start. */
  ghost predicate Founding(start: State, log: seq<Entry>, end: State, topic: Topic, owner: Account) {
    && owner in Ballots(start, topic)
    && (forall k :: 0 <= k < |log| ==> owner in Ballots(log[k].before, topic))
    && owner in Ballots(end, topic)
  }

  lemma VotedLater(log: seq<Entry>, entry: Entry, topic: Topic, owner: Account, v: Votes, k: nat)
    requires AllVoted(log, topic, owner, v, k)
    ensures AllVoted(log + [entry], topic, owner, v, k)
  {
    forall a | a in v.approvers ensures v.approvers[a] && VotedSince(log + [entry], topic, owner, a, k) {
      var j: nat :| k <= j && VotedAt(log, topic, owner, a, j);
      assert VotedAt(log + [entry], topic, owner, a, j);
    }
  }

  lemma ProvenanceLasts(log: seq<Entry>, entry: Entry, topic: Topic, owner: Account, v: Votes)
    requires Provenance(log, topic, owner, v)
    ensures Provenance(log + [entry], topic, owner, v)
  {
    var k: nat :| ProvenanceAt(log, topic, owner, v, k);
    VotedLater(log, entry, topic, owner, v, k);
    assert (log + [entry])[k] == log[k];
    assert ProvenanceAt(log + [entry], topic, owner, v, k);
  }

  lemma AddVote(log: seq<Entry>, topic: Topic, owner: Account, v: Votes, voter: Account, k: nat)
    requires AllVoted(log, topic, owner, v, k) && VotedSince(log, topic, owner, voter, k) && !Voted(v, voter)
    ensures AllVoted(log, topic, owner, Cast(v, voter, true).value, k)
  {
  }

  lemma VoteProvenance(log: seq<Entry>, entry: Entry, topic: Topic, owner: Account, voter: Account)
    requires entry.accepted && IsVote(entry.message, topic, owner, voter) && ValidOperator(entry.before, voter)
    requires entry.message.Approve? ==> owner in Ballots(entry.before, topic)
    requires owner in Ballots(entry.before, topic) ==> Provenance(log, topic, owner, Ballots(entry.before, topic)[owner])
    requires Cast(BallotFor(entry.before, topic, owner), voter, true).Some?
    ensures Provenance(log + [entry], topic, owner, Cast(BallotFor(entry.before, topic, owner), voter, true).value)
  {
    var longer, before := log + [entry], BallotFor(entry.before, topic, owner);
    var v := Cast(before, voter, true).value;
    assert longer[|log|] == entry;
    assert VotedAt(longer, topic, owner, voter, |log|);
    var k: nat := |log|;
    if owner in Ballots(entry.before, topic) {
      k :| 0 <= k && ProvenanceAt(log, topic, owner, before, k);
      assert longer[k] == log[k];
      VotedLater(log, entry, topic, owner, before, k);
    }
    ThresholdIsTwoThirds(entry.before, InitialApproval(entry.before).leastApprovals);
    assert ProposedAt(longer, topic, owner, k);
    assert VotedSince(longer, topic, owner, voter, k);
    AddVote(longer, topic, owner, before, voter, k);
    assert ProvenanceAt(longer, topic, owner, v, k);
  }

  lemma RecordStep(start: State, log: seq<Entry>, entry: Entry, after: State, topic: Topic, owner: Account)
    requires Effect(entry.before, entry.message, entry.accepted, after) && owner in Ballots(after, topic)
    requires owner in Ballots(entry.before, topic) ==>
      Founding(start, log, entry.before, topic, owner) || Provenance(log, topic, owner, Ballots(entry.before, topic)[owner])
    ensures Founding(start, log + [entry], after, topic, owner) || Provenance(log + [entry], topic, owner, Ballots(after, topic)[owner])
  {
    var s, m := entry.before, entry.message;
    StepBallots(s, m, entry.accepted, after, topic, owner);
    if owner in Ballots(s, topic) && Founding(start, log, s, topic, owner) {
      assert Founding(start, log + [entry], after, topic, owner);
    } else if owner in Ballots(s, topic) && Ballots(after, topic)[owner] == Ballots(s, topic)[owner] {
      ProvenanceLasts(log, entry, topic, owner, Ballots(s, topic)[owner]);
    } else {
      VoteProvenance(log, entry, topic, owner, m.operator);
    }
  }

  /** Every record in every reachable state is a founding one or has a proposal and votes behind it. */
  lemma {:induction false} EveryRecord(start: State, ms: seq<Message>, topic: Topic, owner: Account)
    requires owner in Ballots(Run(start, ms), topic)
    ensures Founding(start, Log(start, ms), Run(start, ms), topic, owner)
         || Provenance(Log(start, ms), topic, owner, Ballots(Run(start, ms), topic)[owner])
  {
    if ms != [] {
      var front, m := ms[..|ms| - 1], ms[|ms| - 1];
      var s := Run(start, front);
      StepEffect(s, m);
      if owner in Ballots(s, topic) {
        EveryRecord(start, front, topic, owner);
      }
      RecordStep(start, Log(start, front), Entry(s, m, Accepted(s, m)), Step(s, m), topic, owner);
    }
  }

  /** A proposal at `k`, and two thirds of the operators on record then as distinct accounts that each voted since, approved. */
  ghost predicate QuorumBehind(log: seq<Entry>, topic: Topic, owner: Account, k: nat, voters: set<Account>) {
    && ProposedAt(log, topic, owner, k)
    && |voters| >= 1 && 3 * |voters| + 2 >= 2 * |log[k].before.operators|
    && forall a :: a in voters ==> VotedSince(log, topic, owner, a, k)
  }

  lemma ProvenanceGivesQuorum(log: seq<Entry>, topic: Topic, owner: Account, v: Votes)
    requires Approved(v) && Provenance(log, topic, owner, v)
    ensures exists k, voters :: QuorumBehind(log, topic, owner, k, voters)
  {
    var k: nat :| ProvenanceAt(log, topic, owner, v, k);
    BallotPassesExactly(v, |log[k].before.operators|);
    assert QuorumBehind(log, topic, owner, k, InFavour(v));
  }

  /** Every approved operator or genesis miner is a founder or has a quorum of approved operators behind it. */
  lemma ApprovedHasQuorum(start: State, ms: seq<Message>, topic: Topic, owner: Account)
    requires owner in Ballots(Run(start, ms), topic) && Approved(Ballots(Run(start, ms), topic)[owner])
    ensures Founding(start, Log(start, ms), Run(start, ms), topic, owner)
         || exists k, voters :: QuorumBehind(Log(start, ms), topic, owner, k, voters)
  {
    EveryRecord(start, ms, topic, owner);
    if !Founding(start, Log(start, ms), Run(start, ms), topic, owner) {
      ProvenanceGivesQuorum(Log(start, ms), topic, owner, Ballots(Run(start, ms), topic)[owner]);
    }
  }

  /** From instantiation: an approved operator was named there and never lost its record, or was voted in. */
  lemma OperatorsAreNamedOrVotedIn(operators: seq<Account>, owners: seq<Account>, ms: seq<Message>, owner: Account)
    requires Instantiate(EMPTY, operators, owners).Ok?
    requires ValidOperator(Run(Instantiate(EMPTY, operators, owners).state, ms), owner)
    ensures var start := Instantiate(EMPTY, operators, owners).state;
      (owner in operators && Founding(start, Log(start, ms), Run(start, ms), AddingOperator, owner))
      || exists k, voters :: QuorumBehind(Log(start, ms), AddingOperator, owner, k, voters)
  {
    ApprovedHasQuorum(Instantiate(EMPTY, operators, owners).state, ms, AddingOperator, owner);
  }

  /** The other direction: a record or ballot that was voted on is approved as soon as it has those two thirds. */
  lemma VotedRecordPassesExactly(start: State, ms: seq<Message>, topic: Topic, owner: Account)
    requires owner in Ballots(Run(start, ms), topic)
    requires !Founding(start, Log(start, ms), Run(start, ms), topic, owner)
    ensures var v := Ballots(Run(start, ms), topic)[owner];
      exists k: nat :: ProposedAt(Log(start, ms), topic, owner, k) &&
        (Approved(v) <==> |InFavour(v)| >= 1 && 3 * |InFavour(v)| + 2 >= 2 * |Log(start, ms)[k].before.operators|)
  {
    EveryRecord(start, ms, topic, owner);
    var log, v := Log(start, ms), Ballots(Run(start, ms), topic)[owner];
    var k: nat :| ProvenanceAt(log, topic, owner, v, k);
    BallotPassesExactly(v, |log[k].before.operators|);
  }

  /** A ban proposed on a fresh ballot takes effect with its proposer's vote alone exactly among one or two records. */
  lemma BanAtOnceExactly(s: State, operator: Account, owner: Account)
    requires ValidOperator(s, operator) && owner in s.operators && owner !in s.banningOperators
    ensures var m := Propose(BanningOperator, operator, owner);
      Accepted(s, m) && (owner !in Step(s, m).operators <==> |s.operators| <= 2)
  {
    var m := Propose(BanningOperator, operator, owner);
    AcceptedExactly(s, m);
    LossExact(s, m, AddingOperator, owner);
    OneVote(s, operator);
  }

  lemma OneVote(s: State, operator: Account)
    requires operator in s.operators
    ensures var v := Cast(InitialApproval(s), operator, true);
      v.Some? && (Approved(v.value) <==> |s.operators| <= 2)
  {
    var v := Cast(InitialApproval(s), operator, true).value;
    ThresholdIsTwoThirds(s, v.leastApprovals);
    assert InFavour(v) == {operator};
    BallotPassesExactly(v, |s.operators|);
    assert |s.operators.Keys| > 0;
  }

  lemma LossStep(log: seq<Entry>, entry: Entry, after: State, topic: Topic, removal: Topic, owner: Account)
    requires Effect(entry.before, entry.message, entry.accepted, after) && !Removes(topic) && removal == RemovalOf(topic)
    requires owner in Ballots(entry.before, topic) && owner !in Ballots(after, topic)
    requires owner in Ballots(entry.before, removal) ==> Provenance(log, removal, owner, Ballots(entry.before, removal)[owner])
    ensures exists k, voters :: QuorumBehind(log + [entry], removal, owner, k, voters)
  {
    var s, m := entry.before, entry.message;
    LossFromEffect(s, m, entry.accepted, after, topic, owner);
    VoteProvenance(log, entry, removal, owner, m.operator);
    ProvenanceGivesQuorum(log + [entry], removal, owner, Cast(BallotFor(s, removal, owner), m.operator, true).value);
  }

  lemma RunAppend(start: State, ms: seq<Message>, last: Message)
    ensures Run(start, ms + [last]) == Step(Run(start, ms), last)
    ensures Log(start, ms + [last]) == Log(start, ms) + [Entry(Run(start, ms), last, Accepted(Run(start, ms), last))]
  {
    assert (ms + [last])[..|ms|] == ms;
  }

  /** An operator or genesis miner record disappears only on a removal proposal with such a quorum behind it. */
  lemma LossHasQuorum(start: State, ms: seq<Message>, last: Message, topic: Topic, removal: Topic, owner: Account)
    requires !Removes(topic) && removal == RemovalOf(topic) && Ballots(start, removal) == map[]
    requires owner in Ballots(Run(start, ms), topic) && owner !in Ballots(Run(start, ms + [last]), topic)
    ensures exists k, voters :: QuorumBehind(Log(start, ms + [last]), removal, owner, k, voters)
  {
    var s := Run(start, ms);
    RunAppend(start, ms, last);
    StepEffect(s, last);
    if owner in Ballots(s, removal) {
      EveryRecord(start, ms, removal, owner);
    }
    LossStep(Log(start, ms), Entry(s, last, Accepted(s, last)), Step(s, last), topic, removal, owner);
  }

  // ---- Instantiation ----

  /**
   * A proxy is founded unless it names operators without having owners. Then the named operators are the approved ones,
   * the owners are the approved genesis miners, and nothing else is on record.
   */
  lemma FoundingExact(operators: seq<Account>, owners: seq<Account>, a: Account)
    ensures var r := Instantiate(EMPTY, operators, owners);
      (r.Ok? <==> operators == [] || owners != []) && !r.Err? &&
      (r.Ok? ==>
         (ValidOperator(r.state, a) <==> a in operators) && (a in r.state.operators <==> a in operators) &&
         (ApprovedGenesis(r.state, a) <==> a in owners) && (a in r.state.genesisMiners <==> a in owners) &&
         r.state.banningOperators == map[] && r.state.removingGenesisMiners == map[] && r.state.miners == map[])
  {
    if operators != [] && owners != [] {
      assert InFavour(FoundingVotes(owners[0])) == {owners[0]};
    }
    assert InFavour(FoundingVotes(a)) == {a};
  }

  // ---- What every reachable state satisfies ----

  /** Removal ballots are open and about records that exist; miners are distinct. */
  ghost predicate Orderly(s: State) {
    && s.banningOperators.Keys <= s.operators.Keys
    && s.removingGenesisMiners.Keys <= s.genesisMiners.Keys
    && (forall topic, a :: Removes(topic) && a in Ballots(s, topic) ==> !Approved(Ballots(s, topic)[a]))
    && DistinctMiners(s)
  }

  lemma InstantiateOrderly(operators: seq<Account>, owners: seq<Account>)
    requires Instantiate(EMPTY, operators, owners).Ok?
    ensures Orderly(Instantiate(EMPTY, operators, owners).state)
  {
  }

  lemma RemovalsStayOpen(s: State, m: Message, accepted: bool, after: State, topic: Topic, a: Account)
    requires Effect(s, m, accepted, after) && Removes(topic) && a in Ballots(after, topic)
    requires a in Ballots(s, topic) ==> !Approved(Ballots(s, topic)[a]) && a in Ballots(s, Target(topic))
    ensures !Approved(Ballots(after, topic)[a]) && a in Ballots(after, Target(topic))
  {
    StepBallots(s, m, accepted, after, topic, a);
    if a in Ballots(s, Target(topic)) {
      LossFromEffect(s, m, accepted, after, Target(topic), a);
    }
  }

  lemma MinersStayDistinct(s: State, m: Message)
    requires DistinctMiners(s)
    ensures DistinctMiners(Step(s, m))
  {
    if Accepted(s, m) && m.Approve? {
      VoteBallots(s, m.topic, m.owner, m.operator);
    } else if Accepted(s, m) && m.Propose? {
      OpenBallots(s, m.topic, m.owner);
      VoteBallots(Open(s, m.topic, m.owner).state, m.topic, m.owner, m.operator);
    }
  }

  lemma {:induction false} RunIsOrderly(start: State, ms: seq<Message>)
    requires Orderly(start)
    ensures Orderly(Run(start, ms))
  {
    if ms != [] {
      var s, m := Run(start, ms[..|ms| - 1]), ms[|ms| - 1];
      RunIsOrderly(start, ms[..|ms| - 1]);
      StepEffect(s, m);
      OrderlyStep(s, m, Accepted(s, m), Step(s, m));
      MinersStayDistinct(s, m);
    }
  }

  lemma OrderlyStep(s: State, m: Message, accepted: bool, after: State)
    requires Orderly(s) && Effect(s, m, accepted, after)
    ensures DistinctMiners(after) ==> Orderly(after)
  {
    forall topic, a | Removes(topic) && a in Ballots(after, topic)
      ensures !Approved(Ballots(after, topic)[a]) && a in Ballots(after, Target(topic))
    {
      assert a in Ballots(s, topic) ==> a in Ballots(s, Target(topic));
      RemovalsStayOpen(s, m, accepted, after, topic, a);
    }
    forall a | a in after.banningOperators ensures a in after.operators {
      assert a in Ballots(after, BanningOperator) && Target(BanningOperator) == AddingOperator;
      assert a in Ballots(after, Target(BanningOperator));
    }
    forall a | a in after.removingGenesisMiners ensures a in after.genesisMiners {
      assert a in Ballots(after, RemovingMiner) && Target(RemovingMiner) == AddingMiner;
      assert a in Ballots(after, Target(RemovingMiner));
    }
  }

  /** After any run from instantiation a registered miner is found by its account owner, in every listing order. */
  lemma RegisteredMinersAreFound(operators: seq<Account>, owners: seq<Account>, ms: seq<Message>, a: Account,
                                 keys: seq<Account>, genesisKeys: seq<Account>)
    requires Instantiate(EMPTY, operators, owners).Ok?
    requires var s := Run(Instantiate(EMPTY, operators, owners).state, ms); a in s.miners && Enumerates(keys, s.miners)
    ensures var s := Run(Instantiate(EMPTY, operators, owners).state, ms);
      s.miners[a].owner == a && Lookup(s, keys, genesisKeys, a.owner) == Some(s.miners[a])
  {
    InstantiateOrderly(operators, owners);
    RunIsOrderly(Instantiate(EMPTY, operators, owners).state, ms);
    RegisteredIsFound(Run(Instantiate(EMPTY, operators, owners).state, ms), keys, genesisKeys, a);
  }

  // ---- Governance can end ----

  ghost predicate Governed(s: State) {
    exists a :: ValidOperator(s, a)
  }

  lemma UngovernedStep(s: State, m: Message, accepted: bool, after: State)
    requires !Governed(s) && Effect(s, m, accepted, after)
    ensures !Governed(after) && forall t :: Ballots(after, t) == Ballots(s, t)
  {
    assert !(accepted && CastsVote(m));
    assert Ballots(after, AddingOperator) == Ballots(s, AddingOperator);
    if a :| ValidOperator(after, a) {
      assert ValidOperator(s, a);
    }
  }

  /** Without an approved operator no record ever changes again. */
  lemma {:induction false} UngovernedIsFrozen(s: State, ms: seq<Message>)
    requires !Governed(s)
    ensures !Governed(Run(s, ms)) && forall t :: Ballots(Run(s, ms), t) == Ballots(s, t)
  {
    if ms != [] {
      var before, m := Run(s, ms[..|ms| - 1]), ms[|ms| - 1];
      UngovernedIsFrozen(s, ms[..|ms| - 1]);
      StepEffect(before, m);
      UngovernedStep(before, m, Accepted(before, m), Step(before, m));
    }
  }

  /** An approved operator stays one except through the message that completes its ban. */
  lemma OperatorKept(s: State, m: Message, accepted: bool, after: State, a: Account)
    requires Effect(s, m, accepted, after) && ValidOperator(s, a)
    ensures ValidOperator(after, a) <==> !Completes(s, m, accepted, BanningOperator, a)
  {
    LossFromEffect(s, m, accepted, after, AddingOperator, a);
    if a in Ballots(after, AddingOperator) {
      StepBallots(s, m, accepted, after, AddingOperator, a);
      var v, w := Ballots(s, AddingOperator)[a], Ballots(after, AddingOperator)[a];
      assert InFavour(v) <= InFavour(w);
      Subset(InFavour(v), InFavour(w));
    }
  }

  lemma Subset(a: set<Account>, b: set<Account>)
    requires a <= b
    ensures |a| <= |b|
  {
    assert b == a + (b - a);
  }

  /** The message completes the ban of the only approved operator. */
  ghost predicate EndsGovernance(s: State, m: Message) {
    exists a :: Completes(s, m, Accepted(s, m), BanningOperator, a) && forall b :: ValidOperator(s, b) ==> b == a
  }

  /** Governance ends in one message exactly when that message completes the ban of the only approved operator. */
  lemma GovernanceEndsExactly(s: State, m: Message)
    requires Governed(s)
    ensures !Governed(Step(s, m)) <==> EndsGovernance(s, m)
  {
    var accepted, after := Accepted(s, m), Step(s, m);
    StepEffect(s, m);
    LastOperator(s, m, accepted, after);
  }

  lemma LastOperator(s: State, m: Message, accepted: bool, after: State)
    requires Governed(s) && Effect(s, m, accepted, after)
    ensures !Governed(after) <==>
      exists a :: Completes(s, m, accepted, BanningOperator, a) && forall b :: ValidOperator(s, b) ==> b == a
  {
    var a :| ValidOperator(s, a);
    OperatorKept(s, m, accepted, after, a);
    if !Governed(after) {
      assert !ValidOperator(after, a);
      forall b | ValidOperator(s, b) ensures b == a {
        assert !ValidOperator(after, b);
        OperatorKept(s, m, accepted, after, b);
      }
    } else {
      var c :| ValidOperator(after, c);
      forall b | Completes(s, m, accepted, BanningOperator, b) && ValidOperator(s, b) ensures ValidOperator(s, c) && c != b {
        OperatorKept(s, m, accepted, after, b);
        StepBallots(s, m, accepted, after, AddingOperator, c);
      }
    }
  }

  /** Some message of the run ends governance. */
  ghost predicate EndsWithin(s: State, ms: seq<Message>) {
    ms != [] &&
    var front, m := ms[..|ms| - 1], ms[|ms| - 1];
    EndsWithin(s, front) || (Governed(Run(s, front)) && EndsGovernance(Run(s, front), m))
  }

  /** A run ends ungoverned exactly when one of its messages completes the ban of the only approved operator. */
  lemma {:induction false} RunEndsExactly(s: State, ms: seq<Message>)
    requires Governed(s)
    ensures !Governed(Run(s, ms)) <==> EndsWithin(s, ms)
  {
    if ms != [] {
      var front, m := ms[..|ms| - 1], ms[|ms| - 1];
      var mid := Run(s, front);
      RunEndsExactly(s, front);
      if Governed(mid) {
        GovernanceEndsExactly(mid, m);
      } else {
        StepEffect(mid, m);
        UngovernedStep(mid, m, Accepted(mid, m), Step(mid, m));
      }
    }
  }

  /** A sole operator is able to bring that about in one message, by banning itself. */
  lemma SoleOperatorCanResign(s: State, a: Account)
    requires s.operators.Keys == {a} && ValidOperator(s, a) && a !in s.banningOperators
    ensures !Governed(Step(s, Propose(BanningOperator, a, a)))
  {
    var v := Votes(map[a := true], 1);
    assert InFavour(v) == {a};
    assert s.operators.Keys == {a} && |s.operators| == |s.operators.Keys|;
    assert Cast(InitialApproval(s), a, true) == Some(v);
  }

  /** The sole founder of an instantiated proxy is in that position from the start. */
  lemma FounderCanResign(a: Account, owner: Account)
    ensures var r := Instantiate(EMPTY, [a], [owner]);
      r.Ok? && Governed(r.state) && !Governed(Step(r.state, Propose(BanningOperator, a, a)))
  {
    var s := Instantiate(EMPTY, [a], [owner]).state;
    assert InFavour(FoundingVotes(owner)) == {owner};
    assert s.operators == map[a := FoundingVotes(owner)];
    assert ValidOperator(s, a);
    SoleOperatorCanResign(s, a);
  }
}
