/** Ballots with a fixed threshold: every account votes at most once. */
module Approvals {
  import opened Common

  datatype Votes = Votes(approvers: map<Account, bool>, leastApprovals: nat)

  function New(leastApprovals: nat): Votes {
    Votes(map[], leastApprovals)
  }

  predicate Voted(v: Votes, voter: Account) {
    voter in v.approvers
  }

  function InFavour(v: Votes): set<Account> {
    set a | a in v.approvers && v.approvers[a]
  }

  predicate Approved(v: Votes) {
    |InFavour(v)| >= v.leastApprovals
  }

  /** A second vote by the same account panics. */
  function Cast(v: Votes, voter: Account, inFavour: bool): Option<Votes> {
    if Voted(v, voter) then None else Some(v.(approvers := v.approvers[voter := inFavour]))
  }

  class Approval {
    var approvers: map<Account, bool>
    var leastApprovals: nat

    function View(): Votes
      reads this
    {
      Votes(approvers, leastApprovals)
    }

    constructor (leastApprovals: nat)
      ensures View() == New(leastApprovals)
    {
      approvers, this.leastApprovals := map[], leastApprovals;
    }

    /** A ballot read back from storage. */
    constructor Load(v: Votes)
      ensures View() == v
    {
      approvers, leastApprovals := v.approvers, v.leastApprovals;
    }

    method Approve(voter: Account) returns (r: Status<()>)
      modifies this
      ensures r.Panicked? <==> Voted(old(View()), voter)
      ensures r.Panicked? ==> View() == old(View())
      ensures !r.Panicked? ==> r == Done(()) && Cast(old(View()), voter, true) == Some(View())
    {
      if voter in approvers {
        return Panicked;
      }
      approvers := approvers[voter := true];
      return Done(());
    }

    method Reject(voter: Account) returns (r: Status<()>)
      modifies this
      ensures r.Panicked? <==> Voted(old(View()), voter)
      ensures r.Panicked? ==> View() == old(View())
      ensures !r.Panicked? ==> r == Done(()) && Cast(old(View()), voter, false) == Some(View())
    {
      if voter in approvers {
        return Panicked;
      }
      approvers := approvers[voter := false];
      return Done(());
    }
  }

  // ---- Whole ballots ----

  datatype Choice = Choice(voter: Account, inFavour: bool)

  /** All the votes cast on a ballot; a panicking vote is discarded with its block. */
  function CastAll(v: Votes, choices: seq<Choice>): Votes {
    if choices == [] then v else
      var before := CastAll(v, choices[..|choices| - 1]);
      var last := choices[|choices| - 1];
      Cast(before, last.voter, last.inFavour).GetOr(before)
  }

  /** An account's first vote, read from the front. */
  function FirstChoice(choices: seq<Choice>, voter: Account): Option<bool> {
    if choices == [] then None
    else if choices[0].voter == voter then Some(choices[0].inFavour)
    else FirstChoice(choices[1..], voter)
  }

  lemma {:induction false} FirstChoiceAppend(choices: seq<Choice>, last: Choice, voter: Account)
    ensures FirstChoice(choices + [last], voter) ==
      if FirstChoice(choices, voter).Some? then FirstChoice(choices, voter)
      else if last.voter == voter then Some(last.inFavour) else None
  {
    if choices != [] {
      FirstChoiceAppend(choices[1..], last, voter);
      assert (choices + [last])[1..] == choices[1..] + [last];
    }
  }

  function VoteOf(v: Votes, voter: Account): Option<bool> {
    if voter in v.approvers then Some(v.approvers[voter]) else None
  }

  /** The ballot records the first vote of every account, and nothing else. */
  lemma {:induction false} FirstVoteStands(least: nat, choices: seq<Choice>, voter: Account)
    ensures VoteOf(CastAll(New(least), choices), voter) == FirstChoice(choices, voter)
    ensures CastAll(New(least), choices).leastApprovals == least
  {
    if choices != [] {
      var front, last := choices[..|choices| - 1], choices[|choices| - 1];
      FirstVoteStands(least, front, voter);
      assert choices == front + [last];
      FirstChoiceAppend(front, last, voter);
    }
  }

  /** A ballot passes exactly when enough distinct accounts voted for it the first time they voted. */
  lemma ApprovedExactly(least: nat, choices: seq<Choice>, supporters: set<Account>)
    requires forall a :: a in supporters <==> FirstChoice(choices, a) == Some(true)
    ensures Approved(CastAll(New(least), choices)) <==> |supporters| >= least
  {
    var v := CastAll(New(least), choices);
    forall a ensures a in InFavour(v) <==> a in supporters {
      FirstVoteStands(least, choices, a);
    }
    FirstVoteStands(least, choices, Account(0, AccountOwner.Chain));
    assert InFavour(v) == supporters;
  }
}
