/** The proxy contract's stored state, updated in place in the order the contract writes its views. */
module ProxyContract {
  import opened Common
  import opened Approvals
  import Ledger = ProxyLedger
  import opened ProxyLedger
  import opened MinerRegistry

  lemma FoundersStep(before: map<Account, Votes>, founders: seq<Account>, i: nat, voter: Account)
    requires i < |founders|
    ensures before + Founders(founders[..i + 1], voter) == (before + Founders(founders[..i], voter))[founders[i] := FoundingVotes(voter)]
    ensures before + Founders(founders[..0], voter) == before
  {
    assert founders[..i + 1] == founders[..i] + [founders[i]];
  }

  lemma FoundingMinersStep(before: map<Account, GenesisMiner>, owners: seq<Account>, i: nat)
    requires i < |owners|
    ensures before + FoundingMiners(owners[..i + 1])
         == (before + FoundingMiners(owners[..i]))[owners[i] := GenesisMiner(owners[i], FoundingVotes(owners[i]))]
  {
    assert owners[..i + 1] == owners[..i] + [owners[i]];
  }

  class ProxyState {
    var operators: map<Account, Votes>
    var banningOperators: map<Account, Votes>
    var genesisMiners: map<Account, GenesisMiner>
    var removingGenesisMiners: map<Account, Votes>
    var miners: map<Account, Miner>

    function View(): State
      reads this
    {
      State(operators, banningOperators, genesisMiners, removingGenesisMiners, miners)
    }

    constructor ()
      ensures View() == EMPTY
    {
      operators, banningOperators, genesisMiners, removingGenesisMiners, miners := map[], map[], map[], map[], map[];
    }

    method AppointFounders(founders: seq<Account>, owners: seq<Account>) returns (r: Status<()>)
      modifies this`operators
      ensures founders != [] && owners == [] ==> r == Panicked
      ensures founders == [] ==> r == Done(()) && operators == old(operators)
      ensures founders != [] && owners != [] ==> r == Done(()) && operators == old(operators) + Founders(founders, owners[0])
    {
      for i := 0 to |founders|
        invariant i > 0 ==> owners != []
        invariant operators == if i == 0 then old(operators) else old(operators) + Founders(founders[..i], owners[0])
      {
        var approval := new Approval(1);
        if |owners| == 0 {
          return Panicked;
        }
        var _ := approval.Approve(owners[0]);
        FoundersStep(old(operators), founders, i, owners[0]);
        operators := operators[founders[i] := approval.View()];
      }
      assert founders[..|founders|] == founders;
      return Done(());
    }

    method EnrolOwners(owners: seq<Account>)
      modifies this`genesisMiners
      ensures genesisMiners == old(genesisMiners) + FoundingMiners(owners)
    {
      for i := 0 to |owners|
        invariant genesisMiners == old(genesisMiners) + FoundingMiners(owners[..i])
      {
        var approval := new Approval(1);
        var _ := approval.Approve(owners[i]);
        FoundingMinersStep(old(genesisMiners), owners, i);
        genesisMiners := genesisMiners[owners[i] := GenesisMiner(owners[i], approval.View())];
      }
      assert owners[..|owners|] == owners;
    }

    method Instantiate(founders: seq<Account>, owners: seq<Account>) returns (r: Status<()>)
      modifies this
      ensures Matches(Ledger.Instantiate(old(View()), founders, owners), View(), r)
    {
      var _ :- AppointFounders(founders, owners);
      EnrolOwners(owners);
      return Done(());
    }

    /** A fresh ballot for a proposal made now. */
    method OpenBallot() returns (v: Votes)
      ensures v == InitialApproval(View())
    {
      var approval := new Approval(Max(|operators| * 2 / 3, 1));
      v := approval.View();
    }

    method ValidateOperator(owner: Account) returns (r: Status<()>)
      ensures r == if ValidOperator(View(), owner) then Done(()) else Panicked
    {
      if owner !in operators || !Approved(operators[owner]) {
        return Panicked;
      }
      return Done(());
    }

    method AddOperator(owner: Account) returns (r: Status<()>)
      modifies this
      ensures Matches(Ledger.AddOperator(old(View()), owner), View(), r)
    {
      if owner in operators {
        return Panicked;
      }
      var approval := OpenBallot();
      operators := operators[owner := approval];
      return Done(());
    }

    method ApproveAddOperator(owner: Account, operator: Account) returns (r: Status<()>)
      modifies this
      ensures Matches(Ledger.ApproveAddOperator(old(View()), owner, operator), View(), r)
    {
      if owner !in operators {
        return Panicked;
      }
      var approval := new Approval.Load(operators[owner]);
      var _ :- approval.Approve(operator);
      operators := operators[owner := approval.View()];
      return Done(());
    }

    method BanOperator(owner: Account) returns (r: Status<()>)
      modifies this
      ensures Matches(Ledger.BanOperator(old(View()), owner), View(), r)
    {
      if owner !in operators || owner in banningOperators {
        return Panicked;
      }
      var approval := OpenBallot();
      banningOperators := banningOperators[owner := approval];
      return Done(());
    }

    method ApproveBanOperator(owner: Account, operator: Account) returns (r: Status<()>)
      modifies this
      ensures Matches(Ledger.ApproveBanOperator(old(View()), owner, operator), View(), r)
    {
      if owner !in banningOperators {
        return Panicked;
      }
      var approval := new Approval.Load(banningOperators[owner]);
      var _ :- approval.Approve(operator);
      if Approved(approval.View()) {
        banningOperators := banningOperators - {owner};
        operators := operators - {owner};
        return Done(());
      }
      banningOperators := banningOperators[owner := approval.View()];
      return Done(());
    }

    method AddGenesisMiner(owner: Account) returns (r: Status<()>)
      modifies this
      ensures Matches(Ledger.AddGenesisMiner(old(View()), owner), View(), r)
    {
      if owner in genesisMiners {
        return Panicked;
      }
      var approval := OpenBallot();
      genesisMiners := genesisMiners[owner := GenesisMiner(owner, approval)];
      return Done(());
    }

    method ApproveAddGenesisMiner(owner: Account, operator: Account) returns (r: Status<()>)
      modifies this
      ensures Matches(Ledger.ApproveAddGenesisMiner(old(View()), owner, operator), View(), r)
    {
      if owner !in genesisMiners {
        return Panicked;
      }
      var miner := genesisMiners[owner];
      var approval := new Approval.Load(miner.approval);
      var _ :- approval.Approve(operator);
      genesisMiners := genesisMiners[owner := miner.(approval := approval.View())];
      return Done(());
    }

    method RemoveGenesisMiner(owner: Account) returns (r: Status<()>)
      modifies this
      ensures Matches(Ledger.RemoveGenesisMiner(old(View()), owner), View(), r)
    {
      if owner in removingGenesisMiners {
        return Done(());
      }
      if owner !in genesisMiners {
        return Failed;
      }
      var approval := OpenBallot();
      removingGenesisMiners := removingGenesisMiners[owner := approval];
      return Done(());
    }

    method ApproveRemoveGenesisMiner(owner: Account, operator: Account) returns (r: Status<()>)
      modifies this
      ensures Matches(Ledger.ApproveRemoveGenesisMiner(old(View()), owner, operator), View(), r)
    {
      if owner !in removingGenesisMiners {
        return Panicked;
      }
      var approval := new Approval.Load(removingGenesisMiners[owner]);
      var _ :- approval.Approve(operator);
      if Approved(approval.View()) {
        removingGenesisMiners := removingGenesisMiners - {owner};
        genesisMiners := genesisMiners - {owner};
        return Done(());
      }
      removingGenesisMiners := removingGenesisMiners[owner := approval.View()];
      return Done(());
    }

    // ---- Miners; the key lists are the orders in which the stored maps are read ----

    method GenesisMiners(genesisKeys: seq<Account>) returns (list: seq<Miner>)
      requires Enumerates(genesisKeys, genesisMiners)
      ensures list == GenesisList(View(), genesisKeys)
    {
      list := [];
      for i := 0 to |genesisKeys|
        invariant list == GenesisList(View(), genesisKeys[..i])
      {
        var owner := genesisKeys[i];
        assert genesisKeys[..i + 1][..i] == genesisKeys[..i];
        if Approved(genesisMiners[owner].approval) {
          list := list + [Miner(owner, 0)];
        }
      }
      assert genesisKeys[..|genesisKeys|] == genesisKeys;
    }

    method Miners(keys: seq<Account>, genesisKeys: seq<Account>) returns (list: seq<Miner>)
      requires Enumerates(keys, miners) && Enumerates(genesisKeys, genesisMiners)
      ensures list == MinerList(View(), keys, genesisKeys)
    {
      var genesis := GenesisMiners(genesisKeys);
      list := seq(|keys|, i requires 0 <= i < |keys| reads this requires keys[i] in miners => miners[keys[i]]) + genesis;
    }

    method RegisterMiner(keys: seq<Account>, genesisKeys: seq<Account>, owner: Account, now: Timestamp) returns (r: Status<()>)
      requires Enumerates(keys, miners) && Enumerates(genesisKeys, genesisMiners)
      modifies this
      ensures Matches(Ledger.RegisterMiner(old(View()), owner, now), View(), r)
    {
      var list := Miners(keys, genesisKeys);
      ListedExactly(View(), keys, genesisKeys, owner.owner);
      var same := 0;
      for i := 0 to |list|
        invariant 0 <= same <= i
        invariant same == 0 <==> forall j :: 0 <= j < i ==> list[j].owner.owner != owner.owner
      {
        if list[i].owner.owner == owner.owner {
          same := same + 1;
        }
      }
      if same != 0 {
        return Panicked;
      }
      miners := miners[owner := Miner(owner, now)];
      return Done(());
    }

    method DeregisterMiner(owner: Account) returns (r: Status<()>)
      modifies this
      ensures Matches(Ledger.DeregisterMiner(old(View()), owner), View(), r)
    {
      if owner !in miners {
        return Failed;
      }
      miners := miners - {owner};
      return Done(());
    }

    method GetMinerWithAccountOwner(keys: seq<Account>, genesisKeys: seq<Account>, owner: AccountOwner) returns (r: Status<Miner>)
      requires Enumerates(keys, miners) && Enumerates(genesisKeys, genesisMiners)
      ensures match Lookup(View(), keys, genesisKeys, owner)
              case None => r == Failed
              case Some(miner) => r == Done(miner)
    {
      var list := Miners(keys, genesisKeys);
      var i := 0;
      while i < |list| && list[i].owner.owner != owner
        invariant 0 <= i <= |list|
        invariant FirstOf(list, owner) == FirstOf(list[i..], owner)
      {
        assert list[i..][1..] == list[i + 1..];
        i := i + 1;
      }
      if i == |list| {
        return Failed;
      }
      return Done(list[i]);
    }
  }
}
