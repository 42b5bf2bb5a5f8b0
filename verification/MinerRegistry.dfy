/** Looking miners up by owner: the order in which the maps list their keys, and when it matters. */
module MinerRegistry {
  import opened Common
  import opened Approvals
  import opened ProxyLedger

  /** An order in which a stored map may list its keys: each key once. */
  ghost predicate Enumerates<V>(keys: seq<Account>, m: map<Account, V>) {
    (forall a :: a in keys <==> a in m) && forall i, j :: 0 <= i < j < |keys| ==> keys[i] != keys[j]
  }

  function GenesisList(s: State, keys: seq<Account>): seq<Miner> {
    if keys == [] then [] else
      var front, a := keys[..|keys| - 1], keys[|keys| - 1];
      GenesisList(s, front) + if ApprovedGenesis(s, a) then [Miner(a, 0)] else []
  }

  function RegisteredList(s: State, keys: seq<Account>): seq<Miner>
    requires forall a :: a in keys ==> a in s.miners
  {
    seq(|keys|, i requires 0 <= i < |keys| => s.miners[keys[i]])
  }

  /** Registered miners first, then the approved genesis miners. */
  function MinerList(s: State, keys: seq<Account>, genesisKeys: seq<Account>): seq<Miner>
    requires forall a :: a in keys ==> a in s.miners
  {
    RegisteredList(s, keys) + GenesisList(s, genesisKeys)
  }

  function FirstOf(list: seq<Miner>, owner: AccountOwner): Option<Miner> {
    if list == [] then None
    else if list[0].owner.owner == owner then Some(list[0])
    else FirstOf(list[1..], owner)
  }

  function Lookup(s: State, keys: seq<Account>, genesisKeys: seq<Account>, owner: AccountOwner): Option<Miner>
    requires forall a :: a in keys ==> a in s.miners
  {
    FirstOf(MinerList(s, keys, genesisKeys), owner)
  }

  lemma {:induction false} GenesisListExact(s: State, keys: seq<Account>, miner: Miner)
    ensures miner in GenesisList(s, keys) <==> miner.owner in keys && ApprovedGenesis(s, miner.owner) && miner.registeredAt == 0
  {
    if keys != [] {
      var front, a := keys[..|keys| - 1], keys[|keys| - 1];
      assert keys == front + [a];
      GenesisListExact(s, front, miner);
    }
  }

  lemma {:induction false} FirstOfExact(list: seq<Miner>, owner: AccountOwner)
    ensures FirstOf(list, owner).None? <==> forall i :: 0 <= i < |list| ==> list[i].owner.owner != owner
    ensures FirstOf(list, owner).Some? ==> FirstOf(list, owner).value in list && FirstOf(list, owner).value.owner.owner == owner
  {
    if list != [] {
      FirstOfExact(list[1..], owner);
      assert forall i :: 1 <= i < |list| ==> list[i] == list[1..][i - 1];
    }
  }

  lemma {:induction false} FirstOfConcat(a: seq<Miner>, b: seq<Miner>, owner: AccountOwner)
    ensures FirstOf(a + b, owner) == if FirstOf(a, owner).Some? then FirstOf(a, owner) else FirstOf(b, owner)
  {
    if a == [] {
      assert a + b == b;
    } else {
      FirstOfConcat(a[1..], b, owner);
      assert (a + b)[1..] == a[1..] + b;
    }
  }

  // ---- What a lookup returns ----

  /** Each registered miner sits under its own account, and no two share an account owner. */
  ghost predicate DistinctMiners(s: State) {
    && (forall a :: a in s.miners ==> s.miners[a].owner == a)
    && forall a, b :: a in s.miners && b in s.miners && a.owner == b.owner ==> a == b
  }

  /** A registered miner is found whatever the listing order and whatever genesis miners there are. */
  lemma RegisteredIsFound(s: State, keys: seq<Account>, genesisKeys: seq<Account>, a: Account)
    requires DistinctMiners(s) && a in s.miners && Enumerates(keys, s.miners)
    ensures Lookup(s, keys, genesisKeys, a.owner) == Some(s.miners[a])
  {
    var registered := RegisteredList(s, keys);
    var i :| 0 <= i < |keys| && keys[i] == a;
    assert registered[i] == s.miners[a];
    FirstOfExact(registered, a.owner);
    FirstOfConcat(registered, GenesisList(s, genesisKeys), a.owner);
    var found := FirstOf(registered, a.owner).value;
    var j :| 0 <= j < |keys| && registered[j] == found;
    assert found.owner == keys[j];
  }

  lemma UnregisteredUsesGenesis(s: State, keys: seq<Account>, genesisKeys: seq<Account>, owner: AccountOwner)
    requires DistinctMiners(s) && !Registered(s, owner) && Enumerates(keys, s.miners)
    ensures Lookup(s, keys, genesisKeys, owner) == FirstOf(GenesisList(s, genesisKeys), owner)
  {
    FirstOfExact(RegisteredList(s, keys), owner);
    FirstOfConcat(RegisteredList(s, keys), GenesisList(s, genesisKeys), owner);
  }

  /** A registered miner of that owner, or an approved genesis miner when nobody registered it. */
  ghost predicate Serves(s: State, owner: AccountOwner, miner: Miner) {
    && miner.owner.owner == owner
    && if Registered(s, owner) then miner.owner in s.miners && miner == s.miners[miner.owner]
       else ApprovedGenesis(s, miner.owner) && miner.registeredAt == 0
  }

  /** A lookup fails exactly for owners that registration would accept; otherwise it returns a listed miner. */
  lemma LookupExact(s: State, keys: seq<Account>, genesisKeys: seq<Account>, owner: AccountOwner)
    requires DistinctMiners(s) && Enumerates(keys, s.miners) && Enumerates(genesisKeys, s.genesisMiners)
    ensures var found := Lookup(s, keys, genesisKeys, owner);
      (found.Some? <==> Registered(s, owner) || GenesisHolds(s, owner)) &&
      (found.Some? ==> Serves(s, owner, found.value))
  {
    if Registered(s, owner) {
      var a :| a in s.miners && s.miners[a].owner.owner == owner;
      RegisteredIsFound(s, keys, genesisKeys, a);
    } else {
      UnregisteredUsesGenesis(s, keys, genesisKeys, owner);
      var list := GenesisList(s, genesisKeys);
      FirstOfExact(list, owner);
      if GenesisHolds(s, owner) {
        var a :| a in s.genesisMiners && ApprovedGenesis(s, a) && a.owner == owner;
        GenesisListExact(s, genesisKeys, Miner(a, 0));
      }
      if FirstOf(list, owner).Some? {
        GenesisListExact(s, genesisKeys, FirstOf(list, owner).value);
      }
    }
  }

  ghost predicate Lists(list: seq<Miner>, owner: AccountOwner) {
    exists i :: 0 <= i < |list| && list[i].owner.owner == owner
  }

  lemma ListsConcat(a: seq<Miner>, b: seq<Miner>, owner: AccountOwner)
    ensures Lists(a + b, owner) <==> Lists(a, owner) || Lists(b, owner)
  {
    if i :| 0 <= i < |a| && a[i].owner.owner == owner {
      assert (a + b)[i] == a[i];
    }
    if i :| 0 <= i < |b| && b[i].owner.owner == owner {
      assert (a + b)[|a| + i] == b[i];
    }
  }

  lemma RegisteredListExact(s: State, keys: seq<Account>, owner: AccountOwner)
    requires Enumerates(keys, s.miners)
    ensures Lists(RegisteredList(s, keys), owner) <==> Registered(s, owner)
  {
    var list := RegisteredList(s, keys);
    if i :| 0 <= i < |list| && list[i].owner.owner == owner {
      assert keys[i] in s.miners && list[i] == s.miners[keys[i]];
    }
    if a :| a in s.miners && s.miners[a].owner.owner == owner {
      var i :| 0 <= i < |keys| && keys[i] == a;
      assert list[i] == s.miners[a];
    }
  }

  lemma GenesisListed(s: State, keys: seq<Account>, owner: AccountOwner)
    requires Enumerates(keys, s.genesisMiners)
    ensures Lists(GenesisList(s, keys), owner) <==> GenesisHolds(s, owner)
  {
    var list := GenesisList(s, keys);
    if i :| 0 <= i < |list| && list[i].owner.owner == owner {
      GenesisListExact(s, keys, list[i]);
    }
    if a :| a in s.genesisMiners && ApprovedGenesis(s, a) && a.owner == owner {
      GenesisListExact(s, keys, Miner(a, 0));
      var i :| 0 <= i < |list| && list[i] == Miner(a, 0);
    }
  }

  /** The listing holds a miner of this owner exactly when registration must refuse it. */
  lemma ListedExactly(s: State, keys: seq<Account>, genesisKeys: seq<Account>, owner: AccountOwner)
    requires Enumerates(keys, s.miners) && Enumerates(genesisKeys, s.genesisMiners)
    ensures Lists(MinerList(s, keys, genesisKeys), owner) <==> Registered(s, owner) || GenesisHolds(s, owner)
  {
    ListsConcat(RegisteredList(s, keys), GenesisList(s, genesisKeys), owner);
    RegisteredListExact(s, keys, owner);
    GenesisListed(s, genesisKeys, owner);
  }

  /** No two approved genesis miners share this account owner. */
  ghost predicate OneGenesis(s: State, owner: AccountOwner) {
    forall a, b :: ApprovedGenesis(s, a) && ApprovedGenesis(s, b) && a.owner == owner && b.owner == owner ==> a == b
  }

  ghost predicate OrderFree(s: State, owner: AccountOwner) {
    forall k1, g1, k2, g2 ::
      Enumerates(k1, s.miners) && Enumerates(k2, s.miners) && Enumerates(g1, s.genesisMiners) && Enumerates(g2, s.genesisMiners) ==>
        Lookup(s, k1, g1, owner) == Lookup(s, k2, g2, owner)
  }

  /** The listing order matters exactly when the owner is not registered and two approved genesis miners share it. */
  lemma OrderFreeExactly(s: State, owner: AccountOwner)
    requires DistinctMiners(s)
    ensures OrderFree(s, owner) <==> Registered(s, owner) || OneGenesis(s, owner)
  {
    if Registered(s, owner) {
      RegisteredIsOrderFree(s, owner);
    } else if OneGenesis(s, owner) {
      OneGenesisIsOrderFree(s, owner);
    } else {
      var a, b :| ApprovedGenesis(s, a) && ApprovedGenesis(s, b) && a.owner == owner && b.owner == owner && a != b;
      var keys := Enumerate(s.miners.Keys);
      var g1 := ListFirst(s, keys, a);
      var g2 := ListFirst(s, keys, b);
      assert Enumerates(keys, s.miners) && Lookup(s, keys, g1, owner) != Lookup(s, keys, g2, owner);
    }
  }

  lemma RegisteredIsOrderFree(s: State, owner: AccountOwner)
    requires DistinctMiners(s) && Registered(s, owner)
    ensures OrderFree(s, owner)
  {
    var a :| a in s.miners && s.miners[a].owner.owner == owner;
    forall k1, g1, k2, g2 | Enumerates(k1, s.miners) && Enumerates(k2, s.miners) &&
                            Enumerates(g1, s.genesisMiners) && Enumerates(g2, s.genesisMiners)
      ensures Lookup(s, k1, g1, owner) == Lookup(s, k2, g2, owner)
    {
      RegisteredIsFound(s, k1, g1, a);
      RegisteredIsFound(s, k2, g2, a);
    }
  }

  lemma OneGenesisIsOrderFree(s: State, owner: AccountOwner)
    requires DistinctMiners(s) && !Registered(s, owner) && OneGenesis(s, owner)
    ensures OrderFree(s, owner)
  {
    forall k1, g1, k2, g2 | Enumerates(k1, s.miners) && Enumerates(k2, s.miners) &&
                            Enumerates(g1, s.genesisMiners) && Enumerates(g2, s.genesisMiners)
      ensures Lookup(s, k1, g1, owner) == Lookup(s, k2, g2, owner)
    {
      LookupExact(s, k1, g1, owner);
      LookupExact(s, k2, g2, owner);
    }
  }

  lemma {:induction false} Enumerate(accounts: set<Account>) returns (keys: seq<Account>)
    ensures (forall a :: a in keys <==> a in accounts) && forall i, j :: 0 <= i < j < |keys| ==> keys[i] != keys[j]
    decreases |accounts|
  {
    if accounts == {} {
      keys := [];
    } else {
      var a :| a in accounts;
      var rest := Enumerate(accounts - {a});
      keys := [a] + rest;
    }
  }

  /** Some listing order puts a given approved genesis miner first. */
  lemma ListFirst(s: State, keys: seq<Account>, a: Account) returns (genesisKeys: seq<Account>)
    requires DistinctMiners(s) && !Registered(s, a.owner) && ApprovedGenesis(s, a) && Enumerates(keys, s.miners)
    ensures Enumerates(genesisKeys, s.genesisMiners) && Lookup(s, keys, genesisKeys, a.owner) == Some(Miner(a, 0))
  {
    var rest := Enumerate(s.genesisMiners.Keys - {a});
    genesisKeys := [a] + rest;
    UnregisteredUsesGenesis(s, keys, genesisKeys, a.owner);
    GenesisStartsWith(s, a, rest);
  }

  lemma {:induction false} GenesisStartsWith(s: State, a: Account, rest: seq<Account>)
    requires ApprovedGenesis(s, a)
    ensures GenesisList(s, [a] + rest) != [] && GenesisList(s, [a] + rest)[0] == Miner(a, 0)
  {
    var keys := [a] + rest;
    if rest == [] {
      assert keys == [a] && keys[..0] == [];
    } else {
      assert keys[..|keys| - 1] == [a] + rest[..|rest| - 1];
      GenesisStartsWith(s, a, rest[..|rest| - 1]);
    }
  }

  /**
   * Founding owners all sit on the proxy's chain, so instantiation cannot share an account owner; one message can: the
   * founding operator proposes a genesis miner with a founding owner's account owner on another chain.
   */
  lemma SharedOwnersAreReachable(op: Account, a: Account, b: Account)
    requires a != b && a.owner == b.owner
    ensures var r := Instantiate(EMPTY, [op], [a]);
      r.Ok? &&
      var s := Step(r.state, Propose(AddingMiner, op, b));
      DistinctMiners(s) && !OrderFree(s, a.owner)
  {
    FoundedByOne(op, a);
    var s0 := Instantiate(EMPTY, [op], [a]).state;
    ProposedMiner(s0, op, b);
    TwoGenesisMiners(Step(s0, Propose(AddingMiner, op, b)), a, b);
  }

  lemma FoundedByOne(op: Account, a: Account)
    ensures var r := Instantiate(EMPTY, [op], [a]);
      r.Ok? && r.state.operators.Keys == {op} && |r.state.operators| == 1 && ValidOperator(r.state, op) &&
      r.state.genesisMiners.Keys == {a} && ApprovedGenesis(r.state, a) && r.state.miners == map[]
  {
    VouchedFor(op, a);
    assert InFavour(FoundingVotes(a)) == {a};
    assert map[] + FoundingMiners([a]) == FoundingMiners([a]);
  }

  lemma VouchedFor(op: Account, a: Account)
    ensures var operators := map[] + Founders([op], a);
      operators.Keys == {op} && |operators| == 1 && operators[op] == FoundingVotes(a)
  {
    var operators := map[] + Founders([op], a);
    assert operators == map[op := FoundingVotes(a)];
  }

  lemma TwoGenesisMiners(s: State, a: Account, b: Account)
    requires s.miners == map[] && ApprovedGenesis(s, a) && ApprovedGenesis(s, b) && a != b && a.owner == b.owner
    ensures DistinctMiners(s) && !OrderFree(s, a.owner)
  {
    OrderFreeExactly(s, a.owner);
  }

  /** With one operator record a proposal passes at once. */
  lemma ProposedMiner(s: State, op: Account, b: Account)
    requires |s.operators| == 1 && ValidOperator(s, op) && b !in s.genesisMiners
    ensures Step(s, Propose(AddingMiner, op, b))
         == s.(genesisMiners := s.genesisMiners[b := GenesisMiner(b, Votes(map[op := true], 1))])
    ensures Approved(Votes(map[op := true], 1))
  {
    assert InFavour(Votes(map[op := true], 1)) == {op};
    assert map[][op := true] == map[op := true];
  }

  /** Founding owners of one chain have different account owners, so a founded proxy's lookups are order-free. */
  lemma FoundersAreOrderFree(operators: seq<Account>, owners: seq<Account>, owner: AccountOwner)
    requires Instantiate(EMPTY, operators, owners).Ok?
    requires forall i, j :: 0 <= i < |owners| && 0 <= j < |owners| ==> owners[i].chainId == owners[j].chainId
    ensures OrderFree(Instantiate(EMPTY, operators, owners).state, owner)
  {
    OrderFreeExactly(Instantiate(EMPTY, operators, owners).state, owner);
  }

  // ---- Registration ----

  /**
   * A registration is accepted exactly when nobody is found under its account owner. Then the account, and no other,
   * is added, it is found from then on, and deregistering it brings the records back to what they were.
   */
  lemma RegistrationExact(s: State, keys: seq<Account>, genesisKeys: seq<Account>, owner: Account, now: Timestamp)
    requires DistinctMiners(s) && Enumerates(keys, s.miners) && Enumerates(genesisKeys, s.genesisMiners)
    ensures var r := Handle(s, Register(owner, now));
      (r.Ok? <==> Lookup(s, keys, genesisKeys, owner.owner) == None) &&
      (r.Ok? ==>
         r.state.(miners := s.miners) == s && DistinctMiners(r.state) &&
         r.state.miners.Keys == s.miners.Keys + {owner} && r.state.miners[owner] == Miner(owner, now) &&
         (forall a :: a in s.miners ==> a != owner && r.state.miners[a] == s.miners[a]) &&
         Handle(r.state, Deregister(owner)) == Ok(s, ()))
  {
    LookupExact(s, keys, genesisKeys, owner.owner);
    if Handle(s, Register(owner, now)).Ok? {
      assert s.miners[owner := Miner(owner, now)] - {owner} == s.miners;
    }
  }

  /** A miner just registered is what its account owner looks up. */
  lemma RegisteredThenFound(s: State, owner: Account, now: Timestamp, keys: seq<Account>, genesisKeys: seq<Account>)
    requires DistinctMiners(s) && Handle(s, Register(owner, now)).Ok?
    requires Enumerates(keys, Handle(s, Register(owner, now)).state.miners)
    ensures Lookup(Handle(s, Register(owner, now)).state, keys, genesisKeys, owner.owner) == Some(Miner(owner, now))
  {
    RegisteredIsFound(Handle(s, Register(owner, now)).state, keys, genesisKeys, owner);
  }

  /** A deregistration is accepted exactly for a registered account and removes that account alone. */
  lemma DeregistrationExact(s: State, owner: Account)
    ensures var r := Handle(s, Deregister(owner));
      (r.Ok? <==> owner in s.miners) &&
      (r.Ok? ==>
         r.state.(miners := s.miners) == s && r.state.miners.Keys == s.miners.Keys - {owner} &&
         forall a :: a in r.state.miners ==> r.state.miners[a] == s.miners[a])
  {
  }
}
