/**
 * The claim protocol between the pool and the meme ledgers: a fungible claim leaves the pool as a transfer request,
 * is paid, refused or bounced on the token's chain, and comes back as a receipt that settles it. Messages in flight
 * are a multiset; every event may interleave with every other.
 */
module ClaimProtocol {
  import opened Common
  import opened MapSums
  import opened PoolLedger
  import opened PoolMessages
  import opened PoolConservation
  import opened PoolClaims
  import Meme = MemeLedger
  import MemeConservation
  import MemeStatements

  datatype FungibleClaim = FungibleClaim(app: ApplicationId, owner: Account, amount: Amount)

  /** A message in flight for one claim. The identity is bookkeeping: the real messages carry the claim's fields. */
  datatype Mail =
    | Request(id: nat)
    | Bounced(id: nat)
    | Receipt(id: nat, paid: bool)
    | Settlement(id: nat, paid: bool)

  datatype World = World(
    pool: State,
    poolAccount: Account,
    memes: map<ApplicationId, Meme.State>,
    claims: seq<FungibleClaim>,
    mail: multiset<Mail>,
    // Receipts that bounced and settlements that were refused; nothing is done about either.
    lost: multiset<Mail>,
    // One entry per transfer made, per success settled and per amount returned to claimable.
    paid: multiset<nat>,
    delivered: multiset<nat>,
    restored: multiset<nat>)

  datatype Event =
    | Submit(owner: Account, app: ApplicationId, amount: Amount)
    | Pay(id: nat)
    | RejectRequest(id: nat)
    | AnswerBounce(id: nat)
    | ForwardReceipt(id: nat, success: bool)
    | RejectReceipt(id: nat, success: bool)
    | Settle(id: nat, success: bool)
    // Anything else either contract does.
    | OtherPool(c: Curve, m: Message)
    | OtherMeme(token: ApplicationId, mm: Meme.Message)

  function Replace(mail: multiset<Mail>, taken: Mail, put: Mail): multiset<Mail> {
    mail - multiset{taken} + multiset{put}
  }

  // ---- Events ----

  /** A message is delivered and answered by another. */
  function Redirect(w: World, taken: Mail, put: Mail): World {
    if taken in w.mail then w.(mail := Replace(w.mail, taken, put)) else w
  }

  function Opened(w: World, claim: FungibleClaim, pool: State): World {
    w.(pool := pool, claims := w.claims + [claim], mail := w.mail + multiset{Request(|w.claims|)})
  }

  function SubmitClaim(w: World, owner: Account, app: ApplicationId, amount: Amount): World {
    match HandleClaim(w.pool, FungibleClaimMessage(owner, app, amount))
    case None => w
    case Some(pool) => Opened(w, FungibleClaim(app, owner, amount), pool)
  }

  function Transferred(w: World, id: nat): Outcome<Meme.State, ()>
    requires id < |w.claims| && w.claims[id].app in w.memes
  {
    Meme.TransferEnsure(w.memes[w.claims[id].app], w.poolAccount, w.claims[id].owner, w.claims[id].amount)
  }

  /** The token's chain carries the request out, and reports success or failure in a receipt. */
  function PayClaim(w: World, id: nat): World {
    if Request(id) !in w.mail || id >= |w.claims| || w.claims[id].app !in w.memes then w else
    match Transferred(w, id)
    case Ok(ledger, _) => Redirect(w, Request(id), Receipt(id, true)).(
                            memes := w.memes[w.claims[id].app := ledger], paid := w.paid + multiset{id})
    case Err(_) => Redirect(w, Request(id), Receipt(id, false))
    case Panic => w
  }

  function Lose(w: World, x: Mail): World {
    if x in w.mail then w.(mail := w.mail - multiset{x}, lost := w.lost + multiset{x}) else w
  }

  function Book(w: World, id: nat, success: bool, pool: State): World {
    w.(pool := pool, mail := w.mail - multiset{Settlement(id, success)},
       delivered := if success then w.delivered + multiset{id} else w.delivered,
       restored := if success then w.restored else w.restored + multiset{id})
  }

  function SettleClaim(w: World, id: nat, success: bool): World {
    if Settlement(id, success) !in w.mail || id >= |w.claims| then w else
    match HandleReceipt(w.pool, SettlementMessage(w, id, success))
    // A settlement travels untracked: refused, it is gone.
    case None => Lose(w, Settlement(id, success))
    case Some(pool) => Book(w, id, success, pool)
  }

  function Next(w: World, e: Event): World {
    match e
    case Submit(owner, app, amount) => SubmitClaim(w, owner, app, amount)
    case Pay(id) => PayClaim(w, id)
    case RejectRequest(id) => Redirect(w, Request(id), Bounced(id))
    case AnswerBounce(id) => Redirect(w, Bounced(id), Receipt(id, false))
    case ForwardReceipt(id, success) => Redirect(w, Receipt(id, success), Settlement(id, success))
    case RejectReceipt(id, success) => Lose(w, Receipt(id, success))
    case Settle(id, success) => SettleClaim(w, id, success)
    case OtherPool(c, m) => if Unrelated(m) then w.(pool := Step(c, w.pool, m)) else w
    case OtherMeme(token, mm) => if token in w.memes then w.(memes := w.memes[token := Meme.Step(w.memes[token], mm)]) else w
  }

  function SettlementMessage(w: World, id: nat, success: bool): Message
    requires id < |w.claims|
  {
    ClaimReceipt(w.claims[id].owner, w.claims[id].app, w.claims[id].amount, success)
  }

  ghost function Play(w: World, es: seq<Event>): World {
    if |es| == 0 then w else Next(Play(w, es[..|es| - 1]), es[|es| - 1])
  }

  // ---- Invariant ----

  /** How many messages of a multiset belong to one claim, and how many of them report a payment. */
  function Count(mail: multiset<Mail>, id: nat): nat {
    mail[Request(id)] + mail[Bounced(id)] + mail[Receipt(id, true)] + mail[Receipt(id, false)] +
    mail[Settlement(id, true)] + mail[Settlement(id, false)]
  }

  function PaidCount(mail: multiset<Mail>, id: nat): nat {
    mail[Receipt(id, true)] + mail[Settlement(id, true)]
  }

  predicate Succeeded(mail: Mail) {
    (mail.Receipt? || mail.Settlement?) && mail.paid
  }

  /** Every place a claim can be: in flight, lost with its receipt, or settled. */
  function Places(w: World, id: nat): nat {
    Count(w.mail, id) + Count(w.lost, id) + w.delivered[id] + w.restored[id]
  }

  function PaidPlaces(w: World, id: nat): nat {
    PaidCount(w.mail, id) + PaidCount(w.lost, id) + w.delivered[id]
  }

  predicate Settled(w: World, id: nat) {
    w.delivered[id] + w.restored[id] > 0
  }

  /** What an owner's unsettled claims among the first n still hold back. */
  function Unsettled(w: World, app: ApplicationId, owner: Account, n: nat): nat
    requires n <= |w.claims|
  {
    if n == 0 then 0 else
    var claim := w.claims[n - 1];
    Unsettled(w, app, owner, n - 1) +
    if claim.app == app && claim.owner == owner && !Settled(w, n - 1) then claim.amount else 0
  }

  ghost predicate Inv(w: World) {
    && (forall id: nat :: Places(w, id) == if id < |w.claims| then 1 else 0)
    && (forall id: nat :: w.paid[id] == PaidPlaces(w, id))
    && (forall id :: 0 <= id < |w.claims| ==> w.claims[id].amount > 0 && w.pool.pool.Trades(Some(w.claims[id].app)))
    && ClaimingMatches(w)
  }

  /** The pool's claiming book is exactly the unsettled claims. */
  ghost predicate ClaimingMatches(w: World) {
    forall app: ApplicationId, owner: Account ::
      BalanceOf(w.pool.claiming, Fungible(app), owner) == Unsettled(w, app, owner, |w.claims|)
  }

  ghost predicate Initial(w: World) {
    && w.claims == [] && w.mail == multiset{} && w.lost == multiset{}
    && w.paid == multiset{} && w.delivered == multiset{} && w.restored == multiset{}
    && forall app: ApplicationId, owner: Account :: BalanceOf(w.pool.claiming, Fungible(app), owner) == 0
  }

  // ---- Sums of unsettled claims ----

  lemma {:induction false} UnsettledSame(w: World, w1: World, app: ApplicationId, owner: Account, n: nat)
    requires n <= |w.claims| <= |w1.claims|
    requires forall i :: 0 <= i < n ==> w1.claims[i] == w.claims[i] && Settled(w1, i) == Settled(w, i)
    ensures Unsettled(w1, app, owner, n) == Unsettled(w, app, owner, n)
  {
    if n > 0 {
      UnsettledSame(w, w1, app, owner, n - 1);
    }
  }

  lemma {:induction false} UnsettledDrops(w: World, w1: World, id: nat, app: ApplicationId, owner: Account, n: nat)
    requires id < n <= |w.claims| && w1.claims == w.claims
    requires !Settled(w, id) && Settled(w1, id)
    requires forall i :: 0 <= i < n && i != id ==> Settled(w1, i) == Settled(w, i)
    ensures var claim := w.claims[id];
      Unsettled(w, app, owner, n) == Unsettled(w1, app, owner, n) +
        if claim.app == app && claim.owner == owner then claim.amount else 0
  {
    if id < n - 1 {
      UnsettledDrops(w, w1, id, app, owner, n - 1);
    } else {
      UnsettledSame(w, w1, app, owner, n - 1);
    }
  }

  lemma {:induction false} UnsettledAtLeast(w: World, id: nat, n: nat)
    requires id < n <= |w.claims| && !Settled(w, id)
    ensures w.claims[id].amount <= Unsettled(w, w.claims[id].app, w.claims[id].owner, n)
  {
    if id < n - 1 {
      UnsettledAtLeast(w, id, n - 1);
    }
  }

  // ---- Each event keeps the invariant ----

  /** No claim changes the number of places it is in, and payments keep step with the places that record them. */
  ghost predicate SamePlaces(w: World, w1: World) {
    forall id: nat :: Places(w1, id) == Places(w, id) && w1.paid[id] + PaidPlaces(w, id) == w.paid[id] + PaidPlaces(w1, id)
  }

  /** Events that only move mail leave the books and the settled claims as they are. */
  lemma MailMoves(w: World, w1: World)
    requires Inv(w) && w1.pool == w.pool && w1.claims == w.claims && w1.delivered == w.delivered && w1.restored == w.restored
    requires SamePlaces(w, w1)
    ensures Inv(w1)
  {
    forall app: ApplicationId, owner: Account
      ensures Unsettled(w1, app, owner, |w.claims|) == Unsettled(w, app, owner, |w.claims|)
    {
      UnsettledSame(w, w1, app, owner, |w.claims|);
    }
  }

  lemma CountPut(mail: multiset<Mail>, x: Mail)
    ensures forall id: nat :: Count(mail + multiset{x}, id) == Count(mail, id) + if x.id == id then 1 else 0
    ensures forall id: nat :: PaidCount(mail + multiset{x}, id) == PaidCount(mail, id) + if x.id == id && Succeeded(x) then 1 else 0
  {
    forall id: nat
      ensures Count(mail + multiset{x}, id) == Count(mail, id) + if x.id == id then 1 else 0
      ensures PaidCount(mail + multiset{x}, id) == PaidCount(mail, id) + if x.id == id && Succeeded(x) then 1 else 0
    {
      forall y: Mail ensures (mail + multiset{x})[y] == mail[y] + if x == y then 1 else 0 {
      }
    }
  }

  lemma CountTake(mail: multiset<Mail>, x: Mail)
    requires x in mail
    ensures forall id: nat :: Count(mail, id) == Count(mail - multiset{x}, id) + if x.id == id then 1 else 0
    ensures forall id: nat :: PaidCount(mail, id) == PaidCount(mail - multiset{x}, id) + if x.id == id && Succeeded(x) then 1 else 0
  {
    CountPut(mail - multiset{x}, x);
    assert mail - multiset{x} + multiset{x} == mail;
  }

  lemma OpenedPlaces(w: World, claim: FungibleClaim, pool: State)
    requires Inv(w)
    ensures var w1 := Opened(w, claim, pool);
      !Settled(w, |w.claims|) && forall id: nat :: Places(w1, id) == (if id < |w1.claims| then 1 else 0) && PaidPlaces(w1, id) == PaidPlaces(w, id)
  {
    var w1 := Opened(w, claim, pool);
    assert Places(w, |w.claims|) == 0;
    CountPut(w.mail, Request(|w.claims|));
    forall id: nat ensures Places(w1, id) == (if id < |w1.claims| then 1 else 0) && PaidPlaces(w1, id) == PaidPlaces(w, id) {
      assert Places(w, id) == if id < |w.claims| then 1 else 0;
      assert Count(w1.mail, id) == Count(w.mail, id) + if |w.claims| == id then 1 else 0;
    }
  }

  lemma OpenedBooks(w: World, claim: FungibleClaim, pool: State)
    requires ClaimingMatches(w) && !Settled(w, |w.claims|)
    requires HandleClaim(w.pool, FungibleClaimMessage(claim.owner, claim.app, claim.amount)) == Some(pool)
    ensures ClaimingMatches(Opened(w, claim, pool))
  {
    var w1 := Opened(w, claim, pool);
    ClaimRaisesClaiming(w.pool, claim.owner, claim.app, claim.amount);
    forall a: ApplicationId, o: Account
      ensures BalanceOf(pool.claiming, Fungible(a), o) == Unsettled(w1, a, o, |w1.claims|)
    {
      UnsettledSame(w, w1, a, o, |w.claims|);
    }
  }

  lemma SubmitKeeps(w: World, owner: Account, app: ApplicationId, amount: Amount)
    requires Inv(w)
    ensures Inv(SubmitClaim(w, owner, app, amount))
  {
    var claim := FungibleClaim(app, owner, amount);
    match HandleClaim(w.pool, FungibleClaimMessage(owner, app, amount))
    case None =>
    case Some(pool) =>
      ClaimRaisesClaiming(w.pool, owner, app, amount);
      OpenedPlaces(w, claim, pool);
      OpenedBooks(w, claim, pool);
  }

  lemma SettleBooks(w: World, w1: World, id: nat, success: bool)
    requires ClaimingMatches(w) && id < |w.claims| && w.claims[id].amount > 0 && w.pool.pool.Trades(Some(w.claims[id].app))
    requires HandleReceipt(w.pool, SettlementMessage(w, id, success)) == Some(w1.pool) && w1.claims == w.claims
    requires !Settled(w, id) && Settled(w1, id) && forall i: nat :: i != id ==> Settled(w1, i) == Settled(w, i)
    ensures ClaimingMatches(w1) && w1.pool.pool == w.pool.pool
  {
    var claim := w.claims[id];
    SettlementExact(w.pool, claim.owner, claim.app, claim.amount, success);
    forall a: ApplicationId, o: Account
      ensures BalanceOf(w1.pool.claiming, Fungible(a), o) == Unsettled(w1, a, o, |w.claims|)
    {
      UnsettledDrops(w, w1, id, a, o, |w.claims|);
    }
  }

  lemma BookPlaces(w: World, id: nat, success: bool, pool: State)
    requires Settlement(id, success) in w.mail
    ensures SamePlaces(w, Book(w, id, success, pool))
  {
    CountTake(w.mail, Settlement(id, success));
  }

  lemma SettleKeeps(w: World, id: nat, success: bool)
    requires Inv(w)
    ensures Inv(SettleClaim(w, id, success))
  {
    if Settlement(id, success) in w.mail && id < |w.claims| {
      match HandleReceipt(w.pool, SettlementMessage(w, id, success))
      case None => LoseKeeps(w, Settlement(id, success));
      case Some(pool) => BookKeeps(w, id, success, pool);
    }
  }

  lemma BookSettles(w: World, id: nat, success: bool, pool: State)
    requires Places(w, id) == 1 && Settlement(id, success) in w.mail
    ensures var w1 := Book(w, id, success, pool);
      !Settled(w, id) && Settled(w1, id) && forall i: nat :: i != id ==> Settled(w1, i) == Settled(w, i)
  {
    assert Count(w.mail, id) >= 1;
  }

  lemma BookKeeps(w: World, id: nat, success: bool, pool: State)
    requires Inv(w) && Settlement(id, success) in w.mail && id < |w.claims|
    requires HandleReceipt(w.pool, SettlementMessage(w, id, success)) == Some(pool)
    ensures Inv(Book(w, id, success, pool))
  {
    assert Places(w, id) == 1;
    BookPlaces(w, id, success, pool);
    BookSettles(w, id, success, pool);
    SettleBooks(w, Book(w, id, success, pool), id, success);
  }

  /** Answering a message keeps its claim in one place; only a payment may answer with a success receipt. */
  lemma RedirectPlaces(w: World, taken: Mail, put: Mail)
    requires taken.id == put.id && taken in w.mail
    ensures var w1 := Redirect(w, taken, put);
      forall id: nat :: Places(w1, id) == Places(w, id) &&
        PaidPlaces(w1, id) + (if id == taken.id && Succeeded(taken) then 1 else 0) ==
        PaidPlaces(w, id) + (if id == taken.id && Succeeded(put) then 1 else 0)
  {
    CountTake(w.mail, taken);
    CountPut(w.mail - multiset{taken}, put);
  }

  lemma RedirectKeeps(w: World, taken: Mail, put: Mail)
    requires Inv(w) && taken.id == put.id && Succeeded(taken) == Succeeded(put)
    ensures Inv(Redirect(w, taken, put))
  {
    if taken in w.mail {
      RedirectPlaces(w, taken, put);
      MailMoves(w, Redirect(w, taken, put));
    }
  }

  /** A payment takes the request and leaves a success receipt and one payment; a refusal leaves a failure receipt. */
  lemma PaidPlacesRise(w: World, id: nat, memes: map<ApplicationId, Meme.State>)
    requires Request(id) in w.mail
    ensures SamePlaces(w, Redirect(w, Request(id), Receipt(id, true)).(memes := memes, paid := w.paid + multiset{id}))
  {
    CountTake(w.mail, Request(id));
    CountPut(w.mail - multiset{Request(id)}, Receipt(id, true));
  }

  lemma PayKeeps(w: World, id: nat)
    requires Inv(w)
    ensures Inv(PayClaim(w, id))
  {
    RedirectKeeps(w, Request(id), Receipt(id, false));
    if Request(id) in w.mail && id < |w.claims| && w.claims[id].app in w.memes && Transferred(w, id).Ok? {
      var memes := w.memes[w.claims[id].app := Transferred(w, id).state];
      PaidPlacesRise(w, id, memes);
      MailMoves(w, Redirect(w, Request(id), Receipt(id, true)).(memes := memes, paid := w.paid + multiset{id}));
    }
  }

  lemma LosePlaces(w: World, x: Mail)
    ensures SamePlaces(w, Lose(w, x))
  {
    if x in w.mail {
      CountTake(w.mail, x);
      CountPut(w.lost, x);
    }
  }

  lemma LoseKeeps(w: World, x: Mail)
    requires Inv(w)
    ensures Inv(Lose(w, x))
  {
    LosePlaces(w, x);
    MailMoves(w, Lose(w, x));
  }

  lemma PoolMoves(w: World, pool: State)
    requires Inv(w) && SameClaiming(w.pool, pool)
    ensures Inv(w.(pool := pool))
  {
    var w1 := w.(pool := pool);
    forall a: ApplicationId, o: Account
      ensures Unsettled(w1, a, o, |w.claims|) == Unsettled(w, a, o, |w.claims|)
    {
      UnsettledSame(w, w1, a, o, |w.claims|);
    }
    assert SamePlaces(w, w1);
  }

  lemma OtherPoolKeeps(w: World, c: Curve, m: Message)
    requires Inv(w)
    ensures Inv(Next(w, OtherPool(c, m)))
  {
    if Unrelated(m) {
      OtherPoolSameClaiming(c, w.pool, m);
      PoolMoves(w, Step(c, w.pool, m));
    }
  }

  lemma OtherMemeKeeps(w: World, token: ApplicationId, mm: Meme.Message)
    requires Inv(w)
    ensures Inv(Next(w, OtherMeme(token, mm)))
  {
    var w1 := Next(w, OtherMeme(token, mm));
    assert forall id: nat :: Places(w1, id) == Places(w, id) && PaidPlaces(w1, id) == PaidPlaces(w, id);
    MailMoves(w, w1);
  }

  lemma NextKeeps(w: World, e: Event)
    requires Inv(w)
    ensures Inv(Next(w, e))
  {
    match e
    case Submit(owner, app, amount) => SubmitKeeps(w, owner, app, amount);
    case Pay(id) => PayKeeps(w, id);
    case RejectRequest(id) => RedirectKeeps(w, Request(id), Bounced(id));
    case AnswerBounce(id) => RedirectKeeps(w, Bounced(id), Receipt(id, false));
    case ForwardReceipt(id, success) => RedirectKeeps(w, Receipt(id, success), Settlement(id, success));
    case RejectReceipt(id, success) => LoseKeeps(w, Receipt(id, success));
    case Settle(id, success) => SettleKeeps(w, id, success);
    case OtherPool(c, m) => OtherPoolKeeps(w, c, m);
    case OtherMeme(token, mm) => OtherMemeKeeps(w, token, mm);
  }

  /** The invariant holds in every interleaving. */
  lemma {:induction false} PlayKeeps(w: World, es: seq<Event>)
    requires Initial(w)
    ensures Inv(Play(w, es))
  {
    if |es| > 0 {
      PlayKeeps(w, es[..|es| - 1]);
      NextKeeps(Play(w, es[..|es| - 1]), es[|es| - 1]);
    }
  }

  // ---- Safety ----

  /** In every interleaving, what an owner has being claimed is the sum of its unsettled claims of that token. */
  lemma ClaimingIsUnsettled(w: World, es: seq<Event>, app: ApplicationId, owner: Account)
    requires Initial(w)
    ensures var w1 := Play(w, es);
      BalanceOf(w1.pool.claiming, Fungible(app), owner) == Unsettled(w1, app, owner, |w1.claims|)
  {
    PlayKeeps(w, es);
  }

  /** In every interleaving, a claim is paid at most once or returned at most once, never both, and settled as what happened. */
  lemma PaidOrReturnedOnce(w: World, es: seq<Event>, id: nat)
    requires Initial(w)
    ensures var w1 := Play(w, es);
      w1.paid[id] + w1.restored[id] <= 1 && w1.delivered[id] <= w1.paid[id] && (id >= |w1.claims| ==> w1.paid[id] + w1.restored[id] == 0)
  {
    PlayKeeps(w, es);
    assert Places(Play(w, es), id) <= 1;
  }

  /**
   * A settlement message waiting for a claim is refused only when a refund would not fit in 128 bits; a success is
   * never refused.
   */
  lemma PendingSettlementAccepted(w: World, es: seq<Event>, id: nat, success: bool)
    requires Initial(w) && Settlement(id, success) in Play(w, es).mail
    ensures var w1 := Play(w, es);
      id < |w1.claims| &&
      (HandleReceipt(w1.pool, SettlementMessage(w1, id, success)).Some? <==>
         success || BalanceOf(w1.pool.claimable, Fungible(w1.claims[id].app), w1.claims[id].owner) + w1.claims[id].amount <= U128_MAX)
  {
    var w1 := Play(w, es);
    PlayKeeps(w, es);
    assert Places(w1, id) > 0;
    var claim := w1.claims[id];
    UnsettledAtLeast(w1, id, |w1.claims|);
    SettlementExact(w1.pool, claim.owner, claim.app, claim.amount, success);
  }

  /**
   * A receipt that does not belong to a pending claim, such as a second receipt for a settled one, is refused
   * whenever it asks for more than the owner's unsettled claims of that token; with none left, always.
   */
  lemma UncoveredReceiptRejected(w: World, es: seq<Event>, owner: Account, app: ApplicationId, amount: Amount, success: bool)
    requires Initial(w)
    requires amount > Unsettled(Play(w, es), app, owner, |Play(w, es).claims|)
    ensures HandleReceipt(Play(w, es).pool, ClaimReceipt(owner, app, amount, success)) == None
  {
    var w1 := Play(w, es);
    PlayKeeps(w, es);
    if w1.pool.pool.Trades(Some(app)) {
      SettlementExact(w1.pool, owner, app, amount, success);
    }
  }

  /**
   * The pool accepts a receipt exactly when it is for a positive amount of a traded token that the owner's unsettled
   * claims cover, and a refund fits. It cannot see which claim the receipt belongs to.
   */
  lemma ReceiptAcceptedExactly(w: World, es: seq<Event>, owner: Account, app: ApplicationId, amount: Amount, success: bool)
    requires Initial(w)
    ensures var w1 := Play(w, es);
      HandleReceipt(w1.pool, ClaimReceipt(owner, app, amount, success)).Some? <==>
        amount > 0 && w1.pool.pool.Trades(Some(app)) && amount <= Unsettled(w1, app, owner, |w1.claims|) &&
        (success || BalanceOf(w1.pool.claimable, Fungible(app), owner) + amount <= U128_MAX)
  {
    var w1 := Play(w, es);
    PlayKeeps(w, es);
    if amount > 0 && w1.pool.pool.Trades(Some(app)) {
      SettlementExact(w1.pool, owner, app, amount, success);
    }
  }

  /** When no message is in flight and no mail was lost, nothing is being claimed and every claim ended one way. */
  lemma QuietWorldIsSettled(w: World, es: seq<Event>, app: ApplicationId, owner: Account)
    requires Initial(w) && Play(w, es).mail == multiset{} && Play(w, es).lost == multiset{}
    ensures var w1 := Play(w, es);
      BalanceOf(w1.pool.claiming, Fungible(app), owner) == 0 &&
      forall id: nat :: id < |w1.claims| ==> w1.delivered[id] == w1.paid[id] && w1.delivered[id] + w1.restored[id] == 1
  {
    var w1 := Play(w, es);
    PlayKeeps(w, es);
    forall id: nat ensures Places(w1, id) == w1.delivered[id] + w1.restored[id] && PaidPlaces(w1, id) == w1.delivered[id] {
    }
    NoneUnsettled(w1, app, owner, |w1.claims|);
  }

  lemma {:induction false} NoneUnsettled(w: World, app: ApplicationId, owner: Account, n: nat)
    requires n <= |w.claims| && forall i :: 0 <= i < n ==> Settled(w, i)
    ensures Unsettled(w, app, owner, n) == 0
  {
    if n > 0 {
      NoneUnsettled(w, app, owner, n - 1);
    }
  }

  // ---- Money on the meme ledger ----

  /** What payments have moved out of the pool's account on one token's ledger. */
  function PaidOut(w: World, app: ApplicationId, n: nat): nat
    requires n <= |w.claims|
  {
    if n == 0 then 0 else
    PaidOut(w, app, n - 1) + if w.claims[n - 1].app == app then w.paid[n - 1] * w.claims[n - 1].amount else 0
  }

  lemma {:induction false} PaidOutSame(w: World, w1: World, app: ApplicationId, n: nat)
    requires n <= |w.claims| <= |w1.claims|
    requires forall i :: 0 <= i < n ==> w1.claims[i] == w.claims[i] && w1.paid[i] == w.paid[i]
    ensures PaidOut(w1, app, n) == PaidOut(w, app, n)
  {
    if n > 0 {
      PaidOutSame(w, w1, app, n - 1);
    }
  }

  lemma {:induction false} PaidOutRises(w: World, w1: World, id: nat, app: ApplicationId, n: nat)
    requires id < n <= |w.claims| && w1.claims == w.claims && w1.paid == w.paid + multiset{id}
    ensures PaidOut(w1, app, n) == PaidOut(w, app, n) + if w.claims[id].app == app then w.claims[id].amount else 0
  {
    if id < n - 1 {
      PaidOutRises(w, w1, id, app, n - 1);
    } else {
      PaidOutSame(w, w1, app, n - 1);
      assert w1.paid[id] * w.claims[id].amount == w.paid[id] * w.claims[id].amount + w.claims[id].amount;
    }
  }

  /**
   * A request is paid exactly when the pool's account covers a positive amount for another account: that moves the
   * amount to the claim's owner and nothing else, and a receipt says so. Otherwise the receipt says it was not paid.
   */
  lemma PayExact(w: World, id: nat)
    requires Request(id) in w.mail && id < |w.claims| && w.claims[id].app in w.memes
    requires MemeConservation.Backed(w.memes[w.claims[id].app])
    ensures var claim, w1 := w.claims[id], PayClaim(w, id);
      var before := w.memes[claim.app];
      var pays := 0 < claim.amount <= Meme.BalanceOf(before, w.poolAccount) && claim.owner != w.poolAccount;
      && w1.mail == Replace(w.mail, Request(id), Receipt(id, pays))
      && w1.paid == (if pays then w.paid + multiset{id} else w.paid)
      && (!pays ==> w1.memes == w.memes)
      && (pays ==>
            && claim.app in w1.memes && w1.memes == w.memes[claim.app := w1.memes[claim.app]]
            && forall a :: Meme.BalanceOf(w1.memes[claim.app], a) == Meme.BalanceOf(before, a)
                           - (if a == w.poolAccount then claim.amount else 0) + (if a == claim.owner then claim.amount else 0))
  {
    var claim := w.claims[id];
    MemeConservation.TransferExact(w.memes[claim.app], w.poolAccount, claim.owner, claim.amount);
    MemeStatements.TransferEffect(w.memes[claim.app], w.poolAccount, claim.owner, claim.amount);
  }

  /** What one other message to a token's ledger does to the pool's account there. */
  function OtherChange(w: World, e: Event, app: ApplicationId): int {
    if e.OtherMeme? && e.token == app && app in w.memes
    then Meme.BalanceOf(Meme.Step(w.memes[app], e.mm), w.poolAccount) - Meme.BalanceOf(w.memes[app], w.poolAccount)
    else 0
  }

  ghost function OtherChanges(w: World, es: seq<Event>, app: ApplicationId): int {
    if |es| == 0 then 0 else
    OtherChanges(w, es[..|es| - 1], app) + OtherChange(Play(w, es[..|es| - 1]), es[|es| - 1], app)
  }

  ghost predicate LedgerPays(w: World, w1: World, app: ApplicationId) {
    && app in w.memes && app in w1.memes && w1.poolAccount == w.poolAccount
    && Meme.BalanceOf(w1.memes[app], w1.poolAccount) + PaidOut(w1, app, |w1.claims|) ==
       Meme.BalanceOf(w.memes[app], w.poolAccount) + PaidOut(w, app, |w.claims|)
  }

  lemma PayLedger(w: World, id: nat, app: ApplicationId)
    requires Inv(w) && app in w.memes
    ensures LedgerPays(w, PayClaim(w, id), app)
  {
    var w1 := PayClaim(w, id);
    if w1.paid == w.paid {
      PaidOutSame(w, w1, app, |w.claims|);
    } else {
      PaidOutRises(w, w1, id, app, |w.claims|);
    }
  }

  lemma UnmovedLedger(w: World, w1: World, app: ApplicationId)
    requires w1.memes == w.memes && w1.paid == w.paid && w1.poolAccount == w.poolAccount && app in w.memes
    requires w1.claims == w.claims || (|w1.claims| == |w.claims| + 1 && w.claims <= w1.claims && w.paid[|w.claims|] == 0)
    ensures LedgerPays(w, w1, app)
  {
    PaidOutSame(w, w1, app, |w.claims|);
  }

  lemma SubmitLedger(w: World, owner: Account, token: ApplicationId, amount: Amount, app: ApplicationId)
    requires app in w.memes && w.paid[|w.claims|] == 0
    ensures LedgerPays(w, SubmitClaim(w, owner, token, amount), app)
  {
    UnmovedLedger(w, SubmitClaim(w, owner, token, amount), app);
  }

  lemma MailLedger(w: World, taken: Mail, put: Mail, app: ApplicationId)
    requires app in w.memes
    ensures LedgerPays(w, Redirect(w, taken, put), app) && LedgerPays(w, Lose(w, taken), app)
  {
    UnmovedLedger(w, Redirect(w, taken, put), app);
    UnmovedLedger(w, Lose(w, taken), app);
  }

  lemma PoolLedgerAlone(w: World, pool: State, app: ApplicationId)
    requires app in w.memes
    ensures LedgerPays(w, w.(pool := pool), app)
  {
    UnmovedLedger(w, w.(pool := pool), app);
  }

  lemma SettleLedger(w: World, id: nat, success: bool, app: ApplicationId)
    requires app in w.memes
    ensures LedgerPays(w, SettleClaim(w, id, success), app)
  {
    UnmovedLedger(w, SettleClaim(w, id, success), app);
  }

  lemma OtherLedger(w: World, e: Event, app: ApplicationId)
    requires w.paid[|w.claims|] == 0 && app in w.memes && !e.Pay? && !e.OtherMeme?
    ensures LedgerPays(w, Next(w, e), app)
  {
    match e
    case Submit(owner, token, amount) => SubmitLedger(w, owner, token, amount, app);
    case Settle(id, success) => SettleLedger(w, id, success, app);
    case RejectRequest(id) => MailLedger(w, Request(id), Bounced(id), app);
    case AnswerBounce(id) => MailLedger(w, Bounced(id), Receipt(id, false), app);
    case ForwardReceipt(id, success) => MailLedger(w, Receipt(id, success), Settlement(id, success), app);
    case RejectReceipt(id, success) => MailLedger(w, Receipt(id, success), Bounced(id), app);
    case OtherPool(c, m) =>
      PoolLedgerAlone(w, w.pool, app);
      PoolLedgerAlone(w, Step(c, w.pool, m), app);
  }

  /** The pool's account on one ledger and what was paid from it, against an earlier world and other changes. */
  ghost predicate LedgerMoves(w: World, w1: World, app: ApplicationId, change: int) {
    && app in w.memes && app in w1.memes && w1.poolAccount == w.poolAccount
    && Meme.BalanceOf(w1.memes[app], w1.poolAccount) + PaidOut(w1, app, |w1.claims|) ==
       Meme.BalanceOf(w.memes[app], w.poolAccount) + PaidOut(w, app, |w.claims|) + change
  }

  lemma EventLedger(w: World, e: Event, app: ApplicationId)
    requires Inv(w) && app in w.memes
    ensures LedgerMoves(w, Next(w, e), app, OtherChange(w, e, app))
  {
    if e.Pay? {
      PayLedger(w, e.id, app);
    } else if e.OtherMeme? {
      OtherMemeLedger(w, e.token, e.mm, app);
    } else {
      assert Places(w, |w.claims|) == 0 && w.paid[|w.claims|] == 0;
      OtherLedger(w, e, app);
    }
  }

  lemma OtherMemeLedger(w: World, token: ApplicationId, mm: Meme.Message, app: ApplicationId)
    requires app in w.memes
    ensures LedgerMoves(w, Next(w, OtherMeme(token, mm)), app, OtherChange(w, OtherMeme(token, mm), app))
  {
    PaidOutSame(w, Next(w, OtherMeme(token, mm)), app, |w.claims|);
  }

  /**
   * In every interleaving, the pool's account on a token's ledger falls by exactly the amounts of the paid claims,
   * each counted once by `PaidOrReturnedOnce`, beside what other messages to that ledger do to it.
   */
  lemma {:induction false} LedgerPaysClaims(w: World, es: seq<Event>, app: ApplicationId)
    requires Initial(w) && app in w.memes
    ensures LedgerMoves(w, Play(w, es), app, OtherChanges(w, es, app))
  {
    if |es| > 0 {
      var front, e := es[..|es| - 1], es[|es| - 1];
      LedgerPaysClaims(w, front, app);
      PlayKeeps(w, front);
      EventLedger(Play(w, front), e, app);
    }
  }
}
