/** The fee-free constant-product replay of a pool's trade history, and what floor division can and cannot cost a trader. */
module Simulator {
  import opened Common
  import opened Arithmetic

  datatype Kind = BuyToken0 | SellToken0 | AddLiquidity | RemoveLiquidity | Unknown

  /** An amount that cannot be read is absent. */
  datatype Trade = Trade(kind: Kind, amount0In: Option<int>, amount1In: Option<int>)

  datatype Reserves = Reserves(r0: nat, r1: nat)

  // In the order in which the reported codes sort.
  datatype Blocker = LiquidityChanged | InvalidAmounts | UnknownType

  /** What a trade puts in on its own side; nothing for other entries or a non-positive amount. */
  function AmountIn(t: Trade): nat {
    var x := match t.kind
      case BuyToken0 => t.amount1In.GetOr(0)
      case SellToken0 => t.amount0In.GetOr(0)
      case _ => 0;
    if x <= 0 then 0 else x
  }

  function BlockerOf(t: Trade): Option<Blocker> {
    match t.kind
    case BuyToken0 => if AmountIn(t) == 0 then Some(InvalidAmounts) else None
    case SellToken0 => if AmountIn(t) == 0 then Some(InvalidAmounts) else None
    case AddLiquidity => Some(LiquidityChanged)
    case RemoveLiquidity => Some(LiquidityChanged)
    case Unknown => Some(UnknownType)
  }

  /** What `amount` of the input side takes from the output side. */
  function Out(amount: nat, inReserve: nat, outReserve: nat): (out: nat)
    requires amount > 0
    ensures out <= outReserve && (outReserve > 0 && inReserve > 0 ==> out < outReserve)
  {
    OutBounded(amount, inReserve, outReserve);
    amount * outReserve / (inReserve + amount)
  }

  lemma OutBounded(amount: nat, inReserve: nat, outReserve: nat)
    requires amount > 0
    ensures var out := amount * outReserve / (inReserve + amount);
      0 <= out <= outReserve && (outReserve > 0 && inReserve > 0 ==> out < outReserve)
  {
    var d, n := inReserve + amount, amount * outReserve;
    Quotient(n, d);
    MulDistributes(inReserve, amount, outReserve);
    if outReserve > 0 && inReserve > 0 {
      MulPositive(inReserve, outReserve);
    }
    QuotientBelow(n, d, outReserve);
  }

  lemma QuotientBelow(n: nat, d: nat, bound: nat)
    requires d > 0 && n <= d * bound
    ensures n / d <= bound && (n < d * bound ==> n / d < bound)
  {
    Quotient(n, d);
    if n / d > bound { MulMonotone(bound + 1, n / d, d, d); }
  }

  function Buy(r: Reserves, amount: nat): Reserves
    requires amount > 0
  {
    Reserves(r.r0 - Out(amount, r.r1, r.r0), r.r1 + amount)
  }

  function Sell(r: Reserves, amount: nat): Reserves
    requires amount > 0
  {
    Reserves(r.r0 + amount, r.r1 - Out(amount, r.r0, r.r1))
  }

  function Apply(r: Reserves, t: Trade): Reserves {
    if AmountIn(t) == 0 then r
    else if t.kind == BuyToken0 then Buy(r, AmountIn(t))
    else Sell(r, AmountIn(t))
  }

  function Replay(r: Reserves, ts: seq<Trade>): Reserves {
    if ts == [] then r else Apply(Replay(r, ts[..|ts| - 1]), ts[|ts| - 1])
  }

  function Rank(b: Blocker): nat {
    match b
    case LiquidityChanged => 0
    case InvalidAmounts => 1
    case UnknownType => 2
  }

  /** The distinct members of a set in sorted order. */
  function Sorted(bs: set<Blocker>): (r: seq<Blocker>)
    ensures forall b :: b in r <==> b in bs
    ensures forall i, j :: 0 <= i < j < |r| ==> Rank(r[i]) < Rank(r[j])
  {
    var first := if LiquidityChanged in bs then [LiquidityChanged] else [];
    var second := if InvalidAmounts in bs then first + [InvalidAmounts] else first;
    assert forall b :: b in second <==> b in bs && b != UnknownType;
    if UnknownType in bs then second + [UnknownType] else second
  }

  ghost predicate Blocks(ts: seq<Trade>, b: Blocker) {
    exists i :: 0 <= i < |ts| && BlockerOf(ts[i]) == Some(b)
  }

  /** Python's list index: negative counts from the end; outside the list it is an error. */
  function ListIndex(i: int, n: nat): Option<nat> {
    var k: int := if i < 0 then i + n else i;
    if 0 <= k < n then Some(k) else None
  }

  /** Python's list slice from a start that may be negative or past the end. */
  function From(history: seq<Trade>, start: int): seq<Trade> {
    if start > |history| then [] else history[if start >= 0 then start else if start + |history| < 0 then 0 else start + |history|..]
  }

  /** Replays everything after `startIndex` on the reserves recorded there, and reports what could not be replayed. */
  method Simulate(states: seq<Reserves>, history: seq<Trade>, startIndex: int)
    returns (result: Option<(Reserves, seq<Blocker>)>)
    ensures result.None? <==> !(-|states| <= startIndex < |states|)
    ensures result.Some? ==>
      (var start := states[ListIndex(startIndex, |states|).value];
       var (reserves, blockers) := result.value;
       reserves == Replay(start, From(history, startIndex + 1)) &&
       (forall b :: b in blockers <==> Blocks(From(history, startIndex + 1), b)) &&
       (forall i, j :: 0 <= i < j < |blockers| ==> Rank(blockers[i]) < Rank(blockers[j])))
  {
    var at := ListIndex(startIndex, |states|);
    if at == None {
      return None;
    }
    var start := states[at.value];
    var reserve0: nat, reserve1: nat := start.r0, start.r1;
    var found: seq<Blocker> := [];
    var suffix := From(history, startIndex + 1);
    for i := 0 to |suffix|
      invariant Reserves(reserve0, reserve1) == Replay(start, suffix[..i])
      invariant forall b :: b in found <==> Blocks(suffix[..i], b)
    {
      var t := suffix[i];
      assert suffix[..i + 1][..i] == suffix[..i];
      assert forall b :: Blocks(suffix[..i + 1], b) <==> Blocks(suffix[..i], b) || BlockerOf(t) == Some(b) by {
        assert suffix[..i + 1][i] == t;
      }
      match t.kind {
        case BuyToken0 =>
          var amount1In := t.amount1In.GetOr(0);
          if amount1In <= 0 {
            found := found + [InvalidAmounts];
            continue;
          }
          var amount0Out := Out(amount1In, reserve1, reserve0);
          reserve1 := reserve1 + amount1In;
          reserve0 := reserve0 - amount0Out;
        case SellToken0 =>
          var amount0In := t.amount0In.GetOr(0);
          if amount0In <= 0 {
            found := found + [InvalidAmounts];
            continue;
          }
          var amount1Out := Out(amount0In, reserve0, reserve1);
          reserve0 := reserve0 + amount0In;
          reserve1 := reserve1 - amount1Out;
        case AddLiquidity => found := found + [LiquidityChanged];
        case RemoveLiquidity => found := found + [LiquidityChanged];
        case Unknown => found := found + [UnknownType];
      }
    }
    assert suffix[..|suffix|] == suffix;
    return Some((Reserves(reserve0, reserve1), Sorted(set b | b in found)));
  }

  // ---- No trade sequence gains ----

  function Product(r: Reserves): nat {
    r.r0 * r.r1
  }

  function Mirror(r: Reserves): Reserves {
    Reserves(r.r1, r.r0)
  }

  predicate Live(r: Reserves) {
    r.r0 > 0 && r.r1 > 0
  }

  /** Rounding leaves the product no smaller and adds less than one unit of the new input side. */
  lemma OutRounding(amount: nat, inReserve: nat, outReserve: nat)
    requires amount > 0
    ensures var left := outReserve - Out(amount, inReserve, outReserve);
      outReserve * inReserve <= left * (inReserve + amount) < outReserve * inReserve + (inReserve + amount)
  {
    var d, n := inReserve + amount, amount * outReserve;
    var out := n / d;
    Quotient(n, d);
    MulDistributes(outReserve, out, d);
    MulDistributes(inReserve, amount, outReserve);
    MulDistributes(out, 1, d);
  }

  lemma BuyGrows(r: Reserves, amount: nat)
    requires Live(r) && amount > 0
    ensures var r1 := Buy(r, amount);
      Live(r1) && r1.r1 == r.r1 + amount && Product(r) <= Product(r1) < Product(r) + r1.r1
  {
    OutRounding(amount, r.r1, r.r0);
  }

  lemma SellMirrorsBuy(r: Reserves, amount: nat)
    requires amount > 0
    ensures Sell(r, amount) == Mirror(Buy(Mirror(r), amount))
    ensures Product(Mirror(r)) == Product(r)
  {
  }

  /** One replayed entry: both reserves stay positive and the product grows by less than the new input reserve. */
  lemma ApplyGrows(r: Reserves, t: Trade)
    requires Live(r)
    ensures var r1 := Apply(r, t);
      Live(r1) && Product(r) <= Product(r1) &&
      (AmountIn(t) == 0 ==> r1 == r) &&
      (AmountIn(t) > 0 && t.kind == BuyToken0 ==> Product(r1) < Product(r) + r1.r1 && r1.r1 == r.r1 + AmountIn(t)) &&
      (AmountIn(t) > 0 && t.kind == SellToken0 ==> Product(r1) < Product(r) + r1.r0 && r1.r0 == r.r0 + AmountIn(t))
  {
    if AmountIn(t) > 0 {
      if t.kind == BuyToken0 {
        BuyGrows(r, AmountIn(t));
      } else {
        BuyGrows(Mirror(r), AmountIn(t));
        SellMirrorsBuy(r, AmountIn(t));
        SellMirrorsBuy(Mirror(Sell(r, AmountIn(t))), 1);
      }
    }
  }

  /** A trade whose own input amount can be read and is positive; the other side's amounts do not matter. */
  predicate Readable(t: Trade) {
    || (t.kind == BuyToken0 && t.amount1In.Some? && t.amount1In.value > 0)
    || (t.kind == SellToken0 && t.amount0In.Some? && t.amount0In.value > 0)
  }

  /** Which code each kind of entry gets. */
  lemma BlockersExact(t: Trade)
    ensures BlockerOf(t) == None <==> Readable(t)
    ensures BlockerOf(t) == Some(LiquidityChanged) <==> t.kind == AddLiquidity || t.kind == RemoveLiquidity
    ensures BlockerOf(t) == Some(InvalidAmounts) <==> (t.kind == BuyToken0 || t.kind == SellToken0) && !Readable(t)
    ensures BlockerOf(t) == Some(UnknownType) <==> t.kind == Unknown
  {
  }

  /** `left` is the least reserve that, beside `newIn`, keeps a product of at least `product`. */
  predicate LeastKeeping(product: nat, left: int, newIn: nat) {
    left * newIn >= product && (left - 1) * newIn < product
  }

  /**
   * One entry, without reference to how it is computed: the input reserve gains the amount, the output reserve keeps
   * the least that does not lower the product, and every other entry changes nothing.
   */
  lemma EntryExact(r: Reserves, t: Trade)
    ensures !Readable(t) ==> Apply(r, t) == r
    ensures Readable(t) && t.kind == BuyToken0 ==>
      Apply(r, t).r1 == r.r1 + t.amount1In.value && LeastKeeping(Product(r), Apply(r, t).r0, r.r1 + t.amount1In.value)
    ensures Readable(t) && t.kind == SellToken0 ==>
      Apply(r, t).r0 == r.r0 + t.amount0In.value && LeastKeeping(Product(r), Apply(r, t).r1, r.r0 + t.amount0In.value)
  {
    if Readable(t) {
      if t.kind == BuyToken0 {
        LeastLeft(t.amount1In.value, r.r1, r.r0);
      } else {
        LeastLeft(t.amount0In.value, r.r0, r.r1);
      }
    }
  }

  lemma LeastLeft(amount: nat, inReserve: nat, outReserve: nat)
    requires amount > 0
    ensures LeastKeeping(outReserve * inReserve, outReserve - Out(amount, inReserve, outReserve), inReserve + amount)
  {
    OutRounding(amount, inReserve, outReserve);
    MulDistributes(outReserve - Out(amount, inReserve, outReserve), 1, inReserve + amount);
  }

  /** The slice keeps the end of the history: everything past `start`, or the last `-start` entries, as far as there are any. */
  lemma SuffixExact(history: seq<Trade>, start: int)
    ensures var suffix := From(history, start);
      && |suffix| <= |history| && suffix == history[|history| - |suffix|..]
      && (start >= 0 ==> |suffix| == if start < |history| then |history| - start else 0)
      && (start < 0 ==> |suffix| == Min(-start, |history|))
  {
  }

  /** Only positive buys and sells move the reserves. */
  lemma BlockedEntriesChangeNothing(r: Reserves, t: Trade)
    ensures BlockerOf(t).Some? <==> AmountIn(t) == 0
    ensures Live(r) ==> (BlockerOf(t).Some? <==> Apply(r, t) == r)
  {
  }

  lemma {:induction false} ReplayGrows(r: Reserves, ts: seq<Trade>)
    requires Live(r)
    ensures Live(Replay(r, ts)) && Product(r) <= Product(Replay(r, ts))
  {
    if ts != [] {
      ReplayGrows(r, ts[..|ts| - 1]);
      ApplyGrows(Replay(r, ts[..|ts| - 1]), ts[|ts| - 1]);
    }
  }

  lemma SmallerProduct(r: Reserves, r1: Reserves)
    requires Live(r) && Product(r) <= Product(r1)
    ensures !(r1.r0 < r.r0 && r1.r1 <= r.r1) && !(r1.r0 <= r.r0 && r1.r1 < r.r1)
  {
    if r1.r0 < r.r0 && r1.r1 <= r.r1 {
      MulMonotone(r1.r0 + 1, r.r0, r1.r1, r.r1);
      MulDistributes(r1.r0, 1, r1.r1);
      MulMonotone(r1.r0, r.r0 - 1, r.r1, r.r1);
    }
    if r1.r0 <= r.r0 && r1.r1 < r.r1 {
      MulMonotone(r1.r0, r.r0, r1.r1, r.r1 - 1);
    }
  }

  /** No history, however long, leaves the pool with less of one token and no more of the other. */
  lemma NoFreeLunch(r: Reserves, ts: seq<Trade>)
    requires Live(r)
    ensures var r1 := Replay(r, ts); !(r1.r0 < r.r0 && r1.r1 <= r.r1) && !(r1.r0 <= r.r0 && r1.r1 < r.r1)
  {
    ReplayGrows(r, ts);
    SmallerProduct(r, Replay(r, ts));
  }

  // ---- Splitting a trade ----

  function Total(pieces: seq<nat>): nat {
    if pieces == [] then 0 else Total(pieces[..|pieces| - 1]) + pieces[|pieces| - 1]
  }

  predicate Positive(pieces: seq<nat>) {
    forall i :: 0 <= i < |pieces| ==> pieces[i] > 0
  }

  function Purchase(amount: nat): Trade {
    Trade(BuyToken0, None, Some(amount))
  }

  function Sale(amount: nat): Trade {
    Trade(SellToken0, Some(amount), None)
  }

  function Purchases(pieces: seq<nat>): seq<Trade> {
    seq(|pieces|, i requires 0 <= i < |pieces| => Purchase(pieces[i]))
  }

  function Sales(pieces: seq<nat>): seq<Trade> {
    seq(|pieces|, i requires 0 <= i < |pieces| => Sale(pieces[i]))
  }

  lemma SplitStep(product: nat, k: nat, midProduct: nat, midIn: nat, amount: nat, nextProduct: nat)
    requires midProduct <= product + k * midIn && nextProduct < midProduct + (midIn + amount)
    ensures nextProduct < product + (k + 1) * (midIn + amount)
  {
    MulMonotone(k, k, midIn, midIn + amount);
    MulDistributes(k, 1, midIn + amount);
  }

  /** The invariant of a split purchase, in products so that no rounding is lost: at most one input reserve per piece. */
  lemma {:induction false} SplitProduct(r: Reserves, pieces: seq<nat>)
    requires Live(r) && Positive(pieces)
    ensures var r1 := Replay(r, Purchases(pieces));
      Live(r1) && r1.r1 == r.r1 + Total(pieces) &&
      Product(r) <= Product(r1) <= Product(r) + |pieces| * r1.r1 && (pieces != [] ==> Product(r1) < Product(r) + |pieces| * r1.r1)
  {
    if pieces != [] {
      var front, last := pieces[..|pieces| - 1], pieces[|pieces| - 1];
      var mid := Replay(r, Purchases(front));
      assert Purchases(pieces)[..|pieces| - 1] == Purchases(front);
      SplitProduct(r, front);
      BuyGrows(mid, last);
      SplitStep(Product(r), |front|, Product(mid), mid.r1, last, Product(Buy(mid, last)));
    }
  }

  /** Two positions on the same curve, within k units of product per unit of input reserve, differ by at most k - 1. */
  lemma CeilingGap(k: nat, y: nat, x: nat, c: nat, product: nat)
    requires y > 0 && product <= x * y < product + k * y && product <= c * y < product + y
    ensures c <= x <= c + k - 1
  {
    MulDistributes(c, k, y);
    MulDistributes(x, 1, y);
    if x < c { MulMonotone(x + 1, c, y, y); }
    if x > c + k - 1 { MulMonotone(c + k, x, y, y); }
  }

  lemma OnePurchase(r: Reserves, amount: nat)
    requires amount > 0
    ensures Replay(r, [Purchase(amount)]) == Buy(r, amount)
  {
    assert [Purchase(amount)][..0] == [];
  }

  lemma SplitGap(r: Reserves, total: nat, split: Reserves, k: nat)
    requires Live(r) && total > 0 && split.r1 == r.r1 + total
    requires Product(r) <= Product(split) < Product(r) + k * split.r1
    ensures Buy(r, total).r0 <= split.r0 <= Buy(r, total).r0 + k - 1
  {
    BuyGrows(r, total);
    CeilingGap(k, split.r1, split.r0, Buy(r, total).r0, Product(r));
  }

  /**
   * Buying a total in k positive pieces takes at most what one buy takes, and at least that minus k - 1 units, for
   * all reserves.
   */
  lemma SplitBuy(r: Reserves, pieces: seq<nat>)
    requires Live(r) && Positive(pieces) && pieces != []
    ensures var once := Replay(r, [Purchase(Total(pieces))]);
      var split := Replay(r, Purchases(pieces));
      split.r1 == once.r1 && r.r0 - once.r0 - (|pieces| - 1) <= r.r0 - split.r0 <= r.r0 - once.r0
  {
    TotalPositive(pieces);
    OnePurchase(r, Total(pieces));
    SplitProduct(r, pieces);
    SplitGap(r, Total(pieces), Replay(r, Purchases(pieces)), |pieces|);
  }

  lemma {:induction false} TotalPositive(pieces: seq<nat>)
    requires Positive(pieces) && pieces != []
    ensures Total(pieces) > 0
  {
  }

  /** Selling is buying with the sides exchanged. */
  lemma {:induction false} SalesMirror(r: Reserves, pieces: seq<nat>)
    requires Positive(pieces)
    ensures Replay(r, Sales(pieces)) == Mirror(Replay(Mirror(r), Purchases(pieces)))
  {
    if pieces != [] {
      var front := pieces[..|pieces| - 1];
      SalesMirror(r, front);
      assert Sales(pieces)[..|pieces| - 1] == Sales(front) && Purchases(pieces)[..|pieces| - 1] == Purchases(front);
    }
  }

  lemma SplitSell(r: Reserves, pieces: seq<nat>)
    requires Live(r) && Positive(pieces) && pieces != []
    ensures var once := Replay(r, [Sale(Total(pieces))]);
      var split := Replay(r, Sales(pieces));
      split.r0 == once.r0 && r.r1 - once.r1 - (|pieces| - 1) <= r.r1 - split.r1 <= r.r1 - once.r1
  {
    TotalPositive(pieces);
    SplitBuy(Mirror(r), pieces);
    SalesMirror(r, pieces);
    SalesMirror(r, [Total(pieces)]);
    assert Sales([Total(pieces)]) == [Sale(Total(pieces))] && Purchases([Total(pieces)]) == [Purchase(Total(pieces))];
  }

  function Units(k: nat): seq<nat> {
    seq(k, _ => 1)
  }

  lemma {:induction false} UnitBuysTakeNothing(y: nat, k: nat)
    requires y > 0
    ensures Replay(Reserves(y, y), Purchases(Units(k))) == Reserves(y, y + k) && Total(Units(k)) == k
  {
    if k > 0 {
      UnitBuysTakeNothing(y, k - 1);
      assert Units(k)[..k - 1] == Units(k - 1);
      assert Purchases(Units(k))[..k - 1] == Purchases(Units(k - 1));
      assert 1 * y / (y + k) == 0 by { QuotientUnique(y, y + k, 0); }
    }
  }

  lemma SquareQuotient(k: nat)
    requires k > 0
    ensures k * (k * k) / (k * k + k) == k - 1
  {
    var d := k * k + k;
    MulDistributes(k, 1, k);
    MulAssoc(k - 1, k + 1, k);
    MulDistributes(k, 1, k + 1);
    MulAssoc(k, k, k);
    MulDistributes(k * k, 1, k);
    assert (k - 1) * d == k * (k * k) - k;
    MulDistributes(k - 1, 1, d);
    QuotientUnique(k * (k * k), d, k - 1);
  }

  /** The loss of k - 1 units is reached for every k: k one-unit buys in a pool of k squared on each side. */
  lemma SplitLossIsTight(k: nat)
    requires k > 0
    ensures Live(Reserves(k * k, k * k)) && Positive(Units(k)) && Total(Units(k)) == k
    ensures var r := Reserves(k * k, k * k);
      r.r0 - Replay(r, Purchases(Units(k))).r0 == r.r0 - Replay(r, [Purchase(k)]).r0 - (k - 1)
  {
    MulPositive(k, k);
    UnitBuysTakeNothing(k * k, k);
    OnePurchase(Reserves(k * k, k * k), k);
    SquareQuotient(k);
  }
}
