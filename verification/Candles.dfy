/** Price candles: the incremental update, what a folded candle depends on, and the time buckets it belongs to. */
module Candles {
  import opened Common
  import opened Arithmetic
  import opened Sequences

  // ---- Updates ----

  /** One trade; volumes are in units of 1e-12, in which the recorded rounding is exact. */
  datatype Update = Update(transactionId: int, createdAtMs: int, price: real, baseVolume: int, quoteVolume: int)

  datatype Candle = Candle(
    open: real, high: real, low: real, close: real,
    baseVolume: int, quoteVolume: int, tradeCount: nat,
    firstTradeId: int, lastTradeId: int, firstTradeAtMs: int, lastTradeAtMs: int)

  datatype Order = Order(at: int, id: int)

  predicate Precedes(a: Order, b: Order) {
    a.at < b.at || (a.at == b.at && a.id < b.id)
  }

  function OrderOf(u: Update): Order {
    Order(u.createdAtMs, u.transactionId)
  }

  function First(c: Candle): Order {
    Order(c.firstTradeAtMs, c.firstTradeId)
  }

  function Last(c: Candle): Order {
    Order(c.lastTradeAtMs, c.lastTradeId)
  }

  function MaxPrice(a: real, b: real): real {
    if a < b then b else a
  }

  function MinPrice(a: real, b: real): real {
    if b < a then b else a
  }

  function ApplyCandleUpdate(existing: Option<Candle>, u: Update): Candle {
    match existing
    case None => Candle(u.price, u.price, u.price, u.price, u.baseVolume, u.quoteVolume, 1,
                        u.transactionId, u.transactionId, u.createdAtMs, u.createdAtMs)
    case Some(c) =>
      var order := OrderOf(u);
      // Replaying a boundary trade changes nothing.
      if order == First(c) || order == Last(c) then c else
      var starts, ends := Precedes(order, First(c)), Precedes(Last(c), order);
      Candle(if starts then u.price else c.open, MaxPrice(c.high, u.price), MinPrice(c.low, u.price),
             if ends then u.price else c.close,
             c.baseVolume + u.baseVolume, c.quoteVolume + u.quoteVolume, c.tradeCount + 1,
             if starts then u.transactionId else c.firstTradeId, if ends then u.transactionId else c.lastTradeId,
             if starts then u.createdAtMs else c.firstTradeAtMs, if ends then u.createdAtMs else c.lastTradeAtMs)
  }

  function Fold(us: seq<Update>): Option<Candle> {
    if us == [] then None else Some(ApplyCandleUpdate(Fold(us[..|us| - 1]), us[|us| - 1]))
  }

  // ---- What a candle says about a set of trades ----

  /** A trade keeps its price however often it is reported. */
  ghost predicate OnePrice(us: seq<Update>) {
    forall i, j :: 0 <= i < |us| && 0 <= j < |us| && OrderOf(us[i]) == OrderOf(us[j]) ==> us[i].price == us[j].price
  }

  ghost predicate IsEarliest(us: seq<Update>, u: Update) {
    u in us && forall v :: v in us ==> !Precedes(OrderOf(v), OrderOf(u))
  }

  ghost predicate IsLatest(us: seq<Update>, u: Update) {
    u in us && forall v :: v in us ==> !Precedes(OrderOf(u), OrderOf(v))
  }

  ghost predicate IsHighest(us: seq<Update>, price: real) {
    (exists u :: u in us && u.price == price) && forall v :: v in us ==> v.price <= price
  }

  ghost predicate IsLowest(us: seq<Update>, price: real) {
    (exists u :: u in us && u.price == price) && forall v :: v in us ==> price <= v.price
  }

  ghost predicate Summarises(c: Candle, us: seq<Update>) {
    && Opens(us, First(c), c.open)
    && Closes(us, Last(c), c.close)
    && IsHighest(us, c.high)
    && IsLowest(us, c.low)
  }

  /** A fold opens at the earliest trade, closes at the latest, and spans the lowest and highest price. */
  lemma {:induction false} FoldSummarises(us: seq<Update>)
    requires us != [] && OnePrice(us)
    ensures Summarises(Fold(us).value, us)
  {
    var front, u := us[..|us| - 1], us[|us| - 1];
    assert us == front + [u];
    if front == [] {
      var c := ApplyCandleUpdate(None, u);
      assert Fold(us) == Some(c) && us == [u] && u in us;
      assert IsEarliest(us, u) && OrderOf(u) == First(c) && u.price == c.open;
      assert IsLatest(us, u) && OrderOf(u) == Last(c) && u.price == c.close;
    } else {
      assert OnePrice(front);
      FoldSummarises(front);
      SummaryStep(front, u, Fold(front).value);
    }
  }

  ghost predicate Opens(us: seq<Update>, order: Order, price: real) {
    exists u :: IsEarliest(us, u) && OrderOf(u) == order && u.price == price
  }

  ghost predicate Closes(us: seq<Update>, order: Order, price: real) {
    exists u :: IsLatest(us, u) && OrderOf(u) == order && u.price == price
  }

  lemma OpensStep(front: seq<Update>, u: Update, c: Candle)
    requires Opens(front, First(c), c.open)
    ensures var c1 := ApplyCandleUpdate(Some(c), u);
      OrderOf(u) != First(c) && !Precedes(Last(c), First(c)) ==> Opens(front + [u], First(c1), c1.open)
    ensures OrderOf(u) == First(c) ==> Opens(front + [u], First(c), c.open)
  {
    var us := front + [u];
    var e :| IsEarliest(front, e) && OrderOf(e) == First(c) && e.price == c.open;
    assert u in us && e in us;
    assert IsEarliest(us, if Precedes(OrderOf(u), OrderOf(e)) then u else e);
  }

  lemma ClosesStep(front: seq<Update>, u: Update, c: Candle)
    requires Closes(front, Last(c), c.close)
    ensures var c1 := ApplyCandleUpdate(Some(c), u);
      OrderOf(u) != Last(c) && !Precedes(Last(c), First(c)) ==> Closes(front + [u], Last(c1), c1.close)
    ensures OrderOf(u) == Last(c) ==> Closes(front + [u], Last(c), c.close)
  {
    var us := front + [u];
    var l :| IsLatest(front, l) && OrderOf(l) == Last(c) && l.price == c.close;
    assert u in us && l in us;
    assert IsLatest(us, if Precedes(OrderOf(l), OrderOf(u)) then u else l);
  }

  lemma RangeStep(front: seq<Update>, u: Update, high: real, low: real)
    requires IsHighest(front, high) && IsLowest(front, low)
    ensures IsHighest(front + [u], MaxPrice(high, u.price)) && IsLowest(front + [u], MinPrice(low, u.price))
  {
    var us := front + [u];
    var h :| h in front && h.price == high;
    var w :| w in front && w.price == low;
    assert u in us && h in us && w in us;
    assert (if high < u.price then u else h).price == MaxPrice(high, u.price);
    assert (if u.price < low then u else w).price == MinPrice(low, u.price);
  }

  lemma SummaryStep(front: seq<Update>, u: Update, c: Candle)
    requires OnePrice(front + [u]) && Summarises(c, front)
    ensures Summarises(ApplyCandleUpdate(Some(c), u), front + [u])
  {
    var us := front + [u];
    OpensStep(front, u, c);
    ClosesStep(front, u, c);
    RangeStep(front, u, c.high, c.low);
    var e :| IsEarliest(front, e) && OrderOf(e) == First(c) && e.price == c.open;
    var l :| IsLatest(front, l) && OrderOf(l) == Last(c) && l.price == c.close;
    assert u in us && e in us && l in us;
    SamePrice(us, u, e);
    SamePrice(us, u, l);
    assert e.price <= c.high && c.low <= e.price && l.price <= c.high && c.low <= l.price;
    assert !Precedes(Last(c), First(c));
  }

  lemma SamePrice(us: seq<Update>, u: Update, v: Update)
    requires OnePrice(us) && u in us && v in us
    ensures OrderOf(u) == OrderOf(v) ==> u.price == v.price
  {
  }

  /** Open, high, low, close and both boundary trades: everything but the volumes and the count. */
  predicate SameShape(a: Candle, b: Candle) {
    && a.open == b.open && a.high == b.high && a.low == b.low && a.close == b.close
    && First(a) == First(b) && Last(a) == Last(b)
  }

  lemma SummaryIsUnique(a: Candle, us: seq<Update>, b: Candle, vs: seq<Update>)
    requires OnePrice(us) && Summarises(a, us) && Summarises(b, vs) && forall u :: u in us <==> u in vs
    ensures SameShape(a, b)
  {
    var e1 :| IsEarliest(us, e1) && OrderOf(e1) == First(a) && e1.price == a.open;
    var e2 :| IsEarliest(vs, e2) && OrderOf(e2) == First(b) && e2.price == b.open;
    var l1 :| IsLatest(us, l1) && OrderOf(l1) == Last(a) && l1.price == a.close;
    var l2 :| IsLatest(vs, l2) && OrderOf(l2) == Last(b) && l2.price == b.close;
    SamePrice(us, e1, e2);
    SamePrice(us, l1, l2);
  }

  /** Any two reports of the same set of trades, in any order and with any repetitions, fold to the same shape. */
  lemma ShapeDependsOnSet(us: seq<Update>, vs: seq<Update>)
    requires us != [] && OnePrice(us) && forall u :: u in us <==> u in vs
    ensures vs != [] && SameShape(Fold(us).value, Fold(vs).value)
  {
    assert us[0] in vs;
    assert OnePrice(vs) by {
      forall i, j | 0 <= i < |vs| && 0 <= j < |vs| && OrderOf(vs[i]) == OrderOf(vs[j]) ensures vs[i].price == vs[j].price {
        SamePrice(us, vs[i], vs[j]);
      }
    }
    FoldSummarises(us);
    FoldSummarises(vs);
    SummaryIsUnique(Fold(us).value, us, Fold(vs).value, vs);
  }

  // ---- Counts and volumes ----

  ghost predicate NoRepeats(us: seq<Update>) {
    forall i, j :: 0 <= i < j < |us| ==> OrderOf(us[i]) != OrderOf(us[j])
  }

  function Volume(us: seq<Update>, volume: Update -> int): int {
    if us == [] then 0 else Volume(us[..|us| - 1], volume) + volume(us[|us| - 1])
  }

  const BASE: Update -> int := (u: Update) => u.baseVolume
  const QUOTE: Update -> int := (u: Update) => u.quoteVolume

  /** Without repeats every trade is counted once. */
  lemma {:induction false} FoldCounts(us: seq<Update>)
    requires us != [] && NoRepeats(us)
    ensures var c := Fold(us).value;
      c.tradeCount == |us| && c.baseVolume == Volume(us, BASE) && c.quoteVolume == Volume(us, QUOTE)
  {
    var front, u := us[..|us| - 1], us[|us| - 1];
    if front != [] {
      FoldCounts(front);
      assert OnePrice(front);
      FoldSummarises(front);
      var c := Fold(front).value;
      var e :| IsEarliest(front, e) && OrderOf(e) == First(c) && e.price == c.open;
      var l :| IsLatest(front, l) && OrderOf(l) == Last(c) && l.price == c.close;
      assert OrderOf(u) != First(c) && OrderOf(u) != Last(c);
    } else {
      assert us == [u];
    }
  }

  lemma {:induction false} VolumeConcat(a: seq<Update>, b: seq<Update>, volume: Update -> int)
    ensures Volume(a + b, volume) == Volume(a, volume) + Volume(b, volume)
  {
    if b == [] {
      assert a + b == a;
    } else {
      VolumeConcat(a, b[..|b| - 1], volume);
      assert (a + b)[..|a + b| - 1] == a + b[..|b| - 1];
    }
  }

  lemma {:induction false} VolumePermutation(us: seq<Update>, vs: seq<Update>, volume: Update -> int)
    requires multiset(us) == multiset(vs)
    ensures Volume(us, volume) == Volume(vs, volume)
  {
    if us == [] {
      assert |vs| == |multiset(vs)| == 0;
    } else {
      var front, u := us[..|us| - 1], us[|us| - 1];
      var i := RemoveLast(us, vs);
      VolumePermutation(front, vs[..i] + vs[i + 1..], volume);
      VolumeConcat(vs[..i], vs[i + 1..], volume);
      assert vs == vs[..i] + [u] + vs[i + 1..];
      VolumeConcat(vs[..i] + [u], vs[i + 1..], volume);
      VolumeConcat(vs[..i], [u], volume);
      assert Volume([u], volume) == Volume([], volume) + volume(u);
    }
  }

  /** Reports without repeats fold to the same candle in every order, counts and volumes included. */
  lemma FoldIsOrderIndependent(us: seq<Update>, vs: seq<Update>)
    requires us != [] && NoRepeats(us) && multiset(us) == multiset(vs)
    ensures Fold(us) == Fold(vs)
  {
    SameElements(us, vs);
    NoRepeatsPermutes(us, vs);
    assert OnePrice(us);
    ShapeDependsOnSet(us, vs);
    FoldCounts(us);
    FoldCounts(vs);
    VolumePermutation(us, vs, BASE);
    VolumePermutation(us, vs, QUOTE);
  }

  lemma NoRepeatsPermutes(us: seq<Update>, vs: seq<Update>)
    requires NoRepeats(us) && multiset(us) == multiset(vs)
    ensures NoRepeats(vs)
  {
    forall i, j | 0 <= i < j < |vs| ensures OrderOf(vs[i]) != OrderOf(vs[j]) {
      var a, b := vs[i], vs[j];
      assert a in multiset(vs) && b in multiset(vs);
      if OrderOf(a) == OrderOf(b) {
        var x :| 0 <= x < |us| && us[x] == a;
        var y :| 0 <= y < |us| && us[y] == b;
        assert x == y && a == b;
        TwiceInMultiset(vs, i, j);
        OnceInMultiset(us, x);
      }
    }
  }

  lemma TwiceInMultiset(vs: seq<Update>, i: nat, j: nat)
    requires i < j < |vs| && vs[i] == vs[j]
    ensures multiset(vs)[vs[i]] >= 2
  {
    assert vs == vs[..j] + [vs[j]] + vs[j + 1..];
    assert vs[i] in vs[..j];
  }

  lemma OnceInMultiset(us: seq<Update>, x: nat)
    requires x < |us| && NoRepeats(us)
    ensures multiset(us)[us[x]] == 1
  {
    assert us == us[..x] + [us[x]] + us[x + 1..];
    assert us[x] !in us[..x] && us[x] !in us[x + 1..];
  }

  lemma FoldAppend(us: seq<Update>, u: Update)
    ensures Fold(us + [u]) == Some(ApplyCandleUpdate(Fold(us), u))
  {
    assert (us + [u])[..|us|] == us;
  }

  lemma FourTrades(a: Update, b: Update, c: Update, d: Update)
    ensures Fold([a] + [b] + [c] + [d])
         == Some(ApplyCandleUpdate(Some(ApplyCandleUpdate(Some(ApplyCandleUpdate(Fold([a]), b)), c)), d))
  {
    FoldAppend([a], b);
    FoldAppend([a] + [b], c);
    FoldAppend([a] + [b] + [c], d);
  }

  /**
   * Idempotence stops at the boundary trades: three trades, the middle one reported twice, count as three when the
   * repeat arrives while it is the latest and as four once a later trade is in.
   */
  lemma InteriorReplayIsCounted(a: Update, b: Update, c: Update)
    requires Precedes(OrderOf(a), OrderOf(b)) && Precedes(OrderOf(b), OrderOf(c))
    ensures multiset([a] + [b] + [b] + [c]) == multiset([a] + [c] + [b] + [b])
    ensures Fold([a] + [b] + [b] + [c]).Some? && Fold([a] + [b] + [b] + [c]).value.tradeCount == 3
    ensures Fold([a] + [c] + [b] + [b]).Some? && Fold([a] + [c] + [b] + [b]).value.tradeCount == 4
  {
    FourTrades(a, b, b, c);
    FourTrades(a, c, b, b);
    var first := ApplyCandleUpdate(None, a);
    assert Fold([a]) == Some(first);
    assert ApplyCandleUpdate(Some(first), b).tradeCount == 2 == ApplyCandleUpdate(Some(first), c).tradeCount;
  }

  // ---- Repeats ----

  /** An update is without effect exactly when it is at the first or last trade of the candle it meets. */
  lemma ReplayIsNoOpExactly(c: Candle, u: Update)
    ensures ApplyCandleUpdate(Some(c), u) == c <==> OrderOf(u) == First(c) || OrderOf(u) == Last(c)
  {
  }

  function Orders(us: seq<Update>): set<Order> {
    set u | u in us :: OrderOf(u)
  }

  /** A trade already reported that is neither the first nor the last of the candle so far. */
  predicate InteriorRepeat(us: seq<Update>, u: Update) {
    us != [] && OrderOf(u) in Orders(us) && OrderOf(u) != First(Fold(us).value) && OrderOf(u) != Last(Fold(us).value)
  }

  /** The first report of every trade. */
  function FirstReports(us: seq<Update>): seq<Update> {
    if us == [] then [] else
    var front, u := us[..|us| - 1], us[|us| - 1];
    if OrderOf(u) in Orders(front) then FirstReports(front) else FirstReports(front) + [u]
  }

  function InteriorRepeats(us: seq<Update>): seq<Update> {
    if us == [] then [] else
    var front, u := us[..|us| - 1], us[|us| - 1];
    if InteriorRepeat(front, u) then InteriorRepeats(front) + [u] else InteriorRepeats(front)
  }

  lemma {:induction false} BoundariesAreReported(us: seq<Update>)
    requires us != []
    ensures First(Fold(us).value) in Orders(us) && Last(Fold(us).value) in Orders(us)
  {
    var front, u := us[..|us| - 1], us[|us| - 1];
    assert us == front + [u];
    OrdersAppend(front, u);
    if front != [] {
      BoundariesAreReported(front);
    }
  }

  lemma VolumeAppend(us: seq<Update>, u: Update, volume: Update -> int)
    ensures Volume(us + [u], volume) == Volume(us, volume) + volume(u)
  {
    assert (us + [u])[..|us|] == us;
  }

  /** What a report adds to a count or a volume: nothing at a boundary, its own share anywhere else. */
  predicate Adds(us: seq<Update>, u: Update) {
    us == [] || (OrderOf(u) != First(Fold(us).value) && OrderOf(u) != Last(Fold(us).value))
  }

  lemma OrdersAppend(us: seq<Update>, u: Update)
    ensures Orders(us + [u]) == Orders(us) + {OrderOf(u)}
  {
  }

  lemma RepeatsStep(us: seq<Update>, u: Update)
    ensures FirstReports(us + [u]) == if OrderOf(u) in Orders(us) then FirstReports(us) else FirstReports(us) + [u]
    ensures InteriorRepeats(us + [u]) == if InteriorRepeat(us, u) then InteriorRepeats(us) + [u] else InteriorRepeats(us)
  {
    assert (us + [u])[..|us|] == us;
  }

  lemma AddsExactly(us: seq<Update>, u: Update)
    ensures Adds(us, u) <==> OrderOf(u) !in Orders(us) || InteriorRepeat(us, u)
  {
    if us != [] {
      BoundariesAreReported(us);
    }
  }

  /** A list of reports, split into the first reports and the interior repeats, has their joint count and volume. */
  ghost predicate Counts(c: Candle, first: seq<Update>, again: seq<Update>) {
    && c.tradeCount == |first| + |again|
    && c.baseVolume == Volume(first, BASE) + Volume(again, BASE)
    && c.quoteVolume == Volume(first, QUOTE) + Volume(again, QUOTE)
  }

  lemma CountsStep(c: Candle, first: seq<Update>, again: seq<Update>, u: Update)
    requires Counts(c, first, again) && OrderOf(u) != First(c) && OrderOf(u) != Last(c)
    ensures Counts(ApplyCandleUpdate(Some(c), u), first + [u], again)
    ensures Counts(ApplyCandleUpdate(Some(c), u), first, again + [u])
  {
    VolumeAppend(first, u, BASE);
    VolumeAppend(first, u, QUOTE);
    VolumeAppend(again, u, BASE);
    VolumeAppend(again, u, QUOTE);
  }

  lemma CountsLast(us: seq<Update>, u: Update)
    requires us != [] && Counts(Fold(us).value, FirstReports(us), InteriorRepeats(us))
    ensures Counts(Fold(us + [u]).value, FirstReports(us + [u]), InteriorRepeats(us + [u]))
  {
    var c := Fold(us).value;
    FoldAppend(us, u);
    RepeatsStep(us, u);
    AddsExactly(us, u);
    if Adds(us, u) {
      CountsStep(c, FirstReports(us), InteriorRepeats(us), u);
    } else {
      assert ApplyCandleUpdate(Some(c), u) == c;
    }
  }

  lemma CountsOne(u: Update)
    ensures Counts(Fold([u]).value, FirstReports([u]), InteriorRepeats([u]))
  {
    RepeatsStep([], u);
    FoldAppend([], u);
    VolumeAppend([], u, BASE);
    VolumeAppend([], u, QUOTE);
    assert [] + [u] == [u];
  }

  /** Any reports whatever: each trade counts once, and once more for every repeat inside the candle it met. */
  lemma {:induction false} CountExact(us: seq<Update>)
    requires us != []
    ensures Counts(Fold(us).value, FirstReports(us), InteriorRepeats(us))
  {
    var front, u := us[..|us| - 1], us[|us| - 1];
    assert us == front + [u];
    if front == [] {
      CountsOne(u);
    } else {
      CountExact(front);
      CountsLast(front, u);
    }
  }

  lemma {:induction false} FirstReportsCount(us: seq<Update>)
    ensures |FirstReports(us)| == |Orders(us)|
  {
    if us == [] {
      assert Orders(us) == {};
    } else {
      var front, u := us[..|us| - 1], us[|us| - 1];
      assert us == front + [u];
      FirstReportsCount(front);
      RepeatsStep(front, u);
      OrdersAppend(front, u);
      if OrderOf(u) in Orders(front) {
        assert Orders(us) == Orders(front);
      }
    }
  }

  /** The count is the number of distinct trades exactly when no report repeated a trade inside the candle it met. */
  lemma CountIsRightExactly(us: seq<Update>)
    requires us != []
    ensures Fold(us).value.tradeCount == |Orders(us)| + |InteriorRepeats(us)|
    ensures Fold(us).value.tradeCount == |Orders(us)| <==> Clean(us)
    ensures Fold(us).value.baseVolume == Volume(FirstReports(us), BASE) <==> Volume(InteriorRepeats(us), BASE) == 0
    ensures Fold(us).value.quoteVolume == Volume(FirstReports(us), QUOTE) <==> Volume(InteriorRepeats(us), QUOTE) == 0
  {
    CountExact(us);
    FirstReportsCount(us);
    NoInteriorRepeats(us);
  }

  ghost predicate Never(us: seq<Update>, bad: (seq<Update>, Update) -> bool) {
    forall i :: 0 <= i < |us| ==> !bad(us[..i], us[i])
  }

  /** No report repeats a trade inside the candle it meets. */
  ghost predicate Clean(us: seq<Update>) {
    Never(us, InteriorRepeat)
  }

  lemma NeverAppend(us: seq<Update>, u: Update, bad: (seq<Update>, Update) -> bool)
    ensures Never(us + [u], bad) <==> Never(us, bad) && !bad(us, u)
  {
    var vs := us + [u];
    assert forall i :: 0 <= i < |us| ==> vs[..i] == us[..i] && vs[i] == us[i];
    assert vs[..|us|] == us && vs[|us|] == u;
  }

  lemma {:induction false} NoInteriorRepeats(us: seq<Update>)
    ensures InteriorRepeats(us) == [] <==> Clean(us)
  {
    if us != [] {
      var front, u := us[..|us| - 1], us[|us| - 1];
      assert us == front + [u];
      NoInteriorRepeats(front);
      NeverAppend(front, u, InteriorRepeat);
    }
  }

  /** A trade is the same however often it is reported. */
  ghost predicate OneTrade(us: seq<Update>) {
    forall u, v :: u in us && v in us && OrderOf(u) == OrderOf(v) ==> u == v
  }

  /** The first reports are the set of trades, each once: what the right volumes are depends on no order. */
  lemma {:induction false} FirstReportsAreTheTrades(us: seq<Update>)
    requires OneTrade(us)
    ensures multiset(FirstReports(us)) == multiset(set u | u in us)
  {
    if us != [] {
      var front, u := us[..|us| - 1], us[|us| - 1];
      assert us == front + [u];
      FirstReportsAreTheTrades(front);
      RepeatsStep(front, u);
      TradesAppend(front, u);
      if OrderOf(u) in Orders(front) {
        assert u in front;
      } else {
        assert u !in front;
      }
    } else {
      assert (set u | u in us) == {};
    }
  }

  lemma TradesAppend(us: seq<Update>, u: Update)
    ensures u in us ==> (set v | v in us + [u]) == (set v | v in us)
    ensures u !in us ==> multiset(set v | v in us + [u]) == multiset(set v | v in us) + multiset{u}
  {
    assert (set v | v in us + [u]) == (set v | v in us) + {u};
  }

  lemma SameTotals(us: seq<Update>, vs: seq<Update>)
    requires us != [] && vs != [] && OneTrade(us) && Clean(us) && Clean(vs) && forall u :: u in us <==> u in vs
    ensures var c, d := Fold(us).value, Fold(vs).value;
      c.tradeCount == d.tradeCount && c.baseVolume == d.baseVolume && c.quoteVolume == d.quoteVolume
  {
    CountExact(us);
    CountExact(vs);
    NoInteriorRepeats(us);
    NoInteriorRepeats(vs);
    FirstReportsAreTheTrades(us);
    FirstReportsAreTheTrades(vs);
    assert (set u | u in us) == (set u | u in vs);
    SameElements(FirstReports(us), FirstReports(vs));
    VolumePermutation(FirstReports(us), FirstReports(vs), BASE);
    VolumePermutation(FirstReports(us), FirstReports(vs), QUOTE);
  }

  /** Two reports of one set of trades, neither with an interior repeat, fold to the same candle. */
  lemma ReportsOfOneSetAgree(us: seq<Update>, vs: seq<Update>)
    requires us != [] && OneTrade(us) && Clean(us) && Clean(vs) && forall u :: u in us <==> u in vs
    ensures vs != [] && Fold(us) == Fold(vs)
  {
    assert us[0] in vs;
    assert OnePrice(us);
    ShapeDependsOnSet(us, vs);
    SameTotals(us, vs);
  }

  // ---- Buckets ----

  const API_TO_STORAGE: map<string, string> := map[
    "1m" := "1min", "1min" := "1min", "5m" := "5min", "5min" := "5min", "10m" := "10min", "10min" := "10min",
    "15m" := "15min", "15min" := "15min", "1h" := "1h", "4h" := "4h", "1d" := "1D", "1w" := "1W",
    "1ME" := "1ME", "1D" := "1D", "1W" := "1W"]

  const INTERVAL_BUCKET_MS: map<string, nat> := map[
    "1min" := 60_000, "5min" := 300_000, "10min" := 600_000, "15min" := 900_000, "1h" := 3_600_000,
    "4h" := 14_400_000, "1D" := 86_400_000, "1W" := 604_800_000, "1ME" := 2_592_000_000]

  function NormalizeForStorage(interval: string): Option<string> {
    if interval in API_TO_STORAGE then Some(API_TO_STORAGE[interval]) else None
  }

  function BucketMs(interval: string): Option<nat> {
    match NormalizeForStorage(interval)
    case None => None
    case Some(n) => if n in INTERVAL_BUCKET_MS then Some(INTERVAL_BUCKET_MS[n]) else None
  }

  datatype BucketKey = BucketKey(poolApplication: string, poolId: int, tokenReversed: bool, interval: string, bucketStartMs: int)

  /** Python's floor quotient; times before the epoch are negative and still round down. */
  function BucketStart(at: int, ms: nat): int
    requires ms > 0
  {
    at / ms * ms
  }

  function BuildBucketKey(poolApplication: string, poolId: int, tokenReversed: bool, interval: string, at: int): Option<BucketKey> {
    match NormalizeForStorage(interval)
    case None => None
    case Some(normalized) =>
      match BucketMs(normalized)
      case None => None
      case Some(ms) =>
        if ms == 0 then None else Some(BucketKey(poolApplication, poolId, tokenReversed, normalized, BucketStart(at, ms)))
  }

  /** Storage names are fixed points of the alias table, so every accepted interval has a bucket width. */
  lemma IntervalsHaveWidths(interval: string)
    requires NormalizeForStorage(interval).Some?
    ensures var n := NormalizeForStorage(interval).value;
      NormalizeForStorage(n) == Some(n) && BucketMs(n) == BucketMs(interval) && BucketMs(n).Some? && BucketMs(n).value > 0
  {
  }

  lemma BucketHolds(at: int, ms: nat)
    requires ms > 0
    ensures BucketStart(at, ms) <= at < BucketStart(at, ms) + ms
  {
  }

  /** A bucket start is the one multiple of the width whose window holds the time. */
  lemma BucketUnique(at: int, ms: nat, k: int)
    requires ms > 0 && k * ms <= at < k * ms + ms
    ensures BucketStart(at, ms) == k * ms
  {
    var q := at / ms;
    BucketHolds(at, ms);
    MulDistributes(q, 1, ms);
    MulDistributes(k, 1, ms);
    if q < k { Widths(q + 1, k, ms); }
    if k < q { Widths(k + 1, q, ms); }
  }

  lemma Widths(a: int, b: int, ms: nat)
    requires a <= b
    ensures a * ms <= b * ms
  {
    MulDistributes(b, a, ms);
    MulMonotone(0, b - a, ms, ms);
  }

  /** A key exists exactly for the accepted intervals, and its window holds the trade's time. */
  lemma BucketKeyExact(poolApplication: string, poolId: int, tokenReversed: bool, interval: string, at: int)
    ensures var key := BuildBucketKey(poolApplication, poolId, tokenReversed, interval, at);
      (key.Some? <==> interval in API_TO_STORAGE) &&
      (key.Some? ==> BucketMs(interval).Some? && BucketMs(interval).value > 0 &&
                     key.value.bucketStartMs <= at < key.value.bucketStartMs + BucketMs(interval).value)
  {
    if interval in API_TO_STORAGE {
      IntervalsHaveWidths(interval);
      BucketHolds(at, BucketMs(interval).value);
    }
  }

  /** The window that starts at `k` widths holds the time. */
  predicate InWindow(at: int, ms: nat, k: int) {
    k * ms <= at < k * ms + ms
  }

  /** A key names the trade's pool and direction and the interval's storage name, and starts at whole widths. */
  lemma BucketKeyParts(poolApplication: string, poolId: int, tokenReversed: bool, interval: string, at: int)
    requires interval in API_TO_STORAGE
    ensures BucketMs(interval).Some? && BucketMs(interval).value > 0
    ensures var key := BuildBucketKey(poolApplication, poolId, tokenReversed, interval, at);
      key.Some? && key.value.poolApplication == poolApplication && key.value.poolId == poolId &&
      key.value.tokenReversed == tokenReversed && key.value.interval == API_TO_STORAGE[interval] &&
      exists k :: InWindow(at, BucketMs(interval).value, k) && key.value.bucketStartMs == k * BucketMs(interval).value
  {
    IntervalsHaveWidths(interval);
    var ms := BucketMs(interval).value;
    BucketHolds(at, ms);
    assert InWindow(at, ms, at / ms);
  }

  /**
   * Two trades land in one candle exactly when pool, direction and storage interval agree and one window of the
   * interval's width holds both times.
   */
  lemma OneCandleExactly(app0: string, pool0: int, reversed0: bool, interval0: string, at0: int,
                         app1: string, pool1: int, reversed1: bool, interval1: string, at1: int)
    requires interval0 in API_TO_STORAGE && interval1 in API_TO_STORAGE
    ensures BucketMs(interval0).Some?
    ensures BuildBucketKey(app0, pool0, reversed0, interval0, at0) == BuildBucketKey(app1, pool1, reversed1, interval1, at1) <==>
      && app0 == app1 && pool0 == pool1 && reversed0 == reversed1
      && API_TO_STORAGE[interval0] == API_TO_STORAGE[interval1]
      && exists k :: InWindow(at0, BucketMs(interval0).value, k) && InWindow(at1, BucketMs(interval0).value, k)
  {
    BucketKeyParts(app0, pool0, reversed0, interval0, at0);
    BucketKeyParts(app1, pool1, reversed1, interval1, at1);
    if API_TO_STORAGE[interval0] == API_TO_STORAGE[interval1] {
      SameWindowExactly(at0, at1, BucketMs(interval0).value);
    }
  }

  lemma SameWindowExactly(at0: int, at1: int, ms: nat)
    requires ms > 0
    ensures BucketStart(at0, ms) == BucketStart(at1, ms) <==> exists k :: InWindow(at0, ms, k) && InWindow(at1, ms, k)
  {
    BucketHolds(at0, ms);
    BucketHolds(at1, ms);
    if BucketStart(at0, ms) == BucketStart(at1, ms) {
      assert InWindow(at0, ms, at0 / ms) && InWindow(at1, ms, at0 / ms);
    }
    if k :| InWindow(at0, ms, k) && InWindow(at1, ms, k) {
      BucketUnique(at0, ms, k);
      BucketUnique(at1, ms, k);
    }
  }

  /** The short and the storage name of a minute interval are one interval, as long as it says. */
  lemma MinuteWidths()
    ensures BucketMs("1m") == BucketMs("1min") == Some(60 * 1000)
    ensures BucketMs("5m") == BucketMs("5min") == Some(5 * 60 * 1000)
  {
  }

  lemma TenMinuteWidths()
    ensures BucketMs("10m") == BucketMs("10min") == Some(10 * 60 * 1000)
    ensures BucketMs("15m") == BucketMs("15min") == Some(15 * 60 * 1000)
  {
  }

  /** So for the longer intervals; a month is 30 days. */
  lemma LongWidths()
    ensures BucketMs("1h") == Some(60 * 60 * 1000) && BucketMs("4h") == Some(4 * 60 * 60 * 1000)
    ensures BucketMs("1d") == BucketMs("1D") == Some(24 * 60 * 60 * 1000)
    ensures BucketMs("1w") == BucketMs("1W") == Some(7 * 24 * 60 * 60 * 1000)
    ensures BucketMs("1ME") == Some(30 * 24 * 60 * 60 * 1000)
  {
  }

  /** When one width divides another, the wide bucket of a time is the wide bucket of its narrow bucket's start. */
  lemma BucketsNest(at: int, narrow: nat, factor: nat)
    requires narrow > 0 && factor > 0
    ensures narrow * factor > 0 && BucketStart(BucketStart(at, narrow), narrow * factor) == BucketStart(at, narrow * factor)
  {
    MulPositive(narrow, factor);
    var wide := narrow * factor;
    var k := at / wide;
    var q := at / narrow;
    BucketHolds(at, wide);
    BucketHolds(at, narrow);
    MulAssoc(k, narrow, factor);
    MulAssoc(k, factor, narrow);
    assert k * wide == k * factor * narrow;
    MulDistributes(q, 1, narrow);
    MulDistributes(k * factor, 1, narrow);
    if q < k * factor { Widths(q + 1, k * factor, narrow); }
    BucketUnique(q * narrow, wide, k);
  }
}
