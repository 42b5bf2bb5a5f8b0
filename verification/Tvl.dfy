/** Total value locked, in the native token: prices spread from pool to pool, then every reserve is valued. */
module Tvl {
  import opened Common
  import opened Sequences

  // ---- Pools and the price edges they give ----

  /** The native token has no identifier of its own. */
  datatype Pool = Pool(token0: string, token1: Option<string>, reserve0: real, reserve1: real)

  /** One unit of `from` is worth `price` units of `to`. */
  datatype Edge = Edge(from: string, to: string, price: real)

  type Prices = map<string, real>

  const NATIVE := "TLINERA"

  function NormalizedToken(token: Option<string>): string {
    match token
    case None => NATIVE
    case Some(t) => t
  }

  predicate Funded(p: Pool) {
    p.reserve0 > 0.0 && p.reserve1 > 0.0
  }

  function Forward(p: Pool): Edge
    requires Funded(p)
  {
    Edge(p.token0, NormalizedToken(p.token1), p.reserve1 / p.reserve0)
  }

  function Backward(p: Pool): Edge
    requires Funded(p)
  {
    Edge(NormalizedToken(p.token1), p.token0, p.reserve0 / p.reserve1)
  }

  function EdgesOf(p: Pool): seq<Edge> {
    if Funded(p) then [Forward(p), Backward(p)] else []
  }

  function Edges(pools: seq<Pool>): seq<Edge> {
    if pools == [] then [] else Edges(pools[..|pools| - 1]) + EdgesOf(pools[|pools| - 1])
  }

  /** Two directed edges for each pool that has both reserves, in the order of the pools. */
  method BuildEdges(pools: seq<Pool>) returns (edges: seq<Edge>)
    ensures edges == Edges(pools)
  {
    edges := [];
    for i := 0 to |pools|
      invariant edges == Edges(pools[..i])
    {
      var p := pools[i];
      assert pools[..i + 1][..i] == pools[..i];
      if Funded(p) {
        edges := edges + [Forward(p)];
        edges := edges + [Backward(p)];
      }
    }
    assert pools[..|pools|] == pools;
  }

  /** The edges are the two directions of every funded pool and nothing else. */
  lemma {:induction false} EdgesExact(pools: seq<Pool>, e: Edge)
    ensures e in Edges(pools) <==> exists p :: p in pools && Funded(p) && (e == Forward(p) || e == Backward(p))
  {
    if pools != [] {
      var front, p := pools[..|pools| - 1], pools[|pools| - 1];
      assert pools == front + [p];
      EdgesExact(front, e);
    }
  }

  // ---- Routes ----

  /** A chain of edges that leads from a token to the native token. */
  ghost predicate Route(edges: seq<Edge>, path: seq<Edge>, token: string) {
    if path == [] then token == NATIVE else
      path[0] in edges && path[0].from == token && Route(edges, path[1..], path[0].to)
  }

  /** What a token is worth along a route: the product of its ratios. */
  function Worth(path: seq<Edge>): real {
    if path == [] then 1.0 else path[0].price * Worth(path[1..])
  }

  ghost predicate Connected(edges: seq<Edge>, token: string) {
    exists path :: Route(edges, path, token)
  }

  ghost predicate Fetches(edges: seq<Edge>, token: string, price: real) {
    exists path :: Route(edges, path, token) && Worth(path) == price
  }

  lemma Extend(edges: seq<Edge>, e: Edge, price: real)
    requires e in edges && Fetches(edges, e.to, price)
    ensures Fetches(edges, e.from, e.price * price)
  {
    var path :| Route(edges, path, e.to) && Worth(path) == price;
    assert ([e] + path)[1..] == path;
    assert Route(edges, [e] + path, e.from) && Worth([e] + path) == e.price * price;
  }

  /** Every price comes from a route. */
  ghost predicate Sourced(edges: seq<Edge>, prices: Prices) {
    NATIVE in prices && prices[NATIVE] == 1.0
    && forall t {:trigger Fetches(edges, t, prices[t])} :: t in prices ==> Fetches(edges, t, prices[t])
  }

  /** No edge could price another token. */
  ghost predicate Closed(edges: seq<Edge>, prices: Prices) {
    forall e :: e in edges && e.to in prices ==> e.from in prices
  }

  lemma SourcedStep(edges: seq<Edge>, prices: Prices, e: Edge)
    requires Sourced(edges, prices) && e in edges && e.to in prices && e.from !in prices
    ensures Sourced(edges, prices[e.from := e.price * prices[e.to]])
  {
    Extend(edges, e, prices[e.to]);
  }

  lemma ClosedStep(edges: seq<Edge>, i: nat, prices: Prices)
    requires i < |edges| && (edges[i].to in prices ==> edges[i].from in prices)
    ensures Closed(edges[..i], prices) ==> Closed(edges[..i + 1], prices)
  {
    assert edges[..i + 1] == edges[..i] + [edges[i]];
  }

  /** What the price loop leaves behind: each price comes from a route, and no edge could price another token. */
  ghost predicate Priced(edges: seq<Edge>, prices: Prices) {
    Sourced(edges, prices) && Closed(edges, prices)
  }

  /** Sweeps the edges until nothing changes. Every changing sweep prices a token that had no price. */
  method SpreadPrices(edges: seq<Edge>) returns (prices: Prices)
    ensures Priced(edges, prices)
  {
    ghost var tokens := set e | e in edges :: e.from;
    prices := map[NATIVE := 1.0];
    assert Route(edges, [], NATIVE) && Worth([]) == 1.0;
    var changed := true;
    while changed
      invariant Sourced(edges, prices)
      invariant !changed ==> Closed(edges, prices)
      decreases |tokens - prices.Keys|, if changed then 1 else 0
    {
      ghost var before := prices;
      changed := false;
      for i := 0 to |edges|
        invariant Sourced(edges, prices)
        invariant !changed ==> prices == before
        invariant !changed ==> Closed(edges[..i], prices)
        invariant changed ==> |tokens - prices.Keys| < |tokens - before.Keys|
      {
        var e := edges[i];
        if e.from in prices || e.to !in prices {
          ClosedStep(edges, i, prices);
          continue;
        }
        SourcedStep(edges, prices, e);
        Shrinks(tokens, prices.Keys, e.from);
        ghost var keys := prices.Keys;
        prices := prices[e.from := e.price * prices[e.to]];
        assert prices.Keys == keys + {e.from};
        changed := true;
      }
      assert edges[..|edges|] == edges;
    }
  }

  lemma Shrinks(tokens: set<string>, keys: set<string>, t: string)
    requires t in tokens && t !in keys
    ensures |tokens - (keys + {t})| < |tokens - keys|
  {
    assert tokens - (keys + {t}) == tokens - keys - {t};
  }

  // ---- What the prices mean ----

  lemma {:induction false} WorthPositive(pools: seq<Pool>, path: seq<Edge>, token: string)
    requires Route(Edges(pools), path, token)
    ensures Worth(path) > 0.0
  {
    if path != [] {
      EdgesExact(pools, path[0]);
      WorthPositive(pools, path[1..], path[0].to);
      ProductPositive(path[0].price, Worth(path[1..]));
    }
  }

  lemma ProductPositive(x: real, y: real)
    requires x > 0.0 && y > 0.0
    ensures x * y > 0.0
  {
  }

  lemma {:induction false} RouteIsPriced(edges: seq<Edge>, prices: Prices, path: seq<Edge>, token: string)
    requires Priced(edges, prices) && Route(edges, path, token)
    ensures token in prices
  {
    if path != [] {
      RouteIsPriced(edges, prices, path[1..], path[0].to);
    }
  }

  lemma PricedConnected(edges: seq<Edge>, prices: Prices, token: string)
    requires Priced(edges, prices)
    ensures token in prices <==> Connected(edges, token)
  {
    if token in prices {
      assert Fetches(edges, token, prices[token]);
    }
    if Connected(edges, token) {
      var path :| Route(edges, path, token);
      RouteIsPriced(edges, prices, path, token);
    }
  }

  /** The priced tokens are exactly those connected to the native token, each at a positive product of ratios. */
  lemma PricedExactly(pools: seq<Pool>, prices: Prices, token: string)
    requires Priced(Edges(pools), prices)
    ensures token in prices <==> Connected(Edges(pools), token)
    ensures token in prices ==> Fetches(Edges(pools), token, prices[token]) && prices[token] > 0.0
  {
    PricedConnected(Edges(pools), prices, token);
    if token in prices {
      assert Fetches(Edges(pools), token, prices[token]);
      var path :| Route(Edges(pools), path, token) && Worth(path) == prices[token];
      WorthPositive(pools, path, token);
    }
  }

  /** A price vector under which both sides of every connected pool are worth the same. */
  ghost predicate Balances(pools: seq<Pool>, value: string -> real) {
    && value(NATIVE) == 1.0
    && forall p :: p in pools && Funded(p) && Connected(Edges(pools), p.token0) ==> Level(p, value)
  }

  predicate Level(p: Pool, value: string -> real) {
    value(p.token0) * p.reserve0 == value(NormalizedToken(p.token1)) * p.reserve1
  }

  /** The same, edge by edge. */
  ghost predicate Consistent(edges: seq<Edge>, value: string -> real) {
    && value(NATIVE) == 1.0
    && forall e :: e in edges && Connected(edges, e.to) ==> Implied(e, value)
  }

  predicate Implied(e: Edge, value: string -> real) {
    value(e.from) == e.price * value(e.to)
  }

  lemma Ratio(v0: real, v1: real, r0: real, r1: real)
    requires r0 > 0.0 && r1 > 0.0
    ensures v0 * r0 == v1 * r1 <==> v0 == r1 / r0 * v1
  {
    var q := r1 / r0;
    assert q * r0 == r1;
    assert v1 * r1 == (q * v1) * r0;
  }

  lemma LevelIsImplied(p: Pool, value: string -> real)
    requires Funded(p)
    ensures Level(p, value) <==> Implied(Forward(p), value)
    ensures Level(p, value) <==> Implied(Backward(p), value)
  {
    var v0, v1 := value(p.token0), value(NormalizedToken(p.token1));
    Ratio(v0, v1, p.reserve0, p.reserve1);
    Ratio(v1, v0, p.reserve1, p.reserve0);
  }

  lemma ConnectedAcross(pools: seq<Pool>, p: Pool)
    requires p in pools && Funded(p)
    ensures Forward(p) in Edges(pools) && Backward(p) in Edges(pools)
    ensures Connected(Edges(pools), p.token0) <==> Connected(Edges(pools), NormalizedToken(p.token1))
  {
    var edges := Edges(pools);
    EdgesExact(pools, Forward(p));
    EdgesExact(pools, Backward(p));
    if Connected(edges, p.token0) {
      var path :| Route(edges, path, p.token0);
      Extend(edges, Backward(p), Worth(path));
    }
    if Connected(edges, NormalizedToken(p.token1)) {
      var path :| Route(edges, path, NormalizedToken(p.token1));
      Extend(edges, Forward(p), Worth(path));
    }
  }

  lemma BalancesIsConsistent(pools: seq<Pool>, value: string -> real)
    ensures Balances(pools, value) <==> Consistent(Edges(pools), value)
  {
    var edges := Edges(pools);
    if Balances(pools, value) {
      forall e | e in edges && Connected(edges, e.to) ensures Implied(e, value) {
        EdgesExact(pools, e);
        var p :| p in pools && Funded(p) && (e == Forward(p) || e == Backward(p));
        ConnectedAcross(pools, p);
        LevelIsImplied(p, value);
      }
    }
    if Consistent(edges, value) {
      forall p | p in pools && Funded(p) && Connected(edges, p.token0) ensures Level(p, value) {
        ConnectedAcross(pools, p);
        LevelIsImplied(p, value);
      }
    }
  }

  lemma {:induction false} RouteValue(edges: seq<Edge>, value: string -> real, path: seq<Edge>, token: string)
    requires Consistent(edges, value) && Route(edges, path, token)
    ensures Worth(path) == value(token)
  {
    if path != [] {
      RouteValue(edges, value, path[1..], path[0].to);
      assert Connected(edges, path[0].to);
      assert Implied(path[0], value);
    }
  }

  /** When some vector balances the pools, the prices are that vector whatever order the edges were swept in. */
  lemma PricesAreTheBalance(pools: seq<Pool>, value: string -> real, prices: Prices, token: string)
    requires Balances(pools, value) && Priced(Edges(pools), prices) && token in prices
    ensures prices[token] == value(token)
  {
    BalancesIsConsistent(pools, value);
    assert Fetches(Edges(pools), token, prices[token]);
    var path :| Route(Edges(pools), path, token) && Worth(path) == prices[token];
    RouteValue(Edges(pools), value, path, token);
  }

  function PriceOf(prices: Prices, token: string): real {
    if token in prices then prices[token] else 0.0
  }

  /** No two routes disagree about a token. */
  ghost predicate RoutesAgree(edges: seq<Edge>) {
    forall token, x, y :: Fetches(edges, token, x) && Fetches(edges, token, y) ==> x == y
  }

  /**
   * Checking the result is enough: the returned prices balance the pools if and only if no two routes disagree, and
   * if and only if any balancing vector exists at all.
   */
  lemma BalanceExists(pools: seq<Pool>, prices: Prices)
    requires Priced(Edges(pools), prices)
    ensures Balances(pools, t => PriceOf(prices, t)) <==> RoutesAgree(Edges(pools))
    ensures Balances(pools, t => PriceOf(prices, t)) <==> exists value :: Balances(pools, value)
  {
    var edges := Edges(pools);
    if value :| Balances(pools, value) {
      BalancesIsConsistent(pools, value);
      ConsistentAgrees(edges, value);
    }
    if RoutesAgree(edges) {
      AgreementIsConsistent(edges, prices);
      BalancesIsConsistent(pools, t => PriceOf(prices, t));
    }
  }

  lemma ConsistentAgrees(edges: seq<Edge>, value: string -> real)
    requires Consistent(edges, value)
    ensures RoutesAgree(edges)
  {
    forall token, x, y | Fetches(edges, token, x) && Fetches(edges, token, y) ensures x == y {
      var a :| Route(edges, a, token) && Worth(a) == x;
      var b :| Route(edges, b, token) && Worth(b) == y;
      RouteValue(edges, value, a, token);
      RouteValue(edges, value, b, token);
    }
  }

  lemma EdgeAgrees(edges: seq<Edge>, prices: Prices, e: Edge)
    requires Priced(edges, prices) && RoutesAgree(edges) && e in edges && e.to in prices
    ensures e.from in prices && prices[e.from] == e.price * prices[e.to]
  {
    var implied: real := e.price * prices[e.to];
    Extend(edges, e, prices[e.to]);
    assert Fetches(edges, e.from, implied);
    assert Fetches(edges, e.from, prices[e.from]);
  }

  lemma AgreementIsConsistent(edges: seq<Edge>, prices: Prices)
    requires Priced(edges, prices) && RoutesAgree(edges)
    ensures Consistent(edges, t => PriceOf(prices, t))
  {
    var value := t => PriceOf(prices, t);
    forall e | e in edges && Connected(edges, e.to) ensures Implied(e, value) {
      PricedConnected(edges, prices, e.to);
      EdgeAgrees(edges, prices, e);
    }
  }

  // ---- Valuation ----

  function Side(token: string, reserve: real, prices: Prices): real {
    if token in prices then reserve * prices[token] else 0.0
  }

  function Holding(p: Pool, prices: Prices): real {
    Side(p.token0, p.reserve0, prices) + Side(NormalizedToken(p.token1), p.reserve1, prices)
  }

  function Total(pools: seq<Pool>, holding: Pool -> real): real {
    if pools == [] then 0.0 else Total(pools[..|pools| - 1], holding) + holding(pools[|pools| - 1])
  }

  function Value(pools: seq<Pool>, prices: Prices): real {
    Total(pools, p => Holding(p, prices))
  }

  lemma ValueStep(pools: seq<Pool>, i: nat, prices: Prices)
    requires i < |pools|
    ensures Value(pools[..i + 1], prices)
         == Value(pools[..i], prices) + (Side(pools[i].token0, pools[i].reserve0, prices)
                                         + Side(NormalizedToken(pools[i].token1), pools[i].reserve1, prices))
  {
    assert pools[..i + 1][..i] == pools[..i];
  }

  method ValuePools(pools: seq<Pool>, prices: Prices) returns (tvl: real)
    ensures tvl == Value(pools, prices)
  {
    tvl := 0.0;
    for i := 0 to |pools|
      invariant tvl == Value(pools[..i], prices)
    {
      var p := pools[i];
      var token0, token1 := p.token0, NormalizedToken(p.token1);
      if token0 in prices {
        tvl := tvl + p.reserve0 * prices[token0];
      }
      if token1 in prices {
        tvl := tvl + p.reserve1 * prices[token1];
      }
      ValueStep(pools, i, prices);
    }
    assert pools[..|pools|] == pools;
  }

  lemma LevelWorth(p: Pool, prices: Prices, v0: real, v1: real)
    requires p.token0 in prices && prices[p.token0] == v0
    requires NormalizedToken(p.token1) in prices && prices[NormalizedToken(p.token1)] == v1
    requires v0 * p.reserve0 == v1 * p.reserve1
    ensures Holding(p, prices) == 2.0 * (v0 * p.reserve0) == 2.0 * (v1 * p.reserve1)
  {
  }

  lemma LevelPoolWorth(p: Pool, value: string -> real, prices: Prices)
    requires p.token0 in prices <==> NormalizedToken(p.token1) in prices
    requires p.token0 in prices ==>
      prices[p.token0] == value(p.token0) && prices[NormalizedToken(p.token1)] == value(NormalizedToken(p.token1)) && Level(p, value)
    ensures Holding(p, prices) == if p.token0 in prices then 2.0 * (value(p.token0) * p.reserve0) else 0.0
    ensures p.token0 in prices ==> Holding(p, prices) == 2.0 * (value(NormalizedToken(p.token1)) * p.reserve1)
  {
    if p.token0 in prices {
      LevelWorth(p, prices, value(p.token0), value(NormalizedToken(p.token1)));
    }
  }

  lemma BalancedPrices(pools: seq<Pool>, value: string -> real, prices: Prices, p: Pool)
    requires Balances(pools, value) && Priced(Edges(pools), prices) && p in pools && Funded(p)
    ensures p.token0 in prices <==> Connected(Edges(pools), p.token0)
    ensures p.token0 in prices <==> NormalizedToken(p.token1) in prices
    ensures p.token0 in prices ==>
      prices[p.token0] == value(p.token0) && prices[NormalizedToken(p.token1)] == value(NormalizedToken(p.token1)) && Level(p, value)
  {
    var token1 := NormalizedToken(p.token1);
    PricedConnected(Edges(pools), prices, p.token0);
    PricedConnected(Edges(pools), prices, token1);
    ConnectedAcross(pools, p);
    if p.token0 in prices {
      PricesAreTheBalance(pools, value, prices, p.token0);
      PricesAreTheBalance(pools, value, prices, token1);
    }
  }

  /**
   * What a pool is worth when the prices balance: twice either side's reserve at its balancing value if the pool is
   * connected to the native token, nothing if it is not.
   */
  lemma PoolWorth(pools: seq<Pool>, value: string -> real, prices: Prices, p: Pool)
    requires Balances(pools, value) && Priced(Edges(pools), prices) && p in pools && Funded(p)
    ensures p.token0 in prices <==> Connected(Edges(pools), p.token0)
    ensures Holding(p, prices) == if p.token0 in prices then 2.0 * (value(p.token0) * p.reserve0) else 0.0
    ensures p.token0 in prices ==> Holding(p, prices) == 2.0 * (value(NormalizedToken(p.token1)) * p.reserve1)
  {
    BalancedPrices(pools, value, prices, p);
    LevelPoolWorth(p, value, prices);
  }

  lemma NativeConnected(pools: seq<Pool>, p: Pool)
    requires p in pools && Funded(p) && p.token1 == None
    ensures Connected(Edges(pools), p.token0)
  {
    assert Route(Edges(pools), [], NATIVE);
    ConnectedAcross(pools, p);
  }

  /** A funded pool against the native token is worth two native reserves, and prices its token at their ratio. */
  lemma NativePoolWorth(pools: seq<Pool>, value: string -> real, prices: Prices, p: Pool)
    requires Balances(pools, value) && Priced(Edges(pools), prices) && p in pools && Funded(p) && p.token1 == None
    ensures p.token0 in prices && prices[p.token0] == p.reserve1 / p.reserve0 && Holding(p, prices) == 2.0 * p.reserve1
  {
    NativeConnected(pools, p);
    BalancedPrices(pools, value, prices, p);
    NativeHolding(p, prices);
  }

  lemma NativeHolding(p: Pool, prices: Prices)
    requires Funded(p) && p.token1 == None && p.token0 in prices && NATIVE in prices && prices[NATIVE] == 1.0
    requires prices[p.token0] * p.reserve0 == prices[NATIVE] * p.reserve1
    ensures prices[p.token0] == p.reserve1 / p.reserve0 && Holding(p, prices) == 2.0 * p.reserve1
  {
    LevelWorth(p, prices, prices[p.token0], 1.0);
    Ratio(prices[p.token0], 1.0, p.reserve0, p.reserve1);
  }

  lemma {:induction false} NativeTvlUpTo(pools: seq<Pool>, value: string -> real, prices: Prices, n: nat)
    requires Balances(pools, value) && Priced(Edges(pools), prices) && n <= |pools|
    requires forall p :: p in pools ==> Funded(p) && p.token1 == None
    ensures Value(pools[..n], prices) == 2.0 * Total(pools[..n], (p: Pool) => p.reserve1)
  {
    if n > 0 {
      NativeTvlUpTo(pools, value, prices, n - 1);
      ValueStep(pools, n - 1, prices);
      NativePoolWorth(pools, value, prices, pools[n - 1]);
      assert pools[..n][..n - 1] == pools[..n - 1];
    }
  }

  /** When every pool is a funded pool against the native token, the total is twice the native reserves. */
  lemma NativeTvl(pools: seq<Pool>, value: string -> real, prices: Prices)
    requires Balances(pools, value) && Priced(Edges(pools), prices)
    requires forall p :: p in pools ==> Funded(p) && p.token1 == None
    ensures Value(pools, prices) == 2.0 * Total(pools, (p: Pool) => p.reserve1)
  {
    NativeTvlUpTo(pools, value, prices, |pools|);
    assert pools[..|pools|] == pools;
  }

  method ExpectedTvlNative(pools: seq<Pool>) returns (tvl: real)
    ensures exists prices :: Priced(Edges(pools), prices) && tvl == Value(pools, prices)
  {
    var edges := BuildEdges(pools);
    var nativePrices := SpreadPrices(edges);
    tvl := ValuePools(pools, nativePrices);
  }

  lemma {:induction false} TotalConcat(a: seq<Pool>, b: seq<Pool>, holding: Pool -> real)
    ensures Total(a + b, holding) == Total(a, holding) + Total(b, holding)
  {
    if b == [] {
      assert a + b == a;
    } else {
      TotalConcat(a, b[..|b| - 1], holding);
      assert (a + b)[..|a + b| - 1] == a + b[..|b| - 1];
    }
  }

  lemma {:induction false} TotalPermutes(us: seq<Pool>, vs: seq<Pool>, holding: Pool -> real)
    requires multiset(us) == multiset(vs)
    ensures Total(us, holding) == Total(vs, holding)
  {
    if us == [] {
      assert |vs| == |multiset(vs)| == 0;
    } else {
      var i := RemoveLast(us, vs);
      TotalPermutes(us[..|us| - 1], vs[..i] + vs[i + 1..], holding);
      TotalConcat(vs[..i], vs[i + 1..], holding);
      assert vs == vs[..i] + [vs[i]] + vs[i + 1..];
      TotalConcat(vs[..i] + [vs[i]], vs[i + 1..], holding);
      TotalConcat(vs[..i], [vs[i]], holding);
      assert Total([vs[i]], holding) == Total([], holding) + holding(vs[i]);
    }
  }

  lemma {:induction false} RoutesPermute(us: seq<Edge>, vs: seq<Edge>, path: seq<Edge>, token: string)
    requires forall e :: e in us <==> e in vs
    requires Route(us, path, token)
    ensures Route(vs, path, token)
  {
    if path != [] {
      RoutesPermute(us, vs, path[1..], path[0].to);
    }
  }

  lemma PricedPermutes(us: seq<Edge>, vs: seq<Edge>, prices: Prices)
    requires forall e :: e in us <==> e in vs
    requires Priced(us, prices)
    ensures Priced(vs, prices)
  {
    forall t | t in prices ensures Fetches(vs, t, prices[t]) {
      assert Fetches(us, t, prices[t]);
      var path :| Route(us, path, t) && Worth(path) == prices[t];
      RoutesPermute(us, vs, path, t);
    }
  }

  /** The value does not depend on the order in which the pools are listed, as long as they agree on prices. */
  lemma TvlIgnoresOrder(us: seq<Pool>, vs: seq<Pool>, value: string -> real, pu: Prices, pv: Prices)
    requires multiset(us) == multiset(vs) && Balances(us, value)
    requires Priced(Edges(us), pu) && Priced(Edges(vs), pv)
    ensures pu == pv && Value(us, pu) == Value(vs, pv)
  {
    SamePools(us, vs);
    PricedPermutes(Edges(vs), Edges(us), pv);
    forall t ensures t in pu <==> t in pv {
      PricedExactly(us, pu, t);
      PricedExactly(us, pv, t);
    }
    forall t | t in pu ensures pu[t] == pv[t] {
      PricesAreTheBalance(us, value, pu, t);
      PricesAreTheBalance(us, value, pv, t);
    }
    assert pu == pv;
    TotalPermutes(us, vs, p => Holding(p, pu));
  }

  lemma SamePools(us: seq<Pool>, vs: seq<Pool>)
    requires multiset(us) == multiset(vs)
    ensures forall e :: e in Edges(us) <==> e in Edges(vs)
  {
    SameElements(us, vs);
    forall e ensures e in Edges(us) <==> e in Edges(vs) {
      EdgesExact(us, e);
      EdgesExact(vs, e);
    }
  }
}
