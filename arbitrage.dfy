/** The sum-to-one arbitrage detector (`scan_arbitrage_opportunities`):
    keep the markets that are liquid enough and whose yes and no prices
    add up to at least one plus the minimum edge, annotate them, and rank
    them by edge, best first. */
module Arbitrage {
  import opened Values
  import opened Gamma

  const DefaultMinEdge: real := 0.02
  const DefaultMinLiquidity: real := 5000.0

  /** A market together with the annotations the detector adds; the
      market's own fields are carried over unchanged. */
  datatype Opportunity = Opportunity(
    market: Market,
    total: real,
    edge: real,
    edgePct: real,
    profitPer10: real,
    profitPer100: real)

  /** The two threshold tests of the scan loop: the liquidity is not below
      the minimum and the edge reaches the minimum. */
  predicate Qualifies(m: Market, minEdge: real, minLiquidity: real)
  {
    !(m.liquidity < minLiquidity) && m.yesPrice + m.noPrice - 1.0 >= minEdge
  }

  /** The record the loop appends for a kept market. */
  function Annotate(m: Market): (o: Opportunity)
    ensures o.market == m
    ensures o.total == m.yesPrice + m.noPrice && o.edge == o.total - 1.0
    ensures o.edgePct == o.edge * 100.0 && o.profitPer10 == o.edge * 10.0 && o.profitPer100 == o.edge * 100.0
  {
    var total := m.yesPrice + m.noPrice;
    var edge := total - 1.0;
    Opportunity(m, total, edge, edge * 100.0, edge * 10.0, edge * 100.0)
  }

  /** The annotated qualifying markets, in input order. */
  function Qualifying(markets: seq<Market>, minEdge: real, minLiquidity: real): seq<Opportunity>
    decreases |markets|
  {
    if markets == [] then []
    else
      var m := markets[|markets| - 1];
      Qualifying(markets[..|markets| - 1], minEdge, minLiquidity)
        + (if Qualifies(m, minEdge, minLiquidity) then [Annotate(m)] else [])
  }

  // ---------------------------------------------------------------------
  // Stable descending sort by edge (`list.sort(key=edge, reverse=True)`)
  // ---------------------------------------------------------------------

  predicate SortedByEdge(s: seq<Opportunity>)
  {
    forall i, j :: 0 <= i < j < |s| ==> s[i].edge >= s[j].edge
  }

  /** Place `x` before the first entry whose edge does not exceed its own. */
  function InsertByEdge(x: Opportunity, t: seq<Opportunity>): seq<Opportunity>
    decreases |t|
  {
    if t == [] then [x]
    else if x.edge >= t[0].edge then [x] + t
    else [t[0]] + InsertByEdge(x, t[1..])
  }

  /** The stable descending sort: each entry goes in front of every later
      entry whose edge does not exceed its own, so ties keep their order. */
  function SortByEdge(s: seq<Opportunity>): seq<Opportunity>
    decreases |s|
  {
    if s == [] then [] else InsertByEdge(s[0], SortByEdge(s[1..]))
  }

  /** The entries of `s` whose edge equals `e`, in order. */
  function WithEdge(s: seq<Opportunity>, e: real): seq<Opportunity>
    decreases |s|
  {
    if s == [] then []
    else (if s[0].edge == e then [s[0]] else []) + WithEdge(s[1..], e)
  }

  /** The result of the scan for already acquired markets. */
  function Detect(markets: seq<Market>, minEdge: real, minLiquidity: real): seq<Opportunity>
  {
    SortByEdge(Qualifying(markets, minEdge, minLiquidity))
  }

  /** `scan_arbitrage_opportunities`: acquire the markets, keep and
      annotate the qualifying ones, then rank them. */
  method ScanOpportunities(slugs: Option<seq<string>>, outcomes: seq<FetchOutcome>, codecs: Codecs,
                           minEdgeArg: Option<real>, minLiquidityArg: Option<real>)
    returns (opportunities: seq<Opportunity>)
    requires |outcomes| == |ResolveSlugs(slugs)|
    ensures var minEdge, minLiquidity := OrElse(minEdgeArg, DefaultMinEdge), OrElse(minLiquidityArg, DefaultMinLiquidity);
      && opportunities == Detect(Acquired(ResolveSlugs(slugs), outcomes, codecs), minEdge, minLiquidity)
      && SortedByEdge(opportunities)
      && multiset(opportunities) == multiset(Qualifying(Acquired(ResolveSlugs(slugs), outcomes, codecs), minEdge, minLiquidity))
  {
    var minEdge, minLiquidity := OrElse(minEdgeArg, DefaultMinEdge), OrElse(minLiquidityArg, DefaultMinLiquidity);
    var markets := GetCryptoMarkets(slugs, outcomes, codecs);
    var kept := KeepQualifying(markets, minEdge, minLiquidity);
    opportunities := SortByEdge(kept);
    SortByEdgeSorted(kept);
    SortByEdgePermutes(kept);
  }

  /** The loop of the scan: skip illiquid markets, annotate and keep the
      ones whose edge reaches the minimum. */
  method KeepQualifying(markets: seq<Market>, minEdge: real, minLiquidity: real)
    returns (opportunities: seq<Opportunity>)
    ensures opportunities == Qualifying(markets, minEdge, minLiquidity)
  {
    opportunities := [];
    for i := 0 to |markets|
      invariant opportunities == Qualifying(markets[..i], minEdge, minLiquidity)
    {
      var market := markets[i];
      assert Qualifying(markets[..i + 1], minEdge, minLiquidity)
          == Qualifying(markets[..i], minEdge, minLiquidity)
           + (if Qualifies(market, minEdge, minLiquidity) then [Annotate(market)] else []) by {
        assert markets[..i + 1][..i] == markets[..i];
      }
      if market.liquidity < minLiquidity {
        continue;
      }
      var total := market.yesPrice + market.noPrice;
      var edge := total - 1.0;
      if edge >= minEdge {
        opportunities := opportunities + [Opportunity(market, total, edge, edge * 100.0, edge * 10.0, edge * 100.0)];
      }
    }
    assert markets[..|markets|] == markets;
  }

  // ---------------------------------------------------------------------
  // Properties of the filter
  // ---------------------------------------------------------------------

  /** An entry of the filtered list is the annotation of a qualifying
      input market, and every qualifying input market is annotated there. */
  lemma {:induction false} QualifyingMembers(markets: seq<Market>, minEdge: real, minLiquidity: real, o: Opportunity)
    ensures o in Qualifying(markets, minEdge, minLiquidity)
        <==> exists m :: m in markets && Qualifies(m, minEdge, minLiquidity) && o == Annotate(m)
    decreases |markets|
  {
    if markets != [] {
      var n := |markets| - 1;
      QualifyingMembers(markets[..n], minEdge, minLiquidity, o);
      assert markets == markets[..n] + [markets[n]];
    }
  }

  /** Each qualifying market occurs in the filtered list exactly as often
      as it occurs in the input; others do not occur at all. */
  lemma {:induction false} QualifyingCount(markets: seq<Market>, minEdge: real, minLiquidity: real, m: Market)
    ensures multiset(Qualifying(markets, minEdge, minLiquidity))[Annotate(m)]
         == if Qualifies(m, minEdge, minLiquidity) then multiset(markets)[m] else 0
    decreases |markets|
  {
    if markets != [] {
      var n := |markets| - 1;
      QualifyingCount(markets[..n], minEdge, minLiquidity, m);
      assert markets == markets[..n] + [markets[n]];
      assert Annotate(markets[n]) == Annotate(m) <==> markets[n] == m;
    }
  }

  /** Every entry of the scan's result passes both thresholds, and its
      annotations are computed from its own prices. */
  lemma DetectThresholds(markets: seq<Market>, minEdge: real, minLiquidity: real, o: Opportunity)
    requires o in Detect(markets, minEdge, minLiquidity)
    ensures !(o.market.liquidity < minLiquidity)
    ensures o.total == o.market.yesPrice + o.market.noPrice && o.edge == o.total - 1.0 && o.edge >= minEdge
    ensures o.edgePct == o.edge * 100.0 && o.profitPer10 == o.edge * 10.0 && o.profitPer100 == o.edge * 100.0
  {
    var q := Qualifying(markets, minEdge, minLiquidity);
    SortByEdgePermutes(q);
    assert o in multiset(q);
    QualifyingMembers(markets, minEdge, minLiquidity, o);
  }

  /** Completeness: every market that passes both thresholds appears in
      the result exactly as many times as in the input. */
  lemma DetectComplete(markets: seq<Market>, minEdge: real, minLiquidity: real, m: Market)
    ensures multiset(Detect(markets, minEdge, minLiquidity))[Annotate(m)]
         == if Qualifies(m, minEdge, minLiquidity) then multiset(markets)[m] else 0
  {
    SortByEdgePermutes(Qualifying(markets, minEdge, minLiquidity));
    QualifyingCount(markets, minEdge, minLiquidity, m);
  }

  // ---------------------------------------------------------------------
  // Properties of the sort
  // ---------------------------------------------------------------------

  lemma {:induction false} InsertPermutes(x: Opportunity, t: seq<Opportunity>)
    ensures multiset(InsertByEdge(x, t)) == multiset(t) + multiset{x}
    decreases |t|
  {
    if t != [] && x.edge < t[0].edge {
      InsertPermutes(x, t[1..]);
      assert t == [t[0]] + t[1..];
    }
  }

  lemma {:induction false} SortByEdgePermutes(s: seq<Opportunity>)
    ensures multiset(SortByEdge(s)) == multiset(s)
    decreases |s|
  {
    if s != [] {
      SortByEdgePermutes(s[1..]);
      InsertPermutes(s[0], SortByEdge(s[1..]));
      assert s == [s[0]] + s[1..];
    }
  }

  lemma {:induction false} InsertSorted(x: Opportunity, t: seq<Opportunity>)
    requires SortedByEdge(t)
    ensures SortedByEdge(InsertByEdge(x, t))
    ensures InsertByEdge(x, t) != [] && (InsertByEdge(x, t)[0] == x || (t != [] && InsertByEdge(x, t)[0] == t[0]))
    decreases |t|
  {
    if t != [] && x.edge < t[0].edge {
      InsertSorted(x, t[1..]);
    }
  }

  /** The sort's result is ranked by edge, best first. */
  lemma {:induction false} SortByEdgeSorted(s: seq<Opportunity>)
    ensures SortedByEdge(SortByEdge(s))
    decreases |s|
  {
    if s != [] {
      SortByEdgeSorted(s[1..]);
      InsertSorted(s[0], SortByEdge(s[1..]));
    }
  }

  lemma {:induction false} InsertStable(x: Opportunity, t: seq<Opportunity>, e: real)
    ensures WithEdge(InsertByEdge(x, t), e) == (if x.edge == e then [x] else []) + WithEdge(t, e)
    decreases |t|
  {
    if t == [] {
      assert [x][1..] == [];
    } else if x.edge >= t[0].edge {
      assert ([x] + t)[1..] == t;
    } else {
      var rest := InsertByEdge(x, t[1..]);
      var fromX: seq<Opportunity> := if x.edge == e then [x] else [];
      var fromHead: seq<Opportunity> := if t[0].edge == e then [t[0]] else [];
      assert fromX == [] || fromHead == [];
      assert ([t[0]] + rest)[1..] == rest;
      calc {
        WithEdge(InsertByEdge(x, t), e);
        WithEdge([t[0]] + rest, e);
        fromHead + WithEdge(rest, e);
        { InsertStable(x, t[1..], e); }
        fromHead + (fromX + WithEdge(t[1..], e));
        fromX + (fromHead + WithEdge(t[1..], e));
        fromX + WithEdge(t, e);
      }
    }
  }

  /** Stability: the entries with any one edge value keep their input
      order. */
  lemma {:induction false} SortByEdgeStable(s: seq<Opportunity>, e: real)
    ensures WithEdge(SortByEdge(s), e) == WithEdge(s, e)
    decreases |s|
  {
    if s != [] {
      SortByEdgeStable(s[1..], e);
      InsertStable(s[0], SortByEdge(s[1..]), e);
    }
  }

  /** Sorting a list that is already ranked leaves it as it is. */
  lemma {:induction false} SortSortedIdentity(s: seq<Opportunity>)
    requires SortedByEdge(s)
    ensures SortByEdge(s) == s
    decreases |s|
  {
    if s != [] {
      SortSortedIdentity(s[1..]);
      assert s == [s[0]] + s[1..];
    }
  }

  // ---------------------------------------------------------------------
  // Idempotence
  // ---------------------------------------------------------------------

  function MarketsOf(os: seq<Opportunity>): (ms: seq<Market>)
    ensures |ms| == |os| && forall i :: 0 <= i < |os| ==> ms[i] == os[i].market
  {
    seq(|os|, i requires 0 <= i < |os| => os[i].market)
  }

  lemma {:induction false} ReFilterAnnotated(os: seq<Opportunity>, minEdge: real, minLiquidity: real)
    requires forall o :: o in os ==> Qualifies(o.market, minEdge, minLiquidity) && o == Annotate(o.market)
    ensures Qualifying(MarketsOf(os), minEdge, minLiquidity) == os
    decreases |os|
  {
    if os != [] {
      var n := |os| - 1;
      assert MarketsOf(os)[..n] == MarketsOf(os[..n]);
      ReFilterAnnotated(os[..n], minEdge, minLiquidity);
      assert os == os[..n] + [os[n]];
    }
  }

  /** Scanning the markets of a scan's result again, with the same
      thresholds, gives the same result. */
  lemma DetectIdempotent(markets: seq<Market>, minEdge: real, minLiquidity: real)
    ensures Detect(MarketsOf(Detect(markets, minEdge, minLiquidity)), minEdge, minLiquidity)
         == Detect(markets, minEdge, minLiquidity)
  {
    var out := Detect(markets, minEdge, minLiquidity);
    forall o | o in out
      ensures Qualifies(o.market, minEdge, minLiquidity) && o == Annotate(o.market)
    {
      var q := Qualifying(markets, minEdge, minLiquidity);
      SortByEdgePermutes(q);
      assert o in multiset(q);
      QualifyingMembers(markets, minEdge, minLiquidity, o);
    }
    ReFilterAnnotated(out, minEdge, minLiquidity);
    SortByEdgeSorted(Qualifying(markets, minEdge, minLiquidity));
    SortSortedIdentity(out);
  }
}
