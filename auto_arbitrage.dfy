/** The trading bot: simulate (or, in live mode, mark as not implemented)
    one trade per top-ranked opportunity and append the trades to the
    persisted ledger. */
module AutoArbitrage {
  import opened Values
  import opened Gamma
  import opened Arbitrage

  /** The settings `main` uses when its environment variable is unset;
      the minimum edge and liquidity default to the scanner's own
      defaults, 0.02 and 5000. */
  const DefaultDryRun: bool := true
  const DefaultLotSize: real := 10.0
  const DefaultMaxTrades: int := 1

  datatype Status = Simulated | NotImplemented

  /** One ledger entry; the wall-clock timestamp is not modelled. */
  datatype Trade = Trade(
    marketId: Json,
    question: Json,
    eventSlug: string,
    lotSize: real,
    yesEntry: real,
    noEntry: real,
    yesCost: real,
    noCost: real,
    totalCost: real,
    settlementValue: real,
    profit: real,
    profitPct: real,
    edge: real,
    status: Status)

  /** `simulate_arbitrage_trade`: buy `lotSize` of each side at the quoted
      prices; exactly one side settles at 1.0 per token. `None` stands for
      the `ZeroDivisionError` raised when the total cost is zero. */
  function SimulateTrade(opp: Opportunity, lotSize: real): (r: Option<Trade>)
    ensures r.None? <==> opp.market.yesPrice * lotSize + opp.market.noPrice * lotSize == 0.0
    ensures r.Some? ==> var t := r.value;
      && t.yesCost == opp.market.yesPrice * lotSize && t.noCost == opp.market.noPrice * lotSize
      && t.totalCost == lotSize * (opp.market.yesPrice + opp.market.noPrice)
      && t.settlementValue == lotSize
      && t.profit == lotSize * (1.0 - opp.market.yesPrice - opp.market.noPrice)
      && t.profitPct == t.profit / t.totalCost * 100.0
      && t.edge == opp.edge && t.status == Simulated
      && t.marketId == opp.market.marketId && t.question == opp.market.question
      && t.eventSlug == opp.market.eventSlug && t.lotSize == lotSize
      && t.yesEntry == opp.market.yesPrice && t.noEntry == opp.market.noPrice
  {
    var yesPrice := opp.market.yesPrice;
    var noPrice := opp.market.noPrice;
    var yesCost := yesPrice * lotSize;
    var noCost := noPrice * lotSize;
    var totalCost := yesCost + noCost;
    var settlementValue := lotSize * 1.0;
    var profit := settlementValue - totalCost;
    if totalCost == 0.0 then None
    else
      Some(Trade(opp.market.marketId, opp.market.question, opp.market.eventSlug, lotSize,
                 yesPrice, noPrice, yesCost, noCost, totalCost, settlementValue,
                 profit, profit / totalCost * 100.0, opp.edge, Simulated))
  }

  /** `execute_live_trade`: the simulated record with its status replaced;
      nothing is placed on the market. */
  function LiveTrade(opp: Opportunity, lotSize: real): (r: Option<Trade>)
    ensures r.Some? <==> SimulateTrade(opp, lotSize).Some?
    ensures r.Some? ==> (r.value.status == NotImplemented
                         && r.value == SimulateTrade(opp, lotSize).value.(status := NotImplemented))
  {
    match SimulateTrade(opp, lotSize)
    case None => None
    case Some(t) => Some(t.(status := NotImplemented))
  }

  function Execute(opp: Opportunity, dryRun: bool, lotSize: real): Option<Trade>
  {
    if dryRun then SimulateTrade(opp, lotSize) else LiveTrade(opp, lotSize)
  }

  /** `opp['question'][:60]`, evaluated for the progress line printed
      before each trade: strings and lists can be sliced, while `None`,
      numbers, booleans and dictionaries raise. */
  predicate Sliceable(q: Json)
  {
    q.JStr? || q.JArr?
  }

  /** One pass of the trading loop: the progress line, then the trade. */
  function Step(opp: Opportunity, dryRun: bool, lotSize: real): Option<Trade>
  {
    if Sliceable(opp.market.question) then Execute(opp, dryRun, lotSize) else None
  }

  /** A loss, not a profit, whenever the two prices add up to more than one:
      the position costs more than the 1.0 per token it settles at. */
  lemma LossAboveParity(opp: Opportunity, lotSize: real, dryRun: bool)
    requires opp.market.yesPrice + opp.market.noPrice > 1.0 && lotSize > 0.0
    ensures Execute(opp, dryRun, lotSize).Some?
    ensures Execute(opp, dryRun, lotSize).value.profit < 0.0
  {
    var s := opp.market.yesPrice + opp.market.noPrice;
    var t := SimulateTrade(opp, lotSize);
    assert opp.market.yesPrice * lotSize + opp.market.noPrice * lotSize == lotSize * s;
    PositiveProduct(lotSize, s - 1.0);
    assert t.Some? && t.value.profit == -(lotSize * (s - 1.0));
  }

  lemma PositiveProduct(a: real, b: real)
    requires a > 0.0 && b > 0.0
    ensures a * b > 0.0
  {
  }

  // ---------------------------------------------------------------------
  // The run: `opps[:max_trades]`, one trade each, ledger append
  // ---------------------------------------------------------------------

  /** Python's `s[:n]`: the first `n` entries, or all but the last `-n`
      when `n` is negative. */
  function Take<T>(s: seq<T>, n: int): (r: seq<T>)
    ensures n >= 0 ==> |r| == if n < |s| then n else |s|
    ensures n < 0 ==> |r| == if |s| + n > 0 then |s| + n else 0
    ensures r == s[..|r|]
  {
    if n >= 0 then (if n < |s| then s[..n] else s)
    else if |s| + n > 0 then s[..|s| + n] else []
  }

  /** The trades of a run, one per opportunity in order; `None` when one
      of them raises. */
  function ExecuteAll(opps: seq<Opportunity>, dryRun: bool, lotSize: real): Option<seq<Trade>>
    decreases |opps|
  {
    if opps == [] then Some([])
    else
      var n := |opps| - 1;
      match ExecuteAll(opps[..n], dryRun, lotSize)
      case None => None
      case Some(ts) =>
        match Step(opps[n], dryRun, lotSize)
        case None => None
        case Some(t) => Some(ts + [t])
  }

  /** How a run ends: nothing to trade (the ledger is not touched), an
      exception before the ledger is written, or the trades of the run and
      the ledger as written back. */
  datatype RunOutcome = NoOpportunities | Crashed | Saved(trades: seq<Trade>, ledger: seq<Trade>)

  /** The entries already in the ledger file; a missing file is an empty
      ledger. */
  function Existing(persisted: Option<seq<Trade>>): seq<Trade>
  {
    if persisted.Some? then persisted.value else []
  }

  function Session(opps: seq<Opportunity>, dryRun: bool, lotSize: real, maxTrades: int,
                   persisted: Option<seq<Trade>>): RunOutcome
  {
    if opps == [] then NoOpportunities
    else
      match ExecuteAll(Take(opps, maxTrades), dryRun, lotSize)
      case None => Crashed
      case Some(ts) => Saved(ts, Existing(persisted) + ts)
  }

  /** The ledger file: a list of trades the run extends in place. */
  class Ledger {
    var trades: seq<Trade>

    constructor Load(persisted: Option<seq<Trade>>)
      ensures trades == Existing(persisted)
    {
      trades := if persisted.Some? then persisted.value else [];
    }

    method Extend(batch: seq<Trade>)
      modifies this
      ensures trades == old(trades) + batch
    {
      trades := trades + batch;
    }
  }

  /** The trading part of the bot's `main`: scan with the default event
      slugs, trade the best `maxTrades` opportunities and append them to
      the ledger. */
  method RunSession(outcomes: seq<FetchOutcome>, codecs: Codecs, dryRunVar: Option<bool>, minEdgeVar: Option<real>,
                    lotSizeVar: Option<real>, minLiquidityVar: Option<real>, maxTradesVar: Option<int>,
                    persisted: Option<seq<Trade>>)
    returns (outcome: RunOutcome)
    requires |outcomes| == |DefaultEventSlugs|
    ensures outcome == Session(Detect(Acquired(DefaultEventSlugs, outcomes, codecs),
                                      OrElse(minEdgeVar, DefaultMinEdge), OrElse(minLiquidityVar, DefaultMinLiquidity)),
                               OrElse(dryRunVar, DefaultDryRun), OrElse(lotSizeVar, DefaultLotSize),
                               OrElse(maxTradesVar, DefaultMaxTrades), persisted)
  {
    var dryRun, lotSize := OrElse(dryRunVar, DefaultDryRun), OrElse(lotSizeVar, DefaultLotSize);
    var maxTrades := OrElse(maxTradesVar, DefaultMaxTrades);
    var minEdge, minLiquidity := OrElse(minEdgeVar, DefaultMinEdge), OrElse(minLiquidityVar, DefaultMinLiquidity);
    var opps := ScanOpportunities(None, outcomes, codecs, Some(minEdge), Some(minLiquidity));
    if opps == [] {
      return NoOpportunities;
    }
    var trades := TradeSelected(Take(opps, maxTrades), dryRun, lotSize);
    if trades.None? {
      return Crashed;
    }
    var ledger := new Ledger.Load(persisted);
    ledger.Extend(trades.value);
    outcome := Saved(trades.value, ledger.trades);
  }

  /** The trading loop of `main`: for each selected opportunity, the
      progress line and then the trade; `None` when one of them raises. */
  method TradeSelected(selected: seq<Opportunity>, dryRun: bool, lotSize: real) returns (trades: Option<seq<Trade>>)
    ensures trades == ExecuteAll(selected, dryRun, lotSize)
  {
    var done: seq<Trade> := [];
    for i := 0 to |selected|
      invariant ExecuteAll(selected[..i], dryRun, lotSize) == Some(done)
    {
      assert selected[..i + 1][..i] == selected[..i];
      if !Sliceable(selected[i].market.question) {
        CrashPropagates(selected, dryRun, lotSize, i + 1);
        return None;
      }
      var result := if dryRun then SimulateTrade(selected[i], lotSize) else LiveTrade(selected[i], lotSize);
      if result.None? {
        CrashPropagates(selected, dryRun, lotSize, i + 1);
        return None;
      }
      done := done + [result.value];
    }
    assert selected[..|selected|] == selected;
    trades := Some(done);
  }

  // ---------------------------------------------------------------------
  // Properties of the run
  // ---------------------------------------------------------------------

  /** Once a trade raises, the run raises whatever follows. */
  lemma {:induction false} CrashPropagates(opps: seq<Opportunity>, dryRun: bool, lotSize: real, k: nat)
    requires k <= |opps|
    requires ExecuteAll(opps[..k], dryRun, lotSize).None?
    ensures ExecuteAll(opps, dryRun, lotSize).None?
    decreases |opps| - k
  {
    if k < |opps| {
      assert opps[..k + 1][..k] == opps[..k];
      CrashPropagates(opps, dryRun, lotSize, k + 1);
    } else {
      assert opps[..k] == opps;
    }
  }

  /** The trades of a completed run are the executions of the
      opportunities, one each, in ranked order. */
  lemma {:induction false} ExecuteAllInOrder(opps: seq<Opportunity>, dryRun: bool, lotSize: real)
    requires ExecuteAll(opps, dryRun, lotSize).Some?
    ensures var ts := ExecuteAll(opps, dryRun, lotSize).value;
      && |ts| == |opps|
      && forall i :: 0 <= i < |opps| ==>
           Sliceable(opps[i].market.question) && Execute(opps[i], dryRun, lotSize) == Some(ts[i])
    decreases |opps|
  {
    if opps != [] {
      var n := |opps| - 1;
      ExecuteAllInOrder(opps[..n], dryRun, lotSize);
    }
  }

  /** A run raises exactly when one of the selected opportunities has a
      question that cannot be sliced or a zero total cost. */
  lemma {:induction false} ExecuteAllCrash(opps: seq<Opportunity>, dryRun: bool, lotSize: real)
    ensures ExecuteAll(opps, dryRun, lotSize).None?
        <==> exists i :: 0 <= i < |opps|
               && (!Sliceable(opps[i].market.question) || Execute(opps[i], dryRun, lotSize).None?)
    decreases |opps|
  {
    if opps != [] {
      var n := |opps| - 1;
      ExecuteAllCrash(opps[..n], dryRun, lotSize);
      if ExecuteAll(opps[..n], dryRun, lotSize).None? {
        var i :| 0 <= i < n && (!Sliceable(opps[..n][i].market.question) || Execute(opps[..n][i], dryRun, lotSize).None?);
        assert opps[..n][i] == opps[i];
      }
    }
  }

  /** A run with opportunities trades the first `maxTrades` of them in
      ranked order, and the ledger it writes is the old ledger followed by
      those trades; earlier entries are unchanged. */
  lemma SessionSaved(opps: seq<Opportunity>, dryRun: bool, lotSize: real, maxTrades: int,
                     persisted: Option<seq<Trade>>)
    requires Session(opps, dryRun, lotSize, maxTrades, persisted).Saved?
    ensures var out := Session(opps, dryRun, lotSize, maxTrades, persisted);
      && opps != []
      && |out.trades| == |Take(opps, maxTrades)|
      && (forall i :: 0 <= i < |out.trades| ==>
            Sliceable(opps[i].market.question) && Execute(opps[i], dryRun, lotSize) == Some(out.trades[i])
            && out.trades[i].marketId == opps[i].market.marketId && out.trades[i].edge == opps[i].edge)
      && out.ledger[..|Existing(persisted)|] == Existing(persisted)
      && out.ledger[|Existing(persisted)|..] == out.trades
  {
    var sel := Take(opps, maxTrades);
    ExecuteAllInOrder(sel, dryRun, lotSize);
    var ts := ExecuteAll(sel, dryRun, lotSize).value;
    forall i | 0 <= i < |ts|
      ensures Sliceable(opps[i].market.question) && Execute(opps[i], dryRun, lotSize) == Some(ts[i])
    {
      assert sel[i] == opps[i];
    }
  }

  /** With a positive minimum edge and a positive lot size, every trade of
      a completed run loses money. */
  lemma SessionLoses(outcomes: seq<FetchOutcome>, codecs: Codecs, dryRun: bool, minEdge: real, lotSize: real,
                     minLiquidity: real, maxTrades: int, persisted: Option<seq<Trade>>, i: nat)
    requires |outcomes| == |DefaultEventSlugs|
    requires minEdge > 0.0 && lotSize > 0.0
    requires var out := Session(Detect(Acquired(DefaultEventSlugs, outcomes, codecs), minEdge, minLiquidity),
                                dryRun, lotSize, maxTrades, persisted);
      out.Saved? && i < |out.trades|
    ensures Session(Detect(Acquired(DefaultEventSlugs, outcomes, codecs), minEdge, minLiquidity),
                    dryRun, lotSize, maxTrades, persisted).trades[i].profit < 0.0
  {
    var opps := Detect(Acquired(DefaultEventSlugs, outcomes, codecs), minEdge, minLiquidity);
    SessionSaved(opps, dryRun, lotSize, maxTrades, persisted);
    DetectThresholds(Acquired(DefaultEventSlugs, outcomes, codecs), minEdge, minLiquidity, opps[i]);
    LossAboveParity(opps[i], lotSize, dryRun);
  }
}
