# polyclaw-dana in Dafny

This project models the core of polyclaw-dana, a bot that looks for
arbitrage on Polymarket's short-interval crypto "Up or Down" markets. A
binary market has a YES and a NO outcome. Buying one share of each costs
`yes + no` and settles at exactly 1.0, so the gap between the two is the
arbitrage.

The model has five modules, one per source file, plus a shared value module.

- `Values` (`values.dfy`) holds the JSON value type that the Gamma API
  returns, Python truthiness, `dict.get` with a default, and the codecs
  (`json.loads`, `float(str)`, `str(...)`). The codecs are parameters of
  the model.
- `TimestampMarkets` (`timestamp_markets.dfy`) turns the clock and a list
  of intervals (`5m`, `15m`, `hourly`) into market windows. Each window
  carries its slug `btc-updown-<interval>-<close>`, its open and close
  timestamps, and the minutes left. The module also keeps the windows
  that are currently open, and picks the next market for one interval.
- `Gamma` (`gamma_client.dfy`) models the Gamma client. It walks the event
  slugs, reads each fetch outcome, and normalises every tradeable market
  record into a `Market`. A failed event contributes nothing.
- `Arbitrage` (`arbitrage.dfy`) keeps the markets that pass the liquidity
  and edge thresholds, annotates them, and ranks them by edge.
- `AutoArbitrage` (`auto_arbitrage.dfy`) covers one bot run. It simulates
  or "executes" the best `max_trades` opportunities and appends the
  trades to a persisted ledger (`Ledger`, a class whose `trades` list is
  extended in place).
- `PriceScraper` (`price_scraper.dfy`) scrapes an event page. The regex
  searches (`<title>`, `"outcomePrices": [...]`, and findall of
  `\d+\.\d+`) are given by leftmost-match specifications, and the title
  is cleaned the way the code does it.

Floating-point numbers are modelled as exact reals. The arbitrage edge is
`yes + no - 1`, exactly as the code computes it. So a market "qualifies"
when YES and NO together cost at least `1 + min_edge`. For such a market
the simulated trade has profit `lot * (1 - yes - no) < 0`.
`AutoArbitrage.SessionLoses` proves this: with a positive minimum edge
and lot size, every trade a run saves is a loss. The docstrings describe
the trade as "guaranteed profit", but the model follows the code's
arithmetic.

## Model

| member | source | states |
|---|---|---|
| TimestampMarkets.CycleOf | lib/timestamp_markets.py:36-46 | only `5m`, `15m` and `hourly` are recognised, with cycles of 300, 900 and 3600 seconds |
| TimestampMarkets.NatDecimalRoundTrip | lib/timestamp_markets.py:72-73 | the decimal rendering of a close timestamp in a slug is non-empty, unsigned and reads back to the same number |
| TimestampMarkets.IntDecimalRoundTrip | lib/timestamp_markets.py:72-73 | rendering of any integer timestamp, negative included, reads back to the same integer |
| TimestampMarkets.SlugsDistinct | lib/timestamp_markets.py:72-73 | within one interval, two different close timestamps never give the same slug |
| TimestampMarkets.NextCloseRounding | lib/timestamp_markets.py:50-55 | the datetime rounding of each branch equals `now - now % cycle + cycle`, the next cycle boundary strictly after now |
| TimestampMarkets.RoundUp5 | lib/timestamp_markets.py:50-51 | the 5-minute branch rounds to the next 300-second boundary |
| TimestampMarkets.RoundUp15 | lib/timestamp_markets.py:52-53 | the 15-minute branch rounds to the next 900-second boundary |
| TimestampMarkets.RoundUpHour | lib/timestamp_markets.py:54-55 | the hourly branch rounds to the next 3600-second boundary |
| TimestampMarkets.FirstCloseBounds | lib/timestamp_markets.py:50-55 | the first close lies in `(now, now + cycle]` and is a multiple of the cycle |
| TimestampMarkets.GenerateMarketUrls | lib/timestamp_markets.py:28-80 | the loop emits exactly the window list of the resolved intervals (default `5m`, `15m`) over the resolved horizon (default 2 hours), interval by interval in order |
| TimestampMarkets.AppendCycleWindows | lib/timestamp_markets.py:58-78 | the inner while loop appends the windows of one interval, from the first close up to `now + hours*3600` inclusive |
| TimestampMarkets.WindowsFromAt | lib/timestamp_markets.py:60-78 | the k-th window of an interval closes at `first + k*cycle`, opens one cycle earlier and carries the truncated minutes to close |
| TimestampMarkets.WindowsFromLength | lib/timestamp_markets.py:60-78 | the loop stops at the last close not after the end time: the last emitted close is `<= end` and the next would be `> end` |
| TimestampMarkets.WindowCount | lib/timestamp_markets.py:58-78 | a recognised interval yields exactly `hours*3600 / cycle` windows |
| TimestampMarkets.IntervalWindowsWellFormed | lib/timestamp_markets.py:60-78 | every window of one interval is aligned to its cycle, opens one cycle before it closes, and closes in `(now, now + hours*3600]`; its minutes until close are the elapsed seconds over 60, between 0 and `hours*60` |
| TimestampMarkets.WindowsWellFormed | lib/timestamp_markets.py:34-78 | the same holds for every window of any interval list, and each window's interval is one of those requested |
| TimestampMarkets.SuccessiveCloses | lib/timestamp_markets.py:78 | consecutive windows of one interval are exactly one cycle apart |
| TimestampMarkets.WindowsFromStep | lib/timestamp_markets.py:78 | the loop advances the close by one cycle per window |
| TimestampMarkets.WindowsAppend | lib/timestamp_markets.py:34 | the windows of a concatenated interval list are the concatenation of their windows |
| TimestampMarkets.UnrecognisedSkipped | lib/timestamp_markets.py:45-46 | an unrecognised interval contributes nothing and does not disturb the others |
| TimestampMarkets.SingleInterval | lib/timestamp_markets.py:34-78 | a one-interval list yields that interval's windows |
| TimestampMarkets.OpenWindowsAppend | lib/timestamp_markets.py:101-102 | the open-now filter distributes over concatenation |
| TimestampMarkets.OpenWindowsOfInterval | lib/timestamp_markets.py:92-102 | with a one-hour horizon, exactly one window of a recognised interval is open now (the one closing at the next boundary), none otherwise |
| TimestampMarkets.FirstWindowIsCurrent | lib/timestamp_markets.py:92-102 | the first generated window of a recognised interval is open at now |
| TimestampMarkets.OpenWindowsNone | lib/timestamp_markets.py:101-102 | windows opening after now are filtered out |
| TimestampMarkets.OpenWindowsAreCurrent | lib/timestamp_markets.py:83-104 | the open windows of the one-hour list are exactly the current window of each recognised interval, in order |
| TimestampMarkets.GetCurrentMarkets | lib/timestamp_markets.py:83-104 | the filtering loop returns exactly the current window of each recognised interval, and each of them is open at now |
| TimestampMarkets.OpenWindowsOnlyOpen | lib/timestamp_markets.py:101-102 | whatever the filter keeps is open at now |
| TimestampMarkets.GetNextMarket | lib/timestamp_markets.py:107-117 | for the requested interval (default `15m`), an unrecognised one gives None and a recognised one gives its current open window; with no argument a `15m` window is always returned |
| Gamma.ParseMarket | lib/gamma_client.py:54-103 | an inactive, closed or resolved record is skipped; a parsed market comes from a dict record and a dict event, carries the queried event slug, and is active, not closed and not resolved |
| Gamma.ParseMarketKeeps | lib/gamma_client.py:65-103 | a record is kept if and only if it is a dict passing the status test, its event is a dict, and its prices, token ids, volume and liquidity convert without raising |
| Gamma.LeadingPricesRead | lib/gamma_client.py:71-75 | with two or more prices, YES and NO are `float()` of the first two entries, which convert |
| Gamma.PlainRecordKept | lib/gamma_client.py:65-99 | an active, open record with two numeric prices, a token-id list and numeric or absent amounts is kept, with its prices, token ids and amounts in place |
| Gamma.AbsentPricesAreEven | lib/gamma_client.py:71-75 | a record without `outcomePrices` is priced at 0.5 / 0.5 |
| Gamma.PriceFormsAgree | lib/gamma_client.py:71-73 | `outcomePrices` given as a JSON string parses like the list it decodes to |
| Gamma.TokenFormsAgree | lib/gamma_client.py:78-79 | `clobTokenIds` given as a JSON string parses like the list it decodes to |
| Gamma.ShortPriceListSumsToOne | lib/gamma_client.py:74-75 | with fewer than two prices the missing side is the complement of the other, and an empty list gives 0.5 |
| Gamma.TokenPositions | lib/gamma_client.py:90-91 | the YES token is the first id and the NO token is the second, each absent when the list is too short |
| Gamma.AmountDefaults | lib/gamma_client.py:92-93 | a missing, null or zero liquidity or volume is 0.0, and an unparseable numeric string drops the record |
| Gamma.MarketUrl | lib/gamma_client.py:98 | the URL is `https://polymarket.com/event/<event slug>/<market slug>` |
| Gamma.Contributions | lib/gamma_client.py:29-52 | there is one contribution per requested event slug |
| Gamma.GetCryptoMarkets | lib/gamma_client.py:26-52 | the fetch loop returns the concatenation, in slug order, of the markets parsed from each successful event (default slugs `crypto-5m`, `crypto-15m`, `crypto-hourly`) |
| Gamma.AppendParsed | lib/gamma_client.py:43-46 | the inner loop appends the parsed markets of one event and keeps those that parse |
| Gamma.ConcatAppend | lib/gamma_client.py:29-52 | gathering two runs of events in sequence equals gathering their concatenation |
| Gamma.ConcatMember | lib/gamma_client.py:29-52 | every gathered market comes from some event's contribution |
| Gamma.ContributionsSplit | lib/gamma_client.py:29-52 | the contribution of slot i depends only on slug i and outcome i |
| Gamma.ConcatSplit | lib/gamma_client.py:29-52 | gathering splits around any one contribution |
| Gamma.AcquiredSplit | lib/gamma_client.py:29-52 | the result is the markets before slot i, then slot i's markets, then those after |
| Gamma.FailureIsolated | lib/gamma_client.py:36-38 | an exception or a non-200 status for one event drops exactly that event's markets and leaves the others |
| Gamma.ParseAllRecords | lib/gamma_client.py:43-46 | every market parsed from an event carries its slug and is active, not closed and not resolved |
| Gamma.AcquiredRecords | lib/gamma_client.py:26-52 | every acquired market belongs to a requested slug and is active, not closed and not resolved |
| Arbitrage.Annotate | scripts/arbitrage.py:56-69 | total is `yes + no`, edge is `total - 1`, and the percentage and per-10/per-100 profits derive from the edge |
| Arbitrage.ScanOpportunities | scripts/arbitrage.py:20-75 | with the thresholds resolved (defaults 0.02 and 5000), the scan returns the qualifying acquired markets, annotated, sorted by edge descending, and a permutation of the filtered list |
| Arbitrage.KeepQualifying | scripts/arbitrage.py:51-70 | the loop keeps, in order, exactly the markets with liquidity not below the minimum and edge at least the minimum |
| Arbitrage.QualifyingMembers | scripts/arbitrage.py:51-70 | an opportunity is kept if and only if it annotates a market that passes both thresholds |
| Arbitrage.QualifyingCount | scripts/arbitrage.py:51-70 | each qualifying market appears as often as in the input, and no other market appears |
| Arbitrage.DetectThresholds | scripts/arbitrage.py:53-69 | every reported opportunity meets the liquidity and edge thresholds and carries consistent annotations |
| Arbitrage.DetectComplete | scripts/arbitrage.py:51-75 | no qualifying market is lost by sorting, and none is duplicated |
| Arbitrage.InsertPermutes | scripts/arbitrage.py:73 | insertion into the ranked list adds exactly the one element |
| Arbitrage.SortByEdgePermutes | scripts/arbitrage.py:73 | the sort by edge is a permutation |
| Arbitrage.InsertSorted | scripts/arbitrage.py:73 | insertion keeps the list in descending edge order |
| Arbitrage.SortByEdgeSorted | scripts/arbitrage.py:73 | the result is in descending edge order |
| Arbitrage.InsertStable | scripts/arbitrage.py:73 | insertion keeps the element after equal-edge elements already present |
| Arbitrage.SortByEdgeStable | scripts/arbitrage.py:73 | the sort is stable: equal-edge opportunities keep their scan order, as Python's sort does |
| Arbitrage.SortSortedIdentity | scripts/arbitrage.py:73 | sorting an already ranked list changes nothing |
| Arbitrage.MarketsOf | scripts/arbitrage.py:63-69 | projecting opportunities back to their market records keeps length and order |
| Arbitrage.ReFilterAnnotated | scripts/arbitrage.py:51-70 | re-filtering the markets of annotated qualifying opportunities gives them back unchanged |
| Arbitrage.DetectIdempotent | scripts/arbitrage.py:51-75 | scanning the markets of a scan result again yields the same ranked list |
| AutoArbitrage.SimulateTrade | scripts/auto_arbitrage.py:28-70 | costs are price times lot, settlement equals the lot, profit is `lot*(1 - yes - no)` and its percentage is over the total cost; the record copies the market fields and edge, status simulated; a zero total cost has no result (the division raises) |
| AutoArbitrage.LiveTrade | scripts/auto_arbitrage.py:73-93 | the live path returns the simulated record with status not implemented, and raises exactly when the simulation does |
| AutoArbitrage.LossAboveParity | scripts/auto_arbitrage.py:38-52 | whenever `yes + no > 1` and the lot is positive, the trade is produced and its profit is negative |
| AutoArbitrage.Take | scripts/auto_arbitrage.py:130 | `opps[:max_trades]` is the prefix of length max_trades, counted from the end for a negative value, clamped to the list |
| AutoArbitrage.Ledger.Load | scripts/auto_arbitrage.py:155-159 | the ledger starts with the persisted trades, or is empty when there is no file |
| AutoArbitrage.Ledger.Extend | scripts/auto_arbitrage.py:161 | the new trades are appended after the existing ones |
| AutoArbitrage.RunSession | scripts/auto_arbitrage.py:96-165 | with each unset setting at its default (dry run, edge 0.02, lot 10, liquidity 5000, one trade), one run equals the session of the ranked scan of the default event slugs: nothing when there are no opportunities, a crash when a progress line or a trade raises, otherwise the trades and the extended ledger |
| AutoArbitrage.TradeSelected | scripts/auto_arbitrage.py:129-146 | the trading loop gives the trades of the selected opportunities in order, or a crash as soon as a question cannot be sliced or a trade raises |
| AutoArbitrage.CrashPropagates | scripts/auto_arbitrage.py:129-146 | once a trade in the prefix raises, the whole run raises |
| AutoArbitrage.ExecuteAllInOrder | scripts/auto_arbitrage.py:129-146 | a completed run has one trade per selected opportunity, in ranking order, and every selected question could be sliced |
| AutoArbitrage.ExecuteAllCrash | scripts/auto_arbitrage.py:129-146 | the run raises if and only if some selected opportunity has a question that `[:60]` cannot slice (line 132) or a trade that raises |
| AutoArbitrage.SessionSaved | scripts/auto_arbitrage.py:122-161 | a saved run had opportunities and trades the first `max_trades` in ranking order, each with a sliceable question; the ledger keeps the old trades as its prefix and ends with the new ones |
| AutoArbitrage.SessionLoses | scripts/auto_arbitrage.py:117-146 | with a positive minimum edge and lot size, every saved trade has negative profit |
| PriceScraper.RunEnd | lib/price_scraper.py:33 | a greedy character-class run ends at the first character outside the class |
| PriceScraper.RunEndAt | lib/price_scraper.py:33 | any maximal run is the one the greedy scan finds |
| PriceScraper.TitleAtMatches | lib/price_scraper.py:28 | the title matcher at a position succeeds exactly on `<title>`, a non-empty run without `<`, then `</title>` |
| PriceScraper.Leftmost | lib/price_scraper.py:28-36 | the search returns the match at the first position where one exists, and None only if no position matches |
| PriceScraper.SearchTitle | lib/price_scraper.py:28 | `re.search` for the title returns the leftmost match |
| PriceScraper.PricesAtMatches | lib/price_scraper.py:33 | a layout of `"outcomePrices"`, whitespace, `:`, whitespace, `[`, a non-empty group without `]`, and `]` is matched with that group |
| PriceScraper.PricesAtMatched | lib/price_scraper.py:33 | every price match has that layout |
| PriceScraper.GroupRun | lib/price_scraper.py:33 | the group `[^\]]+` extends exactly to the first `]` |
| PriceScraper.SearchPrices | lib/price_scraper.py:33-36 | `re.search` for the prices returns the leftmost match |
| PriceScraper.DecimalAt | lib/price_scraper.py:40 | a decimal token match is non-empty and stays within the string |
| PriceScraper.DecimalAtMatches | lib/price_scraper.py:40 | `\d+\.\d+` matches at a position exactly when digits, a point and digits follow, with both digit runs greedy |
| PriceScraper.FoundTokensAreDecimals | lib/price_scraper.py:40 | each token findall returns is digits, one point and digits |
| PriceScraper.NoPointNoTokens | lib/price_scraper.py:40-43 | a group without a decimal point yields no token, so the page is rejected |
| PriceScraper.Pow10 | lib/price_scraper.py:45-46 | the scale of a fraction is positive |
| PriceScraper.BeforeFirst | lib/price_scraper.py:52 | `split('|')[0]` is the prefix before the first bar, which it does not contain |
| PriceScraper.BeforeFirstOf | lib/price_scraper.py:52 | the part before the first bar of `w|rest` is `w` |
| PriceScraper.DecimalValueParts | lib/price_scraper.py:45-46 | `float("w.f")` is the value of its whole and fraction digits |
| PriceScraper.StripLeft | lib/price_scraper.py:52 | leading whitespace is removed, and only that |
| PriceScraper.StripRight | lib/price_scraper.py:52 | trailing whitespace is removed, and only that |
| PriceScraper.Strip | lib/price_scraper.py:52 | `strip()` is a slice dropping only whitespace on both sides, and neither end of a non-empty result is whitespace |
| PriceScraper.CleanTitle | lib/price_scraper.py:52 | a title without `|` is kept as is; otherwise the stripped part before the first bar, which has no bar |
| PriceScraper.ScrapeBody | lib/price_scraper.py:25-59 | None exactly when there is no price match or fewer than two tokens; otherwise YES and NO are the first two tokens, total, edge and percentage follow, arbitrage is flagged iff the edge exceeds 0.015, and the title is the cleaned match or `Unknown` |
| PriceScraper.ScrapeMarketPrices | lib/price_scraper.py:19-63 | an exception or a non-200 status gives None; otherwise the page body is scraped |
| PriceScraper.FindDecimalsSkip | lib/price_scraper.py:40 | findall moves past a non-digit character |
| PriceScraper.DecimalAtToken | lib/price_scraper.py:40 | a token followed by a non-digit is matched whole |
| PriceScraper.QuotedPairLayout | lib/price_scraper.py:32 | the quoted pair `"a","b"` has its parts at the expected offsets |
| PriceScraper.SkipThree | lib/price_scraper.py:40 | findall moves past the `","` separator |
| PriceScraper.QuotedFirst | lib/price_scraper.py:40 | the first quoted decimal is the first token |
| PriceScraper.QuotedSecond | lib/price_scraper.py:40 | the second quoted decimal is the only remaining token |
| PriceScraper.FindDecimalsToken | lib/price_scraper.py:40 | findall returns a token at a match and continues after it |
| PriceScraper.QuotedPairTokens | lib/price_scraper.py:32-40 | the page form `"0.535","0.465"` yields exactly its two decimals |
| PriceScraper.PricePageMatch | lib/price_scraper.py:33 | the price key, any whitespace, a colon, any whitespace and a bracketed group without `]` match with that group |
| PriceScraper.SearchPricesFirst | lib/price_scraper.py:33 | when no price match starts before position p and one starts at p, `re.search` reports the one at p |
| PriceScraper.QuotedPricesReadBack | lib/price_scraper.py:32-46 | a page with any text before its first price entry, any whitespace around the colon, and a quoted decimal pair as that entry, scrapes to exactly those YES and NO values |

## Left out

- Network I/O: the `httpx` requests and their timeouts. Each request is given to the model as its outcome: an exception, or a status with a body. The concurrency of `asyncio` is not modelled; the code awaits each request in turn anyway.
- `json.loads`, `float(str)` and `str(...)` are the `Codecs` parameters of the model. Only the facts the lemmas need about them are assumed, as preconditions (for example, that the literal defaults decode).
- Floating point: prices, edges and costs are exact reals. Rounding in `yes + no - 1`, and whether 0.015 or 0.02 is represented exactly, are not modelled.
- The clock: `datetime.now(timezone.utc)` is an integer `now` in whole seconds. Microseconds, the ISO strings of the windows and the `datetime` objects are not modelled.
- `TimestampMarkets.GetCurrentMarkets` reads the clock twice in the code (once to generate, once to filter). The model uses a single `now`.
- `TimestampMarkets.WindowCount` follows the code: a window closing exactly at the look-ahead end is included, so there are `hours*3600/cycle` windows, not one fewer.
- Environment variables (`DRY_RUN`, `MIN_EDGE`, `LOT_SIZE`, `MIN_LIQUIDITY`, `MAX_TRADES`) are optional parameters of `RunSession`, where an unset variable takes its default. Their values are given already parsed. Parsing their text is not modelled, for example `DRY_RUN` values other than `true`, or a `MIN_EDGE` that `float()` rejects.
- File I/O: reading the ledger file, the `mkdir` and the `json.dump` are not modelled. The file is given as `persisted` (None when it does not exist), and the run returns the ledger to be written. A malformed file, or one without a `trades` key, is not modelled.
- Console output is not modelled: `print`, `print_opportunities`, and the progress and summary lines.
- The `timestamp` field of a trade comes from the clock and is left out of `Trade`.
- The bot's run scans the default event slugs only, because the code passes no slugs.
- `Arbitrage.ScanOpportunities` ranks with the function `SortByEdge`, a stable sort by descending edge. The in-place `list.sort` is not modelled step by step; its result is specified by the sort's properties.
- `PriceScraper`: `\d` and `\s` are ASCII digits and Python's `str.isspace` set. Non-ASCII Unicode decimal digits, which `\d` also matches in Python, are not modelled.
- scripts/scan_now.py is not part of this model. It calls `GammaClient.get_markets_by_slugs` (scripts/scan_now.py:46), which lib/gamma_client.py does not define. It also returns a bare `[]` at line 38, where its `main` unpacks two values at line 65.
- The synchronous `fetch_crypto_markets` wrapper only runs `get_crypto_markets` on an event loop, so it is not part of this model.
