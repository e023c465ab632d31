/** The market-data client: normalising one provider market record
    (`_parse_market`) and the per-event acquisition loop that isolates
    failures (`get_crypto_markets`). HTTP is not modelled: each event
    fetch is given as its outcome. */
module Gamma {
  import opened Values

  const DefaultEventSlugs: seq<string> := ["crypto-5m", "crypto-15m", "crypto-hourly"]
  const MarketUrlBase: string := "https://polymarket.com/event/"

  /** A normalised market: the fixed-shape record `_parse_market` returns.
      Fields copied from the provider keep their JSON value. */
  datatype Market = Market(
    eventSlug: string,
    eventTitle: Json,
    eventId: Json,
    marketId: Json,
    question: Json,
    slug: Json,
    yesPrice: real,
    noPrice: real,
    yesTokenId: Option<Json>,
    noTokenId: Option<Json>,
    volume24h: real,
    liquidity: real,
    endDate: Json,
    active: Json,
    closed: Json,
    resolved: Json,
    url: string)

  // ---------------------------------------------------------------------
  // Python operations on decoded values; None stands for a raised error
  // ---------------------------------------------------------------------

  /** `json.loads(v) if isinstance(v, str) else v` */
  function DecodeIfString(v: Json, codecs: Codecs): Option<Json>
  {
    if v.JStr? then codecs.loads(v.s) else Some(v)
  }

  /** `len(v)`: lists, strings and dictionaries have a length; numbers,
      booleans and `None` raise `TypeError`. */
  function Len(v: Json): Option<nat>
  {
    match v
    case JArr(items) => Some(|items|)
    case JStr(s) => Some(|s|)
    case JObj(fields) => Some(|fields|)
    case _ => None
  }

  /** `v[i]` for an index below `len(v)`: a list element, a one-character
      string; a dictionary raises `KeyError` (its keys are strings). */
  function At(v: Json, i: nat): Option<Json>
  {
    match v
    case JArr(items) => if i < |items| then Some(items[i]) else None
    case JStr(s) => if i < |s| then Some(JStr([s[i]])) else None
    case _ => None
  }

  /** `float(v)`: numbers as they are, booleans as 1.0 and 0.0, strings
      through the library parser; anything else raises. */
  function ToFloat(v: Json, codecs: Codecs): Option<real>
  {
    match v
    case JNum(n) => Some(n)
    case JBool(b) => Some(if b then 1.0 else 0.0)
    case JStr(s) => codecs.parseFloat(s)
    case _ => None
  }

  function FloatAt(v: Json, i: nat, codecs: Codecs): Option<real>
  {
    match At(v, i)
    case None => None
    case Some(x) => ToFloat(x, codecs)
  }

  // ---------------------------------------------------------------------
  // Field normalisation
  // ---------------------------------------------------------------------

  /** The price pair of a raw `outcomePrices` value: positions 0 and 1
      when present, 0.5 for a missing yes price and `1 - yes` for a
      missing no price. */
  function ParsePrices(raw: Json, codecs: Codecs): Option<(real, real)>
  {
    match DecodeIfString(raw, codecs)
    case None => None
    case Some(prices) =>
      match Len(prices)
      case None => None
      case Some(n) =>
        var yes := if n > 0 then FloatAt(prices, 0, codecs) else Some(0.5);
        if yes.None? then None
        else
          var no := if n > 1 then FloatAt(prices, 1, codecs) else Some(1.0 - yes.value);
          if no.None? then None else Some((yes.value, no.value))
  }

  /** `token_ids[i] if len(token_ids) > i else None`; the outer option is
      `None` when the lookup raised. */
  function TokenAt(ids: Json, n: nat, i: nat): Option<Option<Json>>
  {
    if n > i then
      match At(ids, i)
      case None => None
      case Some(x) => Some(Some(x))
    else Some(None)
  }

  /** The yes and no token identifiers of a raw `clobTokenIds` value. */
  function ParseTokens(raw: Json, codecs: Codecs): Option<(Option<Json>, Option<Json>)>
  {
    match DecodeIfString(raw, codecs)
    case None => None
    case Some(ids) =>
      match Len(ids)
      case None => None
      case Some(n) =>
        var yes := TokenAt(ids, n, 0);
        var no := TokenAt(ids, n, 1);
        if yes.None? || no.None? then None else Some((yes.value, no.value))
  }

  /** `float(d.get(key, 0) or 0)`: a falsy or absent amount is 0.0. */
  function Amount(d: map<string, Json>, key: string, codecs: Codecs): Option<real>
  {
    var v := Lookup(d, key, JNum(0.0));
    if Truthy(v) then ToFloat(v, codecs) else Some(0.0)
  }

  /** The status test `_parse_market` applies before anything else. */
  predicate Tradeable(d: map<string, Json>)
  {
    !Truthy(Lookup(d, "closed", JNull)) && !Truthy(Lookup(d, "resolved", JNull)) && Truthy(Lookup(d, "active", JNull))
  }

  /** `_parse_market(market, event, slug)`: `None` for a market that is
      closed, resolved or not active, and for any record whose fields
      raise while being normalised; otherwise the fixed-shape record. */
  function ParseMarket(market: Json, event: Json, slug: string, codecs: Codecs): (r: Option<Market>)
    ensures market.JObj? && !Tradeable(market.fields) ==> r.None?
    ensures r.Some? ==> market.JObj? && event.JObj?
    ensures r.Some? ==> r.value.eventSlug == slug
    ensures r.Some? ==> Truthy(r.value.active) && !Truthy(r.value.closed) && !Truthy(r.value.resolved)
  {
    if !market.JObj? then None
    else
      var m := market.fields;
      if !Tradeable(m) then None
      else if !event.JObj? then None
      else
        var e := event.fields;
        var prices := ParsePrices(Lookup(m, "outcomePrices", JStr(DefaultPricesText)), codecs);
        var tokens := ParseTokens(Lookup(m, "clobTokenIds", JStr(DefaultTokensText)), codecs);
        var volume := Amount(m, "volume24hr", codecs);
        var liquidity := Amount(m, "liquidity", codecs);
        if prices.None? || tokens.None? || volume.None? || liquidity.None? then None
        else
          Some(Market(
            eventSlug := slug,
            eventTitle := Lookup(e, "title", JStr("")),
            eventId := Lookup(e, "id", JStr("")),
            marketId := Lookup(m, "id", JStr("")),
            question := Lookup(m, "question", JStr("")),
            slug := Lookup(m, "slug", JStr("")),
            yesPrice := prices.value.0,
            noPrice := prices.value.1,
            yesTokenId := tokens.value.0,
            noTokenId := tokens.value.1,
            volume24h := volume.value,
            liquidity := liquidity.value,
            endDate := Lookup(m, "endDate", JNull),
            active := Lookup(m, "active", JBool(false)),
            closed := Lookup(m, "closed", JBool(false)),
            resolved := Lookup(m, "resolved", JBool(false)),
            url := MarketUrlBase + Text(Lookup(e, "slug", JStr("")), codecs) + "/"
                   + Text(Lookup(m, "slug", JStr("")), codecs)))
  }

  // ---------------------------------------------------------------------
  // Properties of the normaliser
  // ---------------------------------------------------------------------

  /** A record is kept exactly when it is a dictionary that passes the
      status test, its event is a dictionary, and its prices, token
      identifiers and both amounts convert without raising. */
  lemma ParseMarketKeeps(market: Json, event: Json, slug: string, codecs: Codecs)
    ensures ParseMarket(market, event, slug, codecs).Some?
        <==> && market.JObj? && Tradeable(market.fields) && event.JObj?
             && ParsePrices(Lookup(market.fields, "outcomePrices", JStr(DefaultPricesText)), codecs).Some?
             && ParseTokens(Lookup(market.fields, "clobTokenIds", JStr(DefaultTokensText)), codecs).Some?
             && Amount(market.fields, "volume24hr", codecs).Some?
             && Amount(market.fields, "liquidity", codecs).Some?
  {
  }

  /** With two or more prices, YES and NO are `float()` of the first two
      entries and later entries are ignored. */
  lemma LeadingPricesRead(market: map<string, Json>, event: Json, slug: string, codecs: Codecs, items: seq<Json>)
    requires DecodeIfString(Lookup(market, "outcomePrices", JStr(DefaultPricesText)), codecs) == Some(JArr(items))
    requires |items| >= 2
    requires ParseMarket(JObj(market), event, slug, codecs).Some?
    ensures ToFloat(items[0], codecs).Some? && ToFloat(items[1], codecs).Some?
    ensures var r := ParseMarket(JObj(market), event, slug, codecs).value;
      r.yesPrice == ToFloat(items[0], codecs).value && r.noPrice == ToFloat(items[1], codecs).value
  {
  }

  /** An active, open record with a two-number price list, a list of
      token identifiers and numeric or absent amounts is kept, with its
      prices, tokens and amounts in place. */
  lemma PlainRecordKept(market: map<string, Json>, event: map<string, Json>, slug: string, codecs: Codecs,
                        yes: real, no: real, ids: seq<Json>)
    requires Tradeable(market)
    requires "outcomePrices" in market && market["outcomePrices"] == JArr([JNum(yes), JNum(no)])
    requires "clobTokenIds" in market && market["clobTokenIds"] == JArr(ids)
    requires "volume24hr" in market ==> market["volume24hr"].JNum?
    requires "liquidity" in market ==> market["liquidity"].JNum?
    ensures var r := ParseMarket(JObj(market), JObj(event), slug, codecs);
      && r.Some?
      && r.value.yesPrice == yes && r.value.noPrice == no
      && r.value.yesTokenId == (if |ids| > 0 then Some(ids[0]) else None)
      && r.value.noTokenId == (if |ids| > 1 then Some(ids[1]) else None)
      && r.value.liquidity == (if "liquidity" in market then market["liquidity"].n else 0.0)
      && r.value.volume24h == (if "volume24hr" in market then market["volume24hr"].n else 0.0)
  {
  }

  /** A missing `outcomePrices` gives even odds. */
  lemma AbsentPricesAreEven(market: map<string, Json>, event: Json, slug: string, codecs: Codecs)
    requires DecodesDefaults(codecs)
    requires "outcomePrices" !in market
    requires ParseMarket(JObj(market), event, slug, codecs).Some?
    ensures var r := ParseMarket(JObj(market), event, slug, codecs).value;
      r.yesPrice == 0.5 && r.noPrice == 0.5
  {
  }

  /** A JSON-string `outcomePrices` and the list it encodes give the same
      record. */
  lemma PriceFormsAgree(market: map<string, Json>, event: Json, slug: string, codecs: Codecs,
                        text: string, items: seq<Json>)
    requires codecs.loads(text) == Some(JArr(items))
    ensures ParseMarket(JObj(market["outcomePrices" := JStr(text)]), event, slug, codecs)
         == ParseMarket(JObj(market["outcomePrices" := JArr(items)]), event, slug, codecs)
  {
    var ms, ml := market["outcomePrices" := JStr(text)], market["outcomePrices" := JArr(items)];
    assert ParsePrices(Lookup(ms, "outcomePrices", JStr(DefaultPricesText)), codecs)
        == ParsePrices(Lookup(ml, "outcomePrices", JStr(DefaultPricesText)), codecs) by {
      assert DecodeIfString(ms["outcomePrices"], codecs) == DecodeIfString(ml["outcomePrices"], codecs);
    }
  }

  /** Likewise for `clobTokenIds`. */
  lemma TokenFormsAgree(market: map<string, Json>, event: Json, slug: string, codecs: Codecs,
                        text: string, items: seq<Json>)
    requires codecs.loads(text) == Some(JArr(items))
    ensures ParseMarket(JObj(market["clobTokenIds" := JStr(text)]), event, slug, codecs)
         == ParseMarket(JObj(market["clobTokenIds" := JArr(items)]), event, slug, codecs)
  {
    var ms, ml := market["clobTokenIds" := JStr(text)], market["clobTokenIds" := JArr(items)];
    assert ParseTokens(Lookup(ms, "clobTokenIds", JStr(DefaultTokensText)), codecs)
        == ParseTokens(Lookup(ml, "clobTokenIds", JStr(DefaultTokensText)), codecs) by {
      assert DecodeIfString(ms["clobTokenIds"], codecs) == DecodeIfString(ml["clobTokenIds"], codecs);
    }
  }

  /** With fewer than two prices the no price is the complement of the yes
      price, so the pair sums to one. */
  lemma ShortPriceListSumsToOne(market: map<string, Json>, event: Json, slug: string, codecs: Codecs, items: seq<Json>)
    requires DecodeIfString(Lookup(market, "outcomePrices", JStr(DefaultPricesText)), codecs) == Some(JArr(items))
    requires |items| < 2
    requires ParseMarket(JObj(market), event, slug, codecs).Some?
    ensures var r := ParseMarket(JObj(market), event, slug, codecs).value;
      r.yesPrice + r.noPrice == 1.0 && (items == [] ==> r.yesPrice == 0.5)
  {
  }

  /** The token identifiers are the first two list entries, `None` where
      the list is shorter; later entries are ignored. */
  lemma TokenPositions(market: map<string, Json>, event: Json, slug: string, codecs: Codecs, ids: seq<Json>)
    requires DecodeIfString(Lookup(market, "clobTokenIds", JStr(DefaultTokensText)), codecs) == Some(JArr(ids))
    requires ParseMarket(JObj(market), event, slug, codecs).Some?
    ensures var r := ParseMarket(JObj(market), event, slug, codecs).value;
      && r.yesTokenId == (if |ids| > 0 then Some(ids[0]) else None)
      && r.noTokenId == (if |ids| > 1 then Some(ids[1]) else None)
  {
  }

  /** Absent, null and zero amounts become 0.0; an amount `float()`
      cannot convert drops the record. */
  lemma AmountDefaults(market: map<string, Json>, event: Json, slug: string, codecs: Codecs, key: string)
    requires key == "liquidity" || key == "volume24hr"
    ensures var r := ParseMarket(JObj(market), event, slug, codecs);
      && (r.Some? && (key !in market || market[key] == JNull || market[key] == JNum(0.0)) ==>
            (if key == "liquidity" then r.value.liquidity else r.value.volume24h) == 0.0)
      && (key in market && market[key].JStr? && market[key].s != "" && codecs.parseFloat(market[key].s).None? ==> r.None?)
  {
  }

  /** The detail page of a market is the event page followed by the
      market's slug. */
  lemma MarketUrl(market: map<string, Json>, event: map<string, Json>, slug: string, codecs: Codecs, eventSlug: string, marketSlug: string)
    requires "slug" in event && event["slug"] == JStr(eventSlug)
    requires "slug" in market && market["slug"] == JStr(marketSlug)
    requires ParseMarket(JObj(market), JObj(event), slug, codecs).Some?
    ensures ParseMarket(JObj(market), JObj(event), slug, codecs).value.url
         == "https://polymarket.com/event/" + eventSlug + "/" + marketSlug
  {
  }

  // ---------------------------------------------------------------------
  // Acquisition over several events
  // ---------------------------------------------------------------------

  /** The result of fetching one event: the request raised, or a response
      with its status and its body (`None` when the body is not JSON). */
  datatype FetchOutcome = Raised | Response(status: int, body: Option<Json>)

  function ResolveSlugs(slugs: Option<seq<string>>): seq<string>
  {
    if slugs.None? then DefaultEventSlugs else slugs.value
  }

  /** The markets `event.get('markets', [])` yields when iterated. A
      string or a dictionary iterates over strings, which all parse to
      `None`; any other non-list raises before the first market. Either
      way only a list contributes. */
  function EventMarkets(event: map<string, Json>): seq<Json>
  {
    var v := Lookup(event, "markets", JArr([]));
    if v.JArr? then v.items else []
  }

  /** The non-`None` parses of a list of raw markets, in order. */
  function ParseAll(markets: seq<Json>, event: Json, slug: string, codecs: Codecs): seq<Market>
    decreases |markets|
  {
    if markets == [] then []
    else
      var parsed := ParseMarket(markets[|markets| - 1], event, slug, codecs);
      ParseAll(markets[..|markets| - 1], event, slug, codecs) + (if parsed.Some? then [parsed.value] else [])
  }

  /** What one event slug contributes: nothing when the fetch raised, the
      status is not 200 or the body is not a JSON object. */
  function Contribution(slug: string, outcome: FetchOutcome, codecs: Codecs): seq<Market>
  {
    match outcome
    case Raised => []
    case Response(status, body) =>
      if status != 200 || body.None? || !body.value.JObj? then []
      else ParseAll(EventMarkets(body.value.fields), body.value, slug, codecs)
  }

  function Contributions(slugs: seq<string>, outcomes: seq<FetchOutcome>, codecs: Codecs): (parts: seq<seq<Market>>)
    requires |outcomes| == |slugs|
    ensures |parts| == |slugs|
  {
    seq(|slugs|, i requires 0 <= i < |slugs| => Contribution(slugs[i], outcomes[i], codecs))
  }

  function Concat(parts: seq<seq<Market>>): seq<Market>
    decreases |parts|
  {
    if parts == [] then [] else Concat(parts[..|parts| - 1]) + parts[|parts| - 1]
  }

  /** The records `get_crypto_markets` returns for the given fetch
      outcomes: each slug's contribution, in slug order. */
  function Acquired(slugs: seq<string>, outcomes: seq<FetchOutcome>, codecs: Codecs): seq<Market>
    requires |outcomes| == |slugs|
  {
    Concat(Contributions(slugs, outcomes, codecs))
  }

  /** `get_crypto_markets`: fetch each event in turn; a failed fetch is
      reported and skipped, the others proceed. */
  method GetCryptoMarkets(slugs: Option<seq<string>>, outcomes: seq<FetchOutcome>, codecs: Codecs)
    returns (allMarkets: seq<Market>)
    requires |outcomes| == |ResolveSlugs(slugs)|
    ensures allMarkets == Acquired(ResolveSlugs(slugs), outcomes, codecs)
  {
    var eventSlugs := ResolveSlugs(slugs);
    ghost var parts := Contributions(eventSlugs, outcomes, codecs);
    allMarkets := [];
    for i := 0 to |eventSlugs|
      invariant allMarkets == Concat(parts[..i])
    {
      assert parts[..i + 1][..i] == parts[..i];
      var slug := eventSlugs[i];
      assert parts[i] == Contribution(slug, outcomes[i], codecs);
      match outcomes[i]
      case Raised =>
        continue;
      case Response(status, body) =>
        if status != 200 || body.None? || !body.value.JObj? {
          continue;
        }
        var event := body.value;
        var markets := EventMarkets(event.fields);
        allMarkets := AppendParsed(allMarkets, markets, event, slug, codecs);
    }
    assert parts[..|eventSlugs|] == parts;
  }

  /** The inner loop of `get_crypto_markets`: append every market of one
      event that parses. */
  method AppendParsed(allMarkets: seq<Market>, markets: seq<Json>, event: Json, slug: string, codecs: Codecs)
    returns (extended: seq<Market>)
    ensures extended == allMarkets + ParseAll(markets, event, slug, codecs)
  {
    extended := allMarkets;
    for j := 0 to |markets|
      invariant extended == allMarkets + ParseAll(markets[..j], event, slug, codecs)
    {
      assert markets[..j + 1][..j] == markets[..j];
      var parsed := ParseMarket(markets[j], event, slug, codecs);
      if parsed.Some? {
        extended := extended + [parsed.value];
      }
    }
    assert markets[..|markets|] == markets;
  }

  // ---------------------------------------------------------------------
  // Properties of acquisition
  // ---------------------------------------------------------------------

  lemma {:induction false} ConcatAppend(a: seq<seq<Market>>, b: seq<seq<Market>>)
    ensures Concat(a + b) == Concat(a) + Concat(b)
    decreases |b|
  {
    if b == [] {
      assert a + b == a;
    } else {
      var n := |b| - 1;
      assert (a + b)[..|a + b| - 1] == a + b[..n];
      assert (a + b)[|a + b| - 1] == b[n];
      calc {
        Concat(a + b);
        Concat(a + b[..n]) + b[n];
        { ConcatAppend(a, b[..n]); }
        Concat(a) + Concat(b[..n]) + b[n];
      }
    }
  }

  lemma {:induction false} ConcatMember(parts: seq<seq<Market>>, r: Market)
    requires r in Concat(parts)
    ensures exists j :: 0 <= j < |parts| && r in parts[j]
    decreases |parts|
  {
    var n := |parts| - 1;
    if r !in parts[n] {
      ConcatMember(parts[..n], r);
      var j :| 0 <= j < n && r in parts[..n][j];
      assert r in parts[j];
    }
  }

  lemma ContributionsSplit(slugs: seq<string>, outcomes: seq<FetchOutcome>, codecs: Codecs, i: nat)
    requires |outcomes| == |slugs| && i < |slugs|
    ensures Contributions(slugs, outcomes, codecs)
         == Contributions(slugs[..i], outcomes[..i], codecs)
          + [Contribution(slugs[i], outcomes[i], codecs)]
          + Contributions(slugs[i + 1..], outcomes[i + 1..], codecs)
  {
  }

  lemma ConcatSplit(before: seq<seq<Market>>, middle: seq<Market>, after: seq<seq<Market>>)
    ensures Concat(before + [middle] + after) == Concat(before) + middle + Concat(after)
  {
    ConcatAppend(before + [middle], after);
    ConcatAppend(before, [middle]);
    assert [middle][..0] == [];
  }

  /** The result is the contribution of each slug in turn: what comes
      before a slug, its own contribution, and what comes after. */
  lemma AcquiredSplit(slugs: seq<string>, outcomes: seq<FetchOutcome>, codecs: Codecs, i: nat)
    requires |outcomes| == |slugs| && i < |slugs|
    ensures Acquired(slugs, outcomes, codecs)
         == Acquired(slugs[..i], outcomes[..i], codecs)
          + Contribution(slugs[i], outcomes[i], codecs)
          + Acquired(slugs[i + 1..], outcomes[i + 1..], codecs)
  {
    ContributionsSplit(slugs, outcomes, codecs, i);
    ConcatSplit(Contributions(slugs[..i], outcomes[..i], codecs), Contribution(slugs[i], outcomes[i], codecs),
                Contributions(slugs[i + 1..], outcomes[i + 1..], codecs));
  }

  /** Failure isolation: a slug whose fetch raises or answers with a
      status other than 200 removes exactly its own contribution and
      leaves every other slug's in place. */
  lemma FailureIsolated(slugs: seq<string>, outcomes: seq<FetchOutcome>, codecs: Codecs, i: nat, failed: FetchOutcome)
    requires |outcomes| == |slugs| && i < |slugs|
    requires failed.Raised? || (failed.Response? && failed.status != 200)
    ensures Acquired(slugs, outcomes[i := failed], codecs)
         == Acquired(slugs[..i], outcomes[..i], codecs) + Acquired(slugs[i + 1..], outcomes[i + 1..], codecs)
  {
    var failedAt := outcomes[i := failed];
    assert failedAt[..i] == outcomes[..i] && failedAt[i + 1..] == outcomes[i + 1..];
    assert Contribution(slugs[i], failedAt[i], codecs) == [];
    AcquiredSplit(slugs, failedAt, codecs, i);
  }

  lemma {:induction false} ParseAllRecords(markets: seq<Json>, event: Json, slug: string, codecs: Codecs)
    ensures forall r :: r in ParseAll(markets, event, slug, codecs) ==>
      r.eventSlug == slug && Truthy(r.active) && !Truthy(r.closed) && !Truthy(r.resolved)
    decreases |markets|
  {
    if markets != [] {
      ParseAllRecords(markets[..|markets| - 1], event, slug, codecs);
    }
  }

  /** Every acquired record comes from one of the requested slugs and is
      active, not closed and not resolved. */
  lemma AcquiredRecords(slugs: seq<string>, outcomes: seq<FetchOutcome>, codecs: Codecs, r: Market)
    requires |outcomes| == |slugs|
    requires r in Acquired(slugs, outcomes, codecs)
    ensures r.eventSlug in slugs && Truthy(r.active) && !Truthy(r.closed) && !Truthy(r.resolved)
  {
    var parts := Contributions(slugs, outcomes, codecs);
    ConcatMember(parts, r);
    var j :| 0 <= j < |parts| && r in parts[j];
    assert r in Contribution(slugs[j], outcomes[j], codecs);
    var body := outcomes[j].body.value;
    ParseAllRecords(EventMarkets(body.fields), body, slugs[j], codecs);
  }
}
