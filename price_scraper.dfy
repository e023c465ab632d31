/** The event-page price extractor (`scrape_market_prices` after the
    HTTP request): the page title, the first two decimal tokens inside the
    embedded `"outcomePrices":[...]` array, and the fixed-threshold
    arbitrage flag. The three regular expressions are written out as
    scanners with Python's leftmost, greedy matching. */
module PriceScraper {
  import opened Values

  const ArbitrageThreshold: real := 0.015
  const UnknownTitle: string := "Unknown"
  const TitleOpen: string := "<title>"
  const TitleClose: string := "</title>"
  const PricesKey: string := "\"outcomePrices\""

  /** `str.isspace()`, which is also what `\s` matches in a `str` pattern. */
  predicate IsSpace(c: char)
  {
    var n := c as int;
    (9 <= n <= 13) || (28 <= n <= 32) || n == 0x85 || n == 0xA0 || n == 0x1680
    || (0x2000 <= n <= 0x200A) || n == 0x2028 || n == 0x2029 || n == 0x202F
    || n == 0x205F || n == 0x3000
  }

  /** An ASCII decimal digit. */
  predicate IsDigit(c: char)
  {
    '0' <= c <= '9'
  }

  predicate NotOpenAngle(c: char) { c != '<' }

  predicate NotCloseBracket(c: char) { c != ']' }

  /** `s[i:]` starts with `lit`. */
  predicate StartsWithAt(s: string, i: nat, lit: string)
  {
    i + |lit| <= |s| && s[i..i + |lit|] == lit
  }

  /** The end of the longest run of characters satisfying `p` from `i`:
      what a greedy `X*` consumes. */
  function RunEnd(s: string, i: nat, p: char -> bool): (j: nat)
    requires i <= |s|
    ensures i <= j <= |s|
    ensures forall k :: i <= k < j ==> p(s[k])
    ensures j < |s| ==> !p(s[j])
    decreases |s| - i
  {
    if i < |s| && p(s[i]) then RunEnd(s, i + 1, p) else i
  }

  lemma {:induction false} RunEndAt(s: string, i: nat, j: nat, p: char -> bool)
    requires i <= j <= |s|
    requires forall k :: i <= k < j ==> p(s[k])
    requires j < |s| ==> !p(s[j])
    ensures RunEnd(s, i, p) == j
    decreases j - i
  {
    if i < j {
      RunEndAt(s, i + 1, j, p);
    }
  }

  // ---------------------------------------------------------------------
  // <title>([^<]+)</title>
  // ---------------------------------------------------------------------

  /** The group of a title match starting at `p`. A run of non-`<`
      characters can only be followed by `<` or the end, so the greedy
      run is the only one that can reach `</title>`. */
  function TitleAt(html: string, p: nat): Option<string>
  {
    if !StartsWithAt(html, p, TitleOpen) then None
    else
      var a := p + |TitleOpen|;
      var e := RunEnd(html, a, NotOpenAngle);
      if e > a && StartsWithAt(html, e, TitleClose) then Some(html[a..e]) else None
  }

  /** What the pattern matches at `p` with group `t`, stated directly. */
  predicate TitleMatch(html: string, p: nat, t: string)
  {
    && StartsWithAt(html, p, TitleOpen)
    && |t| >= 1 && (forall k :: 0 <= k < |t| ==> t[k] != '<')
    && StartsWithAt(html, p + |TitleOpen|, t)
    && StartsWithAt(html, p + |TitleOpen| + |t|, TitleClose)
  }

  lemma TitleAtMatches(html: string, p: nat, t: string)
    ensures TitleAt(html, p) == Some(t) <==> TitleMatch(html, p, t)
  {
    if TitleMatch(html, p, t) {
      var a := p + |TitleOpen|;
      assert forall k :: a <= k < a + |t| ==> html[k] == t[k - a];
      assert html[a + |t|] == TitleClose[0];
      RunEndAt(html, a, a + |t|, NotOpenAngle);
    }
  }

  /** `re.search`: the leftmost position from `from` up to `last` where
      `matchAt` matches, and its group. */
  function Leftmost(matchAt: nat -> Option<string>, last: nat, from: nat): (r: Option<string>)
    ensures r.Some? ==> exists p :: from <= p <= last && matchAt(p) == r
                          && forall q :: from <= q < p ==> matchAt(q).None?
    ensures r.None? ==> forall q :: from <= q <= last ==> matchAt(q).None?
    decreases last + 1 - from
  {
    if from > last then None
    else
      var here := matchAt(from);
      if here.Some? then here else Leftmost(matchAt, last, from + 1)
  }

  /** The title match `re.search` finds. */
  function SearchTitle(html: string): (r: Option<string>)
    ensures r.Some? ==> exists p :: 0 <= p <= |html| && TitleAt(html, p) == r
                          && forall q :: 0 <= q < p ==> TitleAt(html, q).None?
    ensures r.None? ==> forall q :: 0 <= q <= |html| ==> TitleAt(html, q).None?
  {
    var matchAt := (p: nat) => TitleAt(html, p);
    assert forall q: nat :: matchAt(q) == TitleAt(html, q);
    Leftmost(matchAt, |html|, 0)
  }

  // ---------------------------------------------------------------------
  // "outcomePrices"\s*:\s*\[([^\]]+)\]
  // ---------------------------------------------------------------------

  /** The group of a price-array match starting at `p`. Whitespace is never
      `:` or `[`, and a run of non-`]` characters can only be followed by
      `]`, so each greedy run is the only one that can succeed. */
  function PricesAt(html: string, p: nat): Option<string>
  {
    if !StartsWithAt(html, p, PricesKey) then None
    else
      var e1 := RunEnd(html, p + |PricesKey|, IsSpace);
      if e1 == |html| || html[e1] != ':' then None
      else
        var e2 := RunEnd(html, e1 + 1, IsSpace);
        if e2 == |html| || html[e2] != '[' then None
        else
          var e3 := RunEnd(html, e2 + 1, NotCloseBracket);
          if e3 > e2 + 1 && e3 < |html| then Some(html[e2 + 1..e3]) else None
  }

  /** What the pattern matches at `p` with `w1` and `w2` whitespace
      characters around the colon and group `g`, stated directly. */
  predicate PricesMatch(html: string, p: nat, w1: nat, w2: nat, g: string)
  {
    var c := p + |PricesKey| + w1;
    var b := c + 1 + w2;
    && StartsWithAt(html, p, PricesKey)
    && b + 1 + |g| < |html|
    && (forall k :: p + |PricesKey| <= k < c ==> IsSpace(html[k]))
    && html[c] == ':'
    && (forall k :: c + 1 <= k < b ==> IsSpace(html[k]))
    && html[b] == '['
    && |g| >= 1 && (forall k :: 0 <= k < |g| ==> g[k] != ']')
    && html[b + 1..b + 1 + |g|] == g
    && html[b + 1 + |g|] == ']'
  }

  lemma PricesAtMatches(html: string, p: nat, w1: nat, w2: nat, g: string)
    requires PricesMatch(html, p, w1, w2, g)
    ensures PricesAt(html, p) == Some(g)
  {
    var c := p + |PricesKey| + w1;
    var b := c + 1 + w2;
    RunEndAt(html, p + |PricesKey|, c, IsSpace);
    RunEndAt(html, c + 1, b, IsSpace);
    GroupRun(html, b + 1, g);
  }

  /** A group without `]` followed by `]` is exactly what the greedy
      `[^\]]+` consumes. */
  lemma GroupRun(html: string, start: nat, g: string)
    requires start + |g| < |html| && html[start..start + |g|] == g
    requires forall k :: 0 <= k < |g| ==> g[k] != ']'
    requires html[start + |g|] == ']'
    ensures RunEnd(html, start, NotCloseBracket) == start + |g|
  {
    assert forall k :: start <= k < start + |g| ==> html[k] == g[k - start];
    RunEndAt(html, start, start + |g|, NotCloseBracket);
  }

  lemma PricesAtMatched(html: string, p: nat)
    requires PricesAt(html, p).Some?
    ensures exists w1, w2 :: PricesMatch(html, p, w1, w2, PricesAt(html, p).value)
  {
    var e1 := RunEnd(html, p + |PricesKey|, IsSpace);
    var e2 := RunEnd(html, e1 + 1, IsSpace);
    assert PricesMatch(html, p, e1 - p - |PricesKey|, e2 - e1 - 1, PricesAt(html, p).value);
  }

  /** The price-array match `re.search` finds. */
  function SearchPrices(html: string): (r: Option<string>)
    ensures r.Some? ==> exists p :: 0 <= p <= |html| && PricesAt(html, p) == r
                          && forall q :: 0 <= q < p ==> PricesAt(html, q).None?
    ensures r.None? ==> forall q :: 0 <= q <= |html| ==> PricesAt(html, q).None?
  {
    var matchAt := (p: nat) => PricesAt(html, p);
    assert forall q: nat :: matchAt(q) == PricesAt(html, q);
    Leftmost(matchAt, |html|, 0)
  }

  // ---------------------------------------------------------------------
  // re.findall(r'(\d+\.\d+)', ...)
  // ---------------------------------------------------------------------

  /** The end of a decimal token starting at `i`. Digits are never `.`, so
      the greedy whole part is the only one that can reach the point. */
  function DecimalAt(s: string, i: nat): (e: Option<nat>)
    requires i <= |s|
    ensures e.Some? ==> i < e.value <= |s|
  {
    var m := RunEnd(s, i, IsDigit);
    if m == i || m == |s| || s[m] != '.' then None
    else
      var e := RunEnd(s, m + 1, IsDigit);
      if e == m + 1 then None else Some(e)
  }

  /** A decimal token `s[i..e]` with its point at `m`, stated directly;
      the fractional digits are greedy, so `e` is not followed by a digit. */
  predicate DecimalMatch(s: string, i: nat, m: int, e: nat)
  {
    && i < m && m + 1 < e <= |s|
    && (forall k :: i <= k < m ==> IsDigit(s[k]))
    && s[m] == '.'
    && (forall k :: m + 1 <= k < e ==> IsDigit(s[k]))
    && (e < |s| ==> !IsDigit(s[e]))
  }

  lemma DecimalAtMatches(s: string, i: nat, e: nat)
    requires i <= |s|
    ensures DecimalAt(s, i) == Some(e) <==> exists m :: DecimalMatch(s, i, m, e)
  {
    if DecimalAt(s, i) == Some(e) {
      assert DecimalMatch(s, i, RunEnd(s, i, IsDigit), e);
    }
    if m :| DecimalMatch(s, i, m, e) {
      RunEndAt(s, i, m, IsDigit);
      RunEndAt(s, m + 1, e, IsDigit);
    }
  }

  /** `re.findall` from position `i`: after a match the scan resumes at its
      end, otherwise one character further on. */
  function FindDecimals(s: string, i: nat): seq<string>
    requires i <= |s|
    decreases |s| - i
  {
    if i == |s| then []
    else
      match DecimalAt(s, i)
      case Some(e) => [s[i..e]] + FindDecimals(s, e)
      case None => FindDecimals(s, i + 1)
  }

  /** Every token found is a run of digits, a point and a run of digits. */
  lemma {:induction false} FoundTokensAreDecimals(s: string, i: nat, t: string)
    requires i <= |s|
    requires t in FindDecimals(s, i)
    ensures exists m :: (0 < m < |t| - 1 && t[m] == '.'
                         && forall k :: 0 <= k < |t| && k != m ==> IsDigit(t[k]))
    decreases |s| - i
  {
    match DecimalAt(s, i)
    case Some(e) =>
      if t == s[i..e] {
        DecimalAtMatches(s, i, e);
        var m :| DecimalMatch(s, i, m, e);
        assert |t| == e - i && forall k :: 0 <= k < |t| ==> t[k] == s[i + k];
        assert t[m - i] == '.';
      } else {
        FoundTokensAreDecimals(s, e, t);
      }
    case None =>
      FoundTokensAreDecimals(s, i + 1, t);
  }

  /** Text without a decimal point holds no token: whole numbers are not
      counted. */
  lemma {:induction false} NoPointNoTokens(s: string, i: nat)
    requires i <= |s|
    requires forall k :: i <= k < |s| ==> s[k] != '.'
    ensures FindDecimals(s, i) == []
    decreases |s| - i
  {
    if i < |s| {
      NoPointNoTokens(s, i + 1);
    }
  }

  // ---------------------------------------------------------------------
  // Values and the title clean-up
  // ---------------------------------------------------------------------

  function DigitsValue(s: string): nat
    decreases |s|
  {
    if s == [] then 0
    else
      var c := s[|s| - 1];
      DigitsValue(s[..|s| - 1]) * 10 + (if IsDigit(c) then (c as int - '0' as int) else 0)
  }

  function Pow10(n: nat): (r: nat)
    ensures r >= 1
  {
    if n == 0 then 1 else 10 * Pow10(n - 1)
  }

  /** `s.split(c)[0]`: the text before the first `c`, or all of `s`. */
  function BeforeFirst(s: string, c: char): (r: string)
    ensures |r| <= |s| && r == s[..|r|] && c !in r
    ensures |r| < |s| ==> s[|r|] == c
  {
    if s == [] || s[0] == c then [] else [s[0]] + BeforeFirst(s[1..], c)
  }

  /** `float(t)` of a decimal token `digits.digits`, exactly. */
  function DecimalValue(t: string): real
  {
    var w := BeforeFirst(t, '.');
    PartsValue(w, if |w| < |t| then t[|w| + 1..] else [])
  }

  /** The value of whole digits `w` and fractional digits `f`. */
  function PartsValue(w: string, f: string): real
  {
    DigitsValue(w) as real + DigitsValue(f) as real / Pow10(|f|) as real
  }

  lemma {:induction false} BeforeFirstOf(w: string, c: char, rest: string)
    requires c !in w
    ensures BeforeFirst(w + [c] + rest, c) == w
    decreases |w|
  {
    if w != [] {
      assert (w + [c] + rest)[1..] == w[1..] + [c] + rest;
      BeforeFirstOf(w[1..], c, rest);
    }
  }

  lemma DecimalValueParts(whole: string, frac: string)
    requires '.' !in whole
    ensures DecimalValue(whole + "." + frac) == PartsValue(whole, frac)
  {
    var t := whole + "." + frac;
    BeforeFirstOf(whole, '.', frac);
    assert t[|whole| + 1..] == frac;
  }

  function StripLeft(s: string): (r: string)
    ensures |r| <= |s| && r == s[|s| - |r|..]
    ensures forall k :: 0 <= k < |s| - |r| ==> IsSpace(s[k])
    ensures r != [] ==> !IsSpace(r[0])
  {
    if s != [] && IsSpace(s[0]) then StripLeft(s[1..]) else s
  }

  function StripRight(s: string): (r: string)
    ensures |r| <= |s| && r == s[..|r|]
    ensures forall k :: |r| <= k < |s| ==> IsSpace(s[k])
    ensures r != [] ==> !IsSpace(r[|r| - 1])
    decreases |s|
  {
    if s != [] && IsSpace(s[|s| - 1]) then StripRight(s[..|s| - 1]) else s
  }

  /** `s.strip()`: `s` without its leading and trailing whitespace. */
  function Strip(s: string): (r: string)
    ensures exists i, j :: (0 <= i <= j <= |s| && r == s[i..j]
                            && (forall k :: 0 <= k < i ==> IsSpace(s[k])) && (forall k :: j <= k < |s| ==> IsSpace(s[k])))
    ensures r != [] ==> !IsSpace(r[0]) && !IsSpace(r[|r| - 1])
  {
    var l := StripLeft(s);
    var r := StripRight(l);
    assert r == s[|s| - |l|..|s| - |l| + |r|];
    r
  }

  /** The title as reported: the part before the first `|`, stripped, when
      there is a `|`; otherwise the title as found. */
  function CleanTitle(title: string): (r: string)
    ensures '|' !in title ==> r == title
    ensures '|' in title ==> r == Strip(BeforeFirst(title, '|')) && '|' !in r
  {
    if '|' in title then Strip(BeforeFirst(title, '|')) else title
  }

  // ---------------------------------------------------------------------
  // The page quote
  // ---------------------------------------------------------------------

  datatype PageQuote = PageQuote(
    url: string,
    title: string,
    yesPrice: real,
    noPrice: real,
    total: real,
    edge: real,
    edgePct: real,
    hasArbitrage: bool)

  /** The result of the request: it raised, or a response with its status
      and its text. */
  datatype PageOutcome = PageRaised | PageResponse(status: int, text: string)

  /** The quote read from a page's text. */
  function ScrapeBody(url: string, html: string): (r: Option<PageQuote>)
    ensures r.None? <==> SearchPrices(html).None? || |FindDecimals(SearchPrices(html).value, 0)| < 2
    ensures r.Some? ==> var tokens := FindDecimals(SearchPrices(html).value, 0);
      && r.value.yesPrice == DecimalValue(tokens[0]) && r.value.noPrice == DecimalValue(tokens[1])
      && r.value.total == r.value.yesPrice + r.value.noPrice
      && r.value.edge == r.value.total - 1.0 && r.value.edgePct == r.value.edge * 100.0
      && (r.value.hasArbitrage <==> r.value.edge > ArbitrageThreshold)
      && r.value.url == url
      && r.value.title == CleanTitle(if SearchTitle(html).Some? then SearchTitle(html).value else UnknownTitle)
  {
    var title := match SearchTitle(html) case Some(t) => t case None => UnknownTitle;
    match SearchPrices(html)
    case None => None
    case Some(group) =>
      var prices := FindDecimals(group, 0);
      if |prices| < 2 then None
      else
        var yes := DecimalValue(prices[0]);
        var no := DecimalValue(prices[1]);
        var total := yes + no;
        var edge := total - 1.0;
        Some(PageQuote(url, CleanTitle(title), yes, no, total, edge, edge * 100.0, edge > ArbitrageThreshold))
  }

  /** `scrape_market_prices`: a raised request or a status other than 200
      gives no quote. */
  function ScrapeMarketPrices(url: string, outcome: PageOutcome): (r: Option<PageQuote>)
    ensures outcome.PageRaised? || outcome.status != 200 ==> r.None?
    ensures outcome.PageResponse? && outcome.status == 200 ==> r == ScrapeBody(url, outcome.text)
  {
    match outcome
    case PageRaised => None
    case PageResponse(status, text) => if status != 200 then None else ScrapeBody(url, text)
  }

  // ---------------------------------------------------------------------
  // Reading back an encoded price pair
  // ---------------------------------------------------------------------

  predicate AllDigits(s: string)
  {
    forall k :: 0 <= k < |s| ==> IsDigit(s[k])
  }

  /** The array text `"a","b"` of a page that quotes the two prices. */
  function QuotedPair(a: string, b: string): string
  {
    "\"" + a + "\",\"" + b + "\""
  }

  lemma FindDecimalsSkip(s: string, i: nat)
    requires i < |s| && !IsDigit(s[i])
    ensures FindDecimals(s, i) == FindDecimals(s, i + 1)
  {
    assert RunEnd(s, i, IsDigit) == i;
  }

  lemma DecimalAtToken(s: string, i: nat, whole: string, frac: string)
    requires whole != [] && frac != [] && AllDigits(whole) && AllDigits(frac)
    requires i + |whole| + 1 + |frac| <= |s| && s[i..i + |whole| + 1 + |frac|] == whole + "." + frac
    requires i + |whole| + 1 + |frac| < |s| ==> !IsDigit(s[i + |whole| + 1 + |frac|])
    ensures DecimalAt(s, i) == Some(i + |whole| + 1 + |frac|)
    ensures s[i..i + |whole| + 1 + |frac|] == whole + "." + frac
  {
    var m := i + |whole|;
    var e := m + 1 + |frac|;
    assert forall k :: i <= k < m ==> s[k] == whole[k - i] by {
      forall k | i <= k < m ensures s[k] == whole[k - i] {
        assert s[k] == s[i..e][k - i];
      }
    }
    assert s[m] == s[i..e][|whole|];
    assert forall k :: m + 1 <= k < e ==> s[k] == frac[k - m - 1] by {
      forall k | m + 1 <= k < e ensures s[k] == frac[k - m - 1] {
        assert s[k] == s[i..e][k - i];
      }
    }
    assert DecimalMatch(s, i, m, e);
    DecimalAtMatches(s, i, e);
  }

  lemma QuotedPairLayout(a: string, b: string)
    ensures var g := QuotedPair(a, b);
      && |g| == |a| + |b| + 5
      && g[0] == '"' && g[1..1 + |a|] == a && g[1 + |a|] == '"'
      && var i := 1 + |a|;
         g[i + 1] == ',' && g[i + 2] == '"' && g[i + 3..i + 3 + |b|] == b && g[i + 3 + |b|] == '"'
  {
  }

  lemma SkipThree(s: string, i: nat)
    requires i + 3 <= |s| && !IsDigit(s[i]) && !IsDigit(s[i + 1]) && !IsDigit(s[i + 2])
    ensures FindDecimals(s, i) == FindDecimals(s, i + 3)
  {
    FindDecimalsSkip(s, i);
    FindDecimalsSkip(s, i + 1);
    FindDecimalsSkip(s, i + 2);
  }

  /** A quote, a token, then text starting with a non-digit. */
  lemma QuotedFirst(g: string, a: string, ai: string, af: string)
    requires ai != [] && af != [] && AllDigits(ai) && AllDigits(af) && a == ai + "." + af
    requires 1 + |a| < |g| && g[0] == '"' && g[1..1 + |a|] == a && g[1 + |a|] == '"'
    ensures FindDecimals(g, 0) == [a] + FindDecimals(g, 1 + |a|)
  {
    DecimalAtToken(g, 1, ai, af);
    FindDecimalsSkip(g, 0);
    FindDecimalsToken(g, 1, 1 + |a|);
  }

  /** Three non-digits, a token, then a closing quote that ends the text. */
  lemma QuotedSecond(g: string, i: nat, b: string, bi: string, bf: string)
    requires bi != [] && bf != [] && AllDigits(bi) && AllDigits(bf) && b == bi + "." + bf
    requires |g| == i + 4 + |b|
    requires g[i] == '"' && g[i + 1] == ',' && g[i + 2] == '"' && g[i + 3 + |b|] == '"'
    requires g[i + 3..i + 3 + |b|] == b
    ensures FindDecimals(g, i) == [b]
  {
    var e := |g| - 1;
    DecimalAtToken(g, i + 3, bi, bf);
    SkipThree(g, i);
    FindDecimalsToken(g, i + 3, e);
    FindDecimalsSkip(g, e);
  }

  lemma QuotedPairTokens(ai: string, af: string, bi: string, bf: string)
    requires ai != [] && af != [] && bi != [] && bf != []
    requires AllDigits(ai) && AllDigits(af) && AllDigits(bi) && AllDigits(bf)
    ensures FindDecimals(QuotedPair(ai + "." + af, bi + "." + bf), 0) == [ai + "." + af, bi + "." + bf]
  {
    var a, b := ai + "." + af, bi + "." + bf;
    var g := QuotedPair(a, b);
    QuotedPairLayout(a, b);
    QuotedFirst(g, a, ai, af);
    QuotedSecond(g, 1 + |a|, b, bi, bf);
  }

  lemma FindDecimalsToken(s: string, i: nat, e: nat)
    requires i < |s| && DecimalAt(s, i) == Some(e)
    ensures FindDecimals(s, i) == [s[i..e]] + FindDecimals(s, e)
  {
  }

  predicate AllSpace(s: string)
  {
    forall k :: 0 <= k < |s| ==> IsSpace(s[k])
  }

  /** A page made of the text `pre`, the price key, whitespace `w1`, the
      colon, whitespace `w2`, the array `[g]` and the rest of the page. */
  function PricePage(pre: string, w1: string, w2: string, g: string, rest: string): string
  {
    pre + PricesKey + w1 + ":" + w2 + "[" + g + "]" + rest
  }

  lemma PricePageMatch(pre: string, w1: string, w2: string, g: string, rest: string)
    requires AllSpace(w1) && AllSpace(w2)
    requires g != [] && forall k :: 0 <= k < |g| ==> g[k] != ']'
    ensures PricesAt(PricePage(pre, w1, w2, g, rest), |pre|) == Some(g)
  {
    var html := PricePage(pre, w1, w2, g, rest);
    var p := |pre|;
    var c := p + |PricesKey| + |w1|;
    var b := c + 1 + |w2|;
    assert html[p..p + |PricesKey|] == PricesKey;
    assert forall k :: p + |PricesKey| <= k < c ==> html[k] == w1[k - p - |PricesKey|];
    assert html[c] == ':';
    assert forall k :: c + 1 <= k < b ==> html[k] == w2[k - c - 1];
    assert html[b] == '[';
    assert html[b + 1..b + 1 + |g|] == g;
    assert html[b + 1 + |g|] == ']';
    assert PricesMatch(html, p, |w1|, |w2|, g);
    PricesAtMatches(html, p, |w1|, |w2|, g);
  }

  /** When the first price match is at `p`, `re.search` reports it. */
  lemma SearchPricesFirst(html: string, p: nat)
    requires p <= |html| && PricesAt(html, p).Some?
    requires forall q :: 0 <= q < p ==> PricesAt(html, q).None?
    ensures SearchPrices(html) == PricesAt(html, p)
  {
  }

  /** A page whose first price entry is the quoted pair `"a","b"`, with any
      whitespace around the colon, is read back as the two decimal prices
      it quotes. */
  lemma QuotedPricesReadBack(url: string, pre: string, w1: string, w2: string,
                             ai: string, af: string, bi: string, bf: string, rest: string)
    requires ai != [] && af != [] && bi != [] && bf != []
    requires AllDigits(ai) && AllDigits(af) && AllDigits(bi) && AllDigits(bf)
    requires AllSpace(w1) && AllSpace(w2)
    requires forall q :: 0 <= q < |pre| ==>
      PricesAt(PricePage(pre, w1, w2, QuotedPair(ai + "." + af, bi + "." + bf), rest), q).None?
    ensures var r := ScrapeBody(url, PricePage(pre, w1, w2, QuotedPair(ai + "." + af, bi + "." + bf), rest));
      && r.Some?
      && r.value.yesPrice == PartsValue(ai, af)
      && r.value.noPrice == PartsValue(bi, bf)
  {
    var g := QuotedPair(ai + "." + af, bi + "." + bf);
    var html := PricePage(pre, w1, w2, g, rest);
    assert forall k :: 0 <= k < |g| ==> g[k] != ']' by {
      forall k | 0 <= k < |g| ensures g[k] != ']' {
        assert g[k] == '"' || g[k] == ',' || g[k] == '.' || IsDigit(g[k]);
      }
    }
    PricePageMatch(pre, w1, w2, g, rest);
    SearchPricesFirst(html, |pre|);
    QuotedPairTokens(ai, af, bi, bf);
    DecimalValueParts(ai, af);
    DecimalValueParts(bi, bf);
  }
}
