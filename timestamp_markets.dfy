/** The window generator for the ultra-short BTC up/down markets: every
    market closes on a round boundary of its cycle, and its slug is the
    interval token followed by the close time in epoch seconds.

    Times are integer seconds since the Unix epoch (UTC). The clock is
    read once by the caller and passed in as `now`. */
module TimestampMarkets {
  import opened Values

  const EventUrlBase: string := "https://polymarket.com/event/"
  const SlugPrefix: string := "btc-updown-"

  /** The intervals generated when the caller names none. */
  const DefaultIntervals: seq<string> := ["5m", "15m"]

  /** The horizon of `generate_market_urls` when the caller gives none. */
  const DefaultLookAheadHours: int := 2

  /** The interval `get_next_market` looks at when the caller names none. */
  const DefaultNextInterval: string := "15m"

  /** The length of one market cycle, in minutes and in seconds. */
  datatype Cycle = Cycle(minutes: nat, seconds: nat)

  /** One market window, as the generator emits it. `openTime` and
      `closeTimestamp` are epoch seconds; `closeTimestamp` is also the
      instant the source keeps as `close_time`. The slug and the URL are
      derived from the interval and the close time. */
  datatype Window = Window(
    interval: string,
    openTime: int,
    closeTimestamp: int,
    minutesUntilClose: int)
  {
    function Slug(): string
    {
      SlugOf(interval, closeTimestamp)
    }

    function Url(): string
    {
      EventUrlBase + Slug()
    }
  }

  /** The cycle of a recognised interval token; any other token has none. */
  function CycleOf(interval: string): (c: Option<Cycle>)
    ensures c.Some? ==> c.value == Cycle(5, 300) || c.value == Cycle(15, 900) || c.value == Cycle(60, 3600)
  {
    if interval == "5m" then Some(Cycle(5, 300))
    else if interval == "15m" then Some(Cycle(15, 900))
    else if interval == "hourly" then Some(Cycle(60, 3600))
    else None
  }

  /** `intervals if intervals is not None else ['5m', '15m']` */
  function ResolveIntervals(intervals: Option<seq<string>>): seq<string>
  {
    if intervals.None? then DefaultIntervals else intervals.value
  }

  // ---------------------------------------------------------------------
  // Decimal rendering of the close timestamp inside the slug
  // ---------------------------------------------------------------------

  function DigitChar(d: nat): char
    requires d < 10
  {
    ('0' as int + d) as char
  }

  function DigitValue(c: char): nat
  {
    if '0' <= c <= '9' then (c as int - '0' as int) as nat else 0
  }

  /** The decimal digits of `n`, most significant first, no leading zero. */
  function NatToDecimal(n: nat): string
    decreases n
  {
    if n < 10 then [DigitChar(n)] else NatToDecimal(n / 10) + [DigitChar(n % 10)]
  }

  /** Python's `str()` of an integer. */
  function IntToDecimal(i: int): string
  {
    if i < 0 then "-" + NatToDecimal(-i) else NatToDecimal(i)
  }

  /** Reads a string of decimal digits back as a number. */
  function DecimalToNat(s: string): nat
    decreases |s|
  {
    if s == [] then 0 else DecimalToNat(s[..|s| - 1]) * 10 + DigitValue(s[|s| - 1])
  }

  /** Reads an optionally signed decimal back as an integer. */
  function DecimalToInt(s: string): int
  {
    if |s| > 0 && s[0] == '-' then -(DecimalToNat(s[1..]) as int) else DecimalToNat(s)
  }

  lemma {:induction false} NatDecimalRoundTrip(n: nat)
    ensures |NatToDecimal(n)| > 0 && NatToDecimal(n)[0] != '-'
    ensures DecimalToNat(NatToDecimal(n)) == n
    decreases n
  {
    if n >= 10 {
      NatDecimalRoundTrip(n / 10);
      var s := NatToDecimal(n);
      assert s[..|s| - 1] == NatToDecimal(n / 10);
      assert DigitValue(s[|s| - 1]) == n % 10;
    }
  }

  /** Reading the rendered timestamp back gives the timestamp: the slug
      of a window determines its close time. */
  lemma IntDecimalRoundTrip(i: int)
    ensures DecimalToInt(IntToDecimal(i)) == i
  {
    if i < 0 {
      NatDecimalRoundTrip(-i);
      assert IntToDecimal(i)[1..] == NatToDecimal(-i);
    } else {
      NatDecimalRoundTrip(i);
    }
  }

  // ---------------------------------------------------------------------
  // One window
  // ---------------------------------------------------------------------

  function SlugOf(interval: string, closeTimestamp: int): string
  {
    SlugPrefix + interval + "-" + IntToDecimal(closeTimestamp)
  }

  /** `int(x / 60)`: Python's `int()` truncates toward zero. */
  function TruncMinutes(x: int): int
  {
    if x >= 0 then x / 60 else -((-x) / 60)
  }

  /** The record emitted for the window closing at `close`. */
  function MakeWindow(interval: string, seconds: nat, close: int, now: int): Window
  {
    Window(interval, close - seconds, close, TruncMinutes(close - now))
  }

  /** Within one interval, different close times give different slugs. */
  lemma SlugsDistinct(interval: string, a: int, b: int)
    requires a != b
    ensures SlugOf(interval, a) != SlugOf(interval, b)
  {
    if SlugOf(interval, a) == SlugOf(interval, b) {
      var n := |SlugPrefix + interval + "-"|;
      assert SlugOf(interval, a)[n..] == IntToDecimal(a);
      assert SlugOf(interval, b)[n..] == IntToDecimal(b);
      IntDecimalRoundTrip(a);
      IntDecimalRoundTrip(b);
    }
  }

  // ---------------------------------------------------------------------
  // Rounding the clock up to the next close
  // ---------------------------------------------------------------------

  function MinuteOfHour(t: int): int { (t / 60) % 60 }

  function SecondOfMinute(t: int): int { t % 60 }

  /** The first close after `now`, computed as the source does: add the
      minutes up to the next multiple of the cycle within the hour and
      drop the seconds of the current minute. */
  function NextClose(now: int, minutes: nat): int
    requires minutes > 0
  {
    now + 60 * (minutes - MinuteOfHour(now) % minutes) - SecondOfMinute(now)
  }

  /** The minute-of-hour rounding is rounding up to the next multiple of
      the cycle length on the epoch-second axis. */
  lemma NextCloseRounding(now: int, interval: string)
    requires CycleOf(interval).Some?
    ensures var c := CycleOf(interval).value;
      NextClose(now, c.minutes) == now - now % c.seconds + c.seconds
  {
    var c := CycleOf(interval).value;
    if c == Cycle(5, 300) {
      RoundUp5(now);
    } else if c == Cycle(15, 900) {
      RoundUp15(now);
    } else {
      RoundUpHour(now);
    }
  }

  // Each cycle divides the hour, so the minute of the hour modulo the
  // cycle is the epoch minute modulo the cycle.

  lemma RoundUp5(now: int)
    ensures NextClose(now, 5) == now - now % 300 + 300
  {
    var q, s := now / 60, now % 60;
    assert now == 60 * q + s;
    assert now % 300 == 60 * (MinuteOfHour(now) % 5) + s;
  }

  lemma RoundUp15(now: int)
    ensures NextClose(now, 15) == now - now % 900 + 900
  {
    var q, s := now / 60, now % 60;
    assert now == 60 * q + s;
    assert now % 900 == 60 * (MinuteOfHour(now) % 15) + s;
  }

  lemma RoundUpHour(now: int)
    ensures NextClose(now, 60) == now - now % 3600 + 3600
  {
    var q, s := now / 60, now % 60;
    assert now == 60 * q + s;
    assert now % 3600 == 60 * MinuteOfHour(now) + s;
  }

  lemma DivModUnique(n: int, d: int, k: int, r: int)
    requires d > 0 && n == d * k + r && 0 <= r < d
    ensures n / d == k && n % d == r
  {
    var k', r' := n / d, n % d;
    assert n == d * k' + r' && 0 <= r' < d;
    if k' > k {
      assert d * k' >= d * (k + 1) by { MulMonotone(d, k + 1, k'); }
    } else if k' < k {
      assert d * k >= d * (k' + 1) by { MulMonotone(d, k' + 1, k); }
    }
  }

  lemma MulMonotone(d: int, a: int, b: int)
    requires d > 0 && a <= b
    ensures d * a <= d * b
  {
  }

  /** The first close is strictly after `now`, at most one cycle later,
      and on the cycle's grid. */
  lemma FirstCloseBounds(now: int, interval: string)
    requires CycleOf(interval).Some?
    ensures var c := CycleOf(interval).value;
      var f := NextClose(now, c.minutes);
      now < f <= now + c.seconds && f % c.seconds == 0
  {
    NextCloseRounding(now, interval);
    var c := CycleOf(interval).value;
    var r := now % c.seconds;
    DivModUnique(now - r + c.seconds, c.seconds, now / c.seconds + 1, 0);
  }

  // ---------------------------------------------------------------------
  // The generated sequence
  // ---------------------------------------------------------------------

  /** The windows of one interval whose close lies between `close` and
      `end`, one cycle apart. */
  function WindowsFrom(interval: string, seconds: nat, close: int, end: int, now: int): seq<Window>
    requires seconds > 0
    decreases end - close
  {
    if close > end then []
    else [MakeWindow(interval, seconds, close, now)] + WindowsFrom(interval, seconds, close + seconds, end, now)
  }

  /** The windows of one interval token over the look-ahead horizon. */
  function IntervalWindows(interval: string, hours: int, now: int): seq<Window>
  {
    match CycleOf(interval)
    case None => []
    case Some(c) => WindowsFrom(interval, c.seconds, NextClose(now, c.minutes), now + hours * 3600, now)
  }

  /** Everything the generator emits: the windows of each token in turn. */
  function Windows(intervals: seq<string>, hours: int, now: int): seq<Window>
    decreases |intervals|
  {
    if intervals == [] then []
    else Windows(intervals[..|intervals| - 1], hours, now) + IntervalWindows(intervals[|intervals| - 1], hours, now)
  }

  /** `generate_market_urls`: for each recognised interval, round up to the
      next close and emit windows one cycle apart until the horizon. */
  method GenerateMarketUrls(intervals: Option<seq<string>>, hours: Option<int>, now: int)
    returns (markets: seq<Window>)
    ensures markets == Windows(ResolveIntervals(intervals), OrElse(hours, DefaultLookAheadHours), now)
  {
    var ivs := ResolveIntervals(intervals);
    var lookAheadHours := OrElse(hours, DefaultLookAheadHours);
    markets := [];
    for i := 0 to |ivs|
      invariant markets == Windows(ivs[..i], lookAheadHours, now)
    {
      var interval := ivs[i];
      WindowsPrefix(ivs, i, lookAheadHours, now);
      var cycle := CycleOf(interval);
      if cycle.None? {
        assert IntervalWindows(interval, lookAheadHours, now) == [];
        continue;
      }
      markets := AppendCycleWindows(markets, interval, cycle.value, lookAheadHours, now);
    }
    assert ivs[..|ivs|] == ivs;
  }

  /** One more interval of the list adds its windows at the end. */
  lemma WindowsPrefix(ivs: seq<string>, i: nat, hours: int, now: int)
    requires i < |ivs|
    ensures Windows(ivs[..i + 1], hours, now) == Windows(ivs[..i], hours, now) + IntervalWindows(ivs[i], hours, now)
  {
    assert ivs[..i + 1][..i] == ivs[..i];
  }

  /** The inner loop of `generate_market_urls` for one recognised interval:
      append a window per close time up to `now` plus the horizon. */
  method AppendCycleWindows(markets: seq<Window>, interval: string, c: Cycle, lookAheadHours: int, now: int)
    returns (extended: seq<Window>)
    requires CycleOf(interval) == Some(c)
    ensures extended == markets + IntervalWindows(interval, lookAheadHours, now)
  {
    extended := markets;
    var nextClose := NextClose(now, c.minutes);
    var endTime := now + lookAheadHours * 3600;
    var currentClose := nextClose;
    while currentClose <= endTime
      invariant extended + WindowsFrom(interval, c.seconds, currentClose, endTime, now)
             == markets + IntervalWindows(interval, lookAheadHours, now)
      decreases endTime - currentClose
    {
      var market := MakeWindow(interval, c.seconds, currentClose, now);
      assert WindowsFrom(interval, c.seconds, currentClose, endTime, now)
          == [market] + WindowsFrom(interval, c.seconds, currentClose + c.seconds, endTime, now);
      extended := extended + [market];
      currentClose := currentClose + c.seconds;
    }
  }

  /** The windows of one interval, read position by position: the k-th
      closes k cycles after the first. */
  lemma {:induction false} WindowsFromAt(interval: string, seconds: nat, close: int, end: int, now: int, k: nat)
    requires seconds > 0
    requires k < |WindowsFrom(interval, seconds, close, end, now)|
    ensures WindowsFrom(interval, seconds, close, end, now)[k] == MakeWindow(interval, seconds, close + k * seconds, now)
    decreases k
  {
    if k > 0 {
      var rest := WindowsFrom(interval, seconds, close + seconds, end, now);
      assert WindowsFrom(interval, seconds, close, end, now)[k] == rest[k - 1];
      WindowsFromAt(interval, seconds, close + seconds, end, now, k - 1);
      NextMultiple(close, seconds, k);
    }
  }

  lemma NextMultiple(close: int, seconds: int, k: int)
    ensures close + seconds + (k - 1) * seconds == close + k * seconds
  {
  }

  /** The count is the number of cycles that fit before the horizon. */
  lemma {:induction false} WindowsFromLength(interval: string, seconds: nat, close: int, end: int, now: int)
    requires seconds > 0
    ensures var n := |WindowsFrom(interval, seconds, close, end, now)|;
      && (close > end ==> n == 0)
      && (close <= end ==> close + (n - 1) * seconds <= end < close + n * seconds)
    decreases end - close
  {
    if close <= end {
      WindowsFromLength(interval, seconds, close + seconds, end, now);
      var n := |WindowsFrom(interval, seconds, close + seconds, end, now)|;
      assert (n + 1) * seconds == n * seconds + seconds;
    }
  }

  /** For a look-ahead of H >= 0 hours, each recognised interval yields
      exactly H * 3600 / cycle windows. */
  lemma WindowCount(interval: string, hours: int, now: int)
    requires hours >= 0
    requires CycleOf(interval).Some?
    ensures var s := CycleOf(interval).value.seconds;
      |IntervalWindows(interval, hours, now)| == hours * 3600 / s
  {
    var c := CycleOf(interval).value;
    var f := NextClose(now, c.minutes);
    var end := now + hours * 3600;
    NextCloseRounding(now, interval);
    WindowsFromLength(interval, c.seconds, f, end, now);
    var n := |IntervalWindows(interval, hours, now)|;
    var r := now % c.seconds;
    assert f == now - r + c.seconds && 0 <= r < c.seconds;
    if interval == "5m" {
      assert n == hours * 12;
    } else if interval == "15m" {
      assert n == hours * 4;
    } else {
      assert n == hours;
    }
  }

  /** What every emitted window satisfies. */
  ghost predicate WellFormed(w: Window, hours: int, now: int)
  {
    && CycleOf(w.interval).Some?
    && var s := CycleOf(w.interval).value.seconds;
    && w.closeTimestamp % s == 0
    && w.openTime == w.closeTimestamp - s
    && now < w.closeTimestamp <= now + hours * 3600
    && w.minutesUntilClose == (w.closeTimestamp - now) / 60
    && 0 <= w.minutesUntilClose <= hours * 60
  }

  lemma {:induction false} IntervalWindowsWellFormed(interval: string, hours: int, now: int)
    ensures forall w :: w in IntervalWindows(interval, hours, now) ==> w.interval == interval && WellFormed(w, hours, now)
  {
    if CycleOf(interval).Some? {
      var c := CycleOf(interval).value;
      var f := NextClose(now, c.minutes);
      var end := now + hours * 3600;
      var ws := WindowsFrom(interval, c.seconds, f, end, now);
      FirstCloseBounds(now, interval);
      WindowsFromLength(interval, c.seconds, f, end, now);
      forall w | w in ws
        ensures w.interval == interval && WellFormed(w, hours, now)
      {
        var k :| 0 <= k < |ws| && ws[k] == w;
        WindowsFromAt(interval, c.seconds, f, end, now, k);
        assert w.closeTimestamp == f + k * c.seconds;
        assert k * c.seconds <= (|ws| - 1) * c.seconds by { MulMonotone(c.seconds, k, |ws| - 1); }
        assert 0 <= k * c.seconds by { MulMonotone(c.seconds, 0, k); }
        DivModUnique(w.closeTimestamp, c.seconds, f / c.seconds + k, 0);
      }
    }
  }

  lemma {:induction false} WindowsWellFormed(intervals: seq<string>, hours: int, now: int)
    ensures forall w :: w in Windows(intervals, hours, now) ==> w.interval in intervals && WellFormed(w, hours, now)
    decreases |intervals|
  {
    if intervals != [] {
      var init, last := intervals[..|intervals| - 1], intervals[|intervals| - 1];
      WindowsWellFormed(init, hours, now);
      IntervalWindowsWellFormed(last, hours, now);
      assert forall x :: x in init ==> x in intervals;
    }
  }

  /** Within one interval the close times rise by exactly one cycle. */
  lemma SuccessiveCloses(interval: string, hours: int, now: int, k: nat)
    requires CycleOf(interval).Some?
    requires k + 1 < |IntervalWindows(interval, hours, now)|
    ensures var ws := IntervalWindows(interval, hours, now);
      ws[k + 1].closeTimestamp == ws[k].closeTimestamp + CycleOf(interval).value.seconds
  {
    var c := CycleOf(interval).value;
    WindowsFromStep(interval, c.seconds, NextClose(now, c.minutes), now + hours * 3600, now, k);
  }

  lemma {:induction false} WindowsFromStep(interval: string, seconds: nat, close: int, end: int, now: int, k: nat)
    requires seconds > 0
    requires k + 1 < |WindowsFrom(interval, seconds, close, end, now)|
    ensures var ws := WindowsFrom(interval, seconds, close, end, now);
      ws[k + 1].closeTimestamp == ws[k].closeTimestamp + seconds
    decreases k
  {
    var rest := WindowsFrom(interval, seconds, close + seconds, end, now);
    if k == 0 {
      assert rest == [MakeWindow(interval, seconds, close + seconds, now)]
                   + WindowsFrom(interval, seconds, close + 2 * seconds, end, now);
    } else {
      WindowsFromStep(interval, seconds, close + seconds, end, now, k - 1);
    }
  }

  /** The output is grouped by interval in the order requested. */
  lemma {:induction false} WindowsAppend(a: seq<string>, b: seq<string>, hours: int, now: int)
    ensures Windows(a + b, hours, now) == Windows(a, hours, now) + Windows(b, hours, now)
    decreases |b|
  {
    if b == [] {
      assert a + b == a;
    } else {
      var b', x := b[..|b| - 1], b[|b| - 1];
      assert (a + b)[..|a + b| - 1] == a + b';
      assert (a + b)[|a + b| - 1] == x;
      var tail := IntervalWindows(x, hours, now);
      calc {
        Windows(a + b, hours, now);
        Windows(a + b', hours, now) + tail;
        { WindowsAppend(a, b', hours, now); }
        Windows(a, hours, now) + Windows(b', hours, now) + tail;
      }
    }
  }

  /** An unrecognised interval token contributes nothing and does not
      disturb the others. */
  lemma UnrecognisedSkipped(a: seq<string>, token: string, b: seq<string>, hours: int, now: int)
    requires CycleOf(token).None?
    ensures Windows(a + [token] + b, hours, now) == Windows(a + b, hours, now)
  {
    assert Windows([token], hours, now) == [] by {
      SingleInterval(token, hours, now);
    }
    calc {
      Windows(a + [token] + b, hours, now);
      { WindowsAppend(a + [token], b, hours, now); }
      Windows(a + [token], hours, now) + Windows(b, hours, now);
      { WindowsAppend(a, [token], hours, now); }
      Windows(a, hours, now) + [] + Windows(b, hours, now);
      Windows(a, hours, now) + Windows(b, hours, now);
      { WindowsAppend(a, b, hours, now); }
      Windows(a + b, hours, now);
    }
  }

  lemma SingleInterval(interval: string, hours: int, now: int)
    ensures Windows([interval], hours, now) == IntervalWindows(interval, hours, now)
  {
    assert [interval][..0] == [];
    assert Windows([interval], hours, now) == Windows([], hours, now) + IntervalWindows(interval, hours, now);
  }

  // ---------------------------------------------------------------------
  // The active windows and the next window
  // ---------------------------------------------------------------------

  predicate OpenAt(w: Window, now: int)
  {
    w.openTime <= now < w.closeTimestamp
  }

  function OpenWindows(ws: seq<Window>, now: int): seq<Window>
    decreases |ws|
  {
    if ws == [] then []
    else OpenWindows(ws[..|ws| - 1], now) + (if OpenAt(ws[|ws| - 1], now) then [ws[|ws| - 1]] else [])
  }

  /** The window of a recognised interval that is open at `now`, defined
      directly by rounding `now` up to the cycle grid. */
  function CurrentWindow(interval: string, c: Cycle, now: int): Window
    requires c.seconds > 0
  {
    MakeWindow(interval, c.seconds, now - now % c.seconds + c.seconds, now)
  }

  /** One current window per recognised interval, in the order requested. */
  function CurrentWindows(intervals: seq<string>, now: int): seq<Window>
    decreases |intervals|
  {
    if intervals == [] then []
    else
      var last := intervals[|intervals| - 1];
      CurrentWindows(intervals[..|intervals| - 1], now)
        + (match CycleOf(last) case None => [] case Some(c) => [CurrentWindow(last, c, now)])
  }

  lemma {:induction false} OpenWindowsAppend(a: seq<Window>, b: seq<Window>, now: int)
    ensures OpenWindows(a + b, now) == OpenWindows(a, now) + OpenWindows(b, now)
    decreases |b|
  {
    if b == [] {
      assert a + b == a;
    } else {
      OpenWindowsAppend(a, b[..|b| - 1], now);
      assert (a + b)[..|a + b| - 1] == a + b[..|b| - 1];
    }
  }

  /** Only the first window after the clock has opened: later windows open
      at or after the first close, which is in the future. */
  lemma {:induction false} OpenWindowsOfInterval(interval: string, now: int)
    ensures OpenWindows(IntervalWindows(interval, 1, now), now)
         == match CycleOf(interval) case None => [] case Some(c) => [CurrentWindow(interval, c, now)]
  {
    if CycleOf(interval).Some? {
      var c := CycleOf(interval).value;
      var f := NextClose(now, c.minutes);
      var ws := IntervalWindows(interval, 1, now);
      FirstWindowIsCurrent(interval, now);
      forall k | 0 <= k < |ws[1..]|
        ensures ws[1..][k].openTime >= f
      {
        WindowsFromAt(interval, c.seconds, f, now + 3600, now, k + 1);
        LaterClose(f, c.seconds, k);
      }
      OpenWindowsNone(ws[1..], now, f);
      OpenWindowsAppend([ws[0]], ws[1..], now);
      assert [ws[0]] + ws[1..] == ws;
      assert OpenWindows([ws[0]], now) == OpenWindows([], now) + [ws[0]];
    }
  }

  lemma LaterClose(f: int, seconds: nat, k: nat)
    ensures f + (k + 1) * seconds - seconds >= f
  {
    NextMultiple(f - seconds, seconds, k + 1);
    MulMonotone(seconds + 1, 0, k);
  }

  /** With a one-hour horizon every recognised interval has a first window,
      and it is the current one. */
  lemma FirstWindowIsCurrent(interval: string, now: int)
    requires CycleOf(interval).Some?
    ensures var ws := IntervalWindows(interval, 1, now);
      |ws| >= 1 && ws[0] == CurrentWindow(interval, CycleOf(interval).value, now) && OpenAt(ws[0], now)
  {
    var c := CycleOf(interval).value;
    var f := NextClose(now, c.minutes);
    NextCloseRounding(now, interval);
    FirstCloseBounds(now, interval);
    WindowCount(interval, 1, now);
    WindowsFromAt(interval, c.seconds, f, now + 3600, now, 0);
  }

  lemma {:induction false} OpenWindowsNone(ws: seq<Window>, now: int, bound: int)
    requires now < bound
    requires forall k :: 0 <= k < |ws| ==> ws[k].openTime >= bound
    ensures OpenWindows(ws, now) == []
    decreases |ws|
  {
    if ws != [] {
      OpenWindowsNone(ws[..|ws| - 1], now, bound);
    }
  }

  lemma {:induction false} OpenWindowsAreCurrent(intervals: seq<string>, now: int)
    ensures OpenWindows(Windows(intervals, 1, now), now) == CurrentWindows(intervals, now)
    decreases |intervals|
  {
    if intervals != [] {
      var init, last := intervals[..|intervals| - 1], intervals[|intervals| - 1];
      OpenWindowsAreCurrent(init, now);
      OpenWindowsAppend(Windows(init, 1, now), IntervalWindows(last, 1, now), now);
      OpenWindowsOfInterval(last, now);
    }
  }

  /** `get_current_markets`: the one-hour generation filtered to the
      windows open at the (single) clock reading. Exactly the current
      window of each recognised interval survives. */
  method GetCurrentMarkets(intervals: Option<seq<string>>, now: int) returns (active: seq<Window>)
    ensures active == CurrentWindows(ResolveIntervals(intervals), now)
    ensures forall w :: w in active ==> OpenAt(w, now)
  {
    var all := GenerateMarketUrls(intervals, Some(1), now);
    active := [];
    for i := 0 to |all|
      invariant active == OpenWindows(all[..i], now)
    {
      assert all[..i + 1][..i] == all[..i];
      var market := all[i];
      if market.openTime <= now < market.closeTimestamp {
        active := active + [market];
      }
    }
    assert all[..|all|] == all;
    OpenWindowsAreCurrent(ResolveIntervals(intervals), now);
    OpenWindowsOnlyOpen(all, now);
  }

  lemma {:induction false} OpenWindowsOnlyOpen(ws: seq<Window>, now: int)
    ensures forall w :: w in OpenWindows(ws, now) ==> OpenAt(w, now)
    decreases |ws|
  {
    if ws != [] {
      OpenWindowsOnlyOpen(ws[..|ws| - 1], now);
    }
  }

  /** `get_next_market`: the first window of a one-hour generation for a
      single interval, or nothing when the token is not recognised. */
  function GetNextMarket(requested: Option<string>, now: int): (r: Option<Window>)
    ensures var interval := OrElse(requested, DefaultNextInterval);
      && (CycleOf(interval).None? ==> r.None?)
      && (CycleOf(interval).Some? ==> r == Some(CurrentWindow(interval, CycleOf(interval).value, now)))
    ensures r.Some? ==> OpenAt(r.value, now)
    ensures requested.None? ==> r.Some? && r.value.interval == DefaultNextInterval
  {
    var interval := OrElse(requested, DefaultNextInterval);
    var ws := Windows([interval], 1, now);
    SingleInterval(interval, 1, now);
    if CycleOf(interval).Some? then FirstWindowIsCurrent(interval, now); Some(ws[0])
    else None
  }
}
