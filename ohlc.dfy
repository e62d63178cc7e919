/**
 * Bar generation from tick data: a streaming OHLC (open/high/low/close)
 * aggregator for one instrument.
 *
 * Timestamps, the interval and prices are integers.  The wall clock is not
 * read: every tick comes with `now`, the current timestamp, and `midnight`,
 * the timestamp of the start of the current day, which is the epoch the first
 * bar is aligned to.
 */
module Ohlc {

  /** The default bar width: one minute, in seconds. */
  const DEFAULT_INTERVAL: int := 60
  /** The default retention setting: the number of seconds in a week. */
  const DEFAULT_MAX_BARS: int := 60 * 60 * 24 * 7
  /** The number of bars `Bars` is asked for when the caller names none. */
  const DEFAULT_BAR_COUNT: int := 60

  datatype Option<T> = None | Some(value: T)

  /** The summary of the ticks of the bucket [start, start + interval). */
  datatype Bar = Bar(open: int, high: int, low: int, close: int, start: int)

  /** The aggregator's state: the open bar, absent before the first tick,
      and the sealed bars, oldest first. */
  datatype State = State(current: Option<Bar>, history: seq<Bar>)

  const EMPTY: State := State(None, [])

  // ---------------------------------------------------------------------
  // Invariants
  // ---------------------------------------------------------------------

  /** The extremes bracket the open and the close. */
  ghost predicate WellFormed(b: Bar)
  {
    b.low <= b.open <= b.high && b.low <= b.close <= b.high
  }

  /** Two bars with the same price summary (their starts may differ). */
  ghost predicate SameOhlc(a: Bar, b: Bar)
  {
    a.open == b.open && a.high == b.high && a.low == b.low && a.close == b.close
  }

  /** Each bar starts one interval after the one before it. */
  ghost predicate Consecutive(bs: seq<Bar>, interval: int)
  {
    forall i :: 0 < i < |bs| ==> bs[i].start == bs[i - 1].start + interval
  }

  /** All bars the aggregator holds, oldest first, the open bar last. */
  function Timeline(st: State): seq<Bar>
  {
    if st.current.Some? then st.history + [st.current.value] else st.history
  }

  /** What every reachable state satisfies. */
  ghost predicate Inv(st: State, interval: int)
  {
    && (st.current.None? ==> st.history == [])
    && (forall b :: b in Timeline(st) ==> WellFormed(b))
    && Consecutive(Timeline(st), interval)
  }

  /** The `j`-th bucket boundary after `origin`. */
  function Boundary(origin: int, j: nat, interval: int): int
  {
    origin + j * interval
  }

  /** `s` lies a whole, non-negative number of intervals after `origin`. */
  ghost predicate OnGrid(s: int, origin: int, interval: int)
  {
    exists j: nat :: s == Boundary(origin, j, interval)
  }

  /** Every bar starts on the grid of `origin`. */
  ghost predicate AlignedTo(st: State, origin: int, interval: int)
  {
    forall b :: b in Timeline(st) ==> OnGrid(b.start, origin, interval)
  }

  // ---------------------------------------------------------------------
  // Arithmetic helpers
  // ---------------------------------------------------------------------

  lemma MulAtLeast(q: int, d: int)
    requires q >= 1 && d > 0
    ensures q * d >= d
  {
  }

  lemma MulBelow(a: int, b: int, d: int)
    requires d > 0 && a * d < b * d
    ensures a < b
  {
    assert (b - a) * d == b * d - a * d;
  }

  /** Distinct grid points lie at least one interval apart. */
  lemma GridApart(a: nat, b: nat, origin: int, d: int)
    requires d > 0
    ensures a == b
         || Boundary(origin, a, d) >= Boundary(origin, b, d) + d
         || Boundary(origin, b, d) >= Boundary(origin, a, d) + d
  {
    if a > b {
      MulAtLeast(a - b, d);
      assert Boundary(origin, a, d) - Boundary(origin, b, d) == (a - b) * d;
    } else if b > a {
      MulAtLeast(b - a, d);
      assert Boundary(origin, b, d) - Boundary(origin, a, d) == (b - a) * d;
    }
  }

  /** Moving `i` intervals forward stays on the grid. */
  lemma GridShift(s: int, origin: int, interval: int, i: nat)
    requires OnGrid(s, origin, interval)
    ensures OnGrid(s + i * interval, origin, interval)
  {
    var j: nat :| s == Boundary(origin, j, interval);
    assert s + i * interval == Boundary(origin, j + i, interval);
  }

  // ---------------------------------------------------------------------
  // The first bar
  // ---------------------------------------------------------------------

  /** The start of the first bar: `midnight` advanced by whole intervals for as
      long as `now` lies strictly beyond the end of the bucket. */
  function FirstStart(midnight: int, now: int, interval: int): (s: int)
    requires interval > 0
    ensures OnGrid(s, midnight, interval)
    ensures now <= s + interval
    ensures s > midnight ==> s < now
  {
    if now <= midnight + interval then
      assert midnight == Boundary(midnight, 0, interval);
      midnight
    else
      var j := (now - midnight - 1) / interval;
      Boundary(midnight, j, interval)
  }

  /** The three properties of FirstStart's contract determine it. */
  lemma FirstStartUnique(midnight: int, now: int, interval: int, s: int)
    requires interval > 0
    requires OnGrid(s, midnight, interval)
    requires now <= s + interval
    requires s > midnight ==> s < now
    ensures s == FirstStart(midnight, now, interval)
  {
    var t := FirstStart(midnight, now, interval);
    var a: nat :| s == Boundary(midnight, a, interval);
    var b: nat :| t == Boundary(midnight, b, interval);
    GridApart(a, b, midnight, interval);
  }

  /** The walk of the first-bar loop: forward from `midnight` in interval
      steps while `now` lies beyond the end of the bucket. */
  method AlignStart(midnight: int, now: int, interval: int) returns (start: int)
    requires interval > 0
    ensures start == FirstStart(midnight, now, interval)
  {
    start := midnight;
    assert start == Boundary(midnight, 0, interval);
    while now > start + interval
      invariant OnGrid(start, midnight, interval)
      invariant start > midnight ==> start < now
      decreases now - start
    {
      GridShift(start, midnight, interval, 1);
      start := start + interval;
    }
    FirstStartUnique(midnight, now, interval, start);
  }

  /** When `now` falls exactly on a later boundary, the first bar starts one
      interval before it, so its bucket has already ended. */
  lemma FirstStartOnBoundary(midnight: int, j: int, interval: int)
    requires interval > 0 && j >= 1
    ensures FirstStart(midnight, midnight + j * interval, interval) == midnight + (j - 1) * interval
  {
    var s := Boundary(midnight, j - 1, interval);
    assert midnight + j * interval == s + interval;
    FirstStartUnique(midnight, midnight + j * interval, interval, s);
  }

  // ---------------------------------------------------------------------
  // Bars
  // ---------------------------------------------------------------------

  /** A tick inside the open bucket. */
  function Update(b: Bar, price: int): (r: Bar)
    ensures r.open == b.open && r.start == b.start && r.close == price
    ensures r.high >= b.high && r.high >= price && (r.high == b.high || r.high == price)
    ensures r.low <= b.low && r.low <= price && (r.low == b.low || r.low == price)
    ensures WellFormed(b) ==> WellFormed(r)
  {
    Bar(b.open,
        if price > b.high then price else b.high,
        if price < b.low then price else b.low,
        price,
        b.start)
  }

  /** The bar that follows the sealed bar `prev`, opened by a tick of `price`. */
  function Successor(prev: Bar, price: int, interval: int): (r: Bar)
    ensures r.open == prev.close && r.close == price && r.start == prev.start + interval
    ensures r.high >= prev.high && r.high >= price && (r.high == prev.high || r.high == price)
    ensures r.low <= prev.low && r.low <= price && (r.low == prev.low || r.low == price)
    ensures WellFormed(prev) ==> WellFormed(r)
  {
    Bar(prev.close,
        if price > prev.high then price else prev.high,
        if price < prev.low then price else prev.low,
        price,
        prev.start + interval)
  }

  /** `k` copies of `b` whose starts advance by one interval each. */
  function Gap(b: Bar, k: nat, interval: int): seq<Bar>
  {
    seq(k, i => b.(start := b.start + i * interval))
  }

  lemma GapSnoc(b: Bar, k: nat, interval: int)
    ensures Gap(b, k + 1, interval) == Gap(b, k, interval) + [b.(start := b.start + k * interval)]
  {
  }

  /** The k copies sealed for a bucket and the ones it skipped: same prices,
      starts advancing by one interval from the open bar's. */
  lemma GapCopies(b: Bar, k: nat, interval: int)
    ensures var g := Gap(b, k, interval);
      && |g| == k
      && (forall i :: 0 <= i < k ==> SameOhlc(g[i], b) && g[i].start == b.start + i * interval)
      && (k > 0 ==> g[0] == b)
  {
  }

  /** The number of whole intervals from `start` to `now`. */
  function Elapsed(start: int, now: int, interval: int): (k: int)
    requires interval > 0 && now >= start + interval
    ensures k >= 1
    ensures start + k * interval <= now < start + (k + 1) * interval
  {
    (now - start) / interval
  }

  /** Dropping the oldest bar once the history has exactly `maxBars` entries. */
  function Evict(h: seq<Bar>, maxBars: int): seq<Bar>
    requires h != []
  {
    if |h| == maxBars then h[1..] else h
  }

  /** Eviction drops exactly the oldest bar when the history has exactly
      `maxBars` entries, and nothing otherwise. */
  lemma EvictRule(h: seq<Bar>, maxBars: int)
    requires h != []
    ensures var r := Evict(h, maxBars);
      && |r| == (if |h| == maxBars then |h| - 1 else |h|)
      && r == h[|h| - |r|..]
  {
  }

  /** The sealed bars of a rollover, before eviction. */
  function Sealed(h: seq<Bar>, cur: Bar, k: int, interval: int): seq<Bar>
    requires k >= 1
  {
    h + Gap(cur, k - 1, interval) + [cur.(start := cur.start + (k - 1) * interval)]
  }

  /** A tick at or after the end of the open bucket `cur`: seal it, fill the
      skipped buckets with copies of it, start the bar of the new bucket. */
  function Rollover(h: seq<Bar>, cur: Bar, price: int, now: int, interval: int, maxBars: int): State
    requires interval > 0 && now >= cur.start + interval
  {
    var k := Elapsed(cur.start, now, interval);
    var last := cur.(start := cur.start + (k - 1) * interval);
    State(Some(Successor(last, price, interval)), Evict(Sealed(h, cur, k, interval), maxBars))
  }

  /** One tick of `price` read at `now`, on a day that began at `midnight`. */
  function Step(st: State, price: int, now: int, midnight: int, interval: int, maxBars: int): State
    requires interval > 0
  {
    match st.current
    case None => State(Some(Bar(price, price, price, price, FirstStart(midnight, now, interval))), st.history)
    case Some(cur) =>
      if now >= cur.start + interval then Rollover(st.history, cur, price, now, interval, maxBars)
      else State(Some(Update(cur, price)), st.history)
  }

  // ---------------------------------------------------------------------
  // Properties of one tick
  // ---------------------------------------------------------------------

  /** A rollover after k whole intervals appends the k bars of `Gap`, evicts,
      and opens the bar of the bucket holding `now`, continuing from the old
      bar's close. */
  lemma RolloverResult(h: seq<Bar>, cur: Bar, price: int, now: int, interval: int, maxBars: int)
    requires interval > 0 && now >= cur.start + interval
    ensures var k := Elapsed(cur.start, now, interval);
      var r := Rollover(h, cur, price, now, interval, maxBars);
      && r.history == Evict(h + Gap(cur, k, interval), maxBars)
      && r.current.Some?
      && r.current.value.start == cur.start + k * interval
      && r.current.value.start <= now < r.current.value.start + interval
      && r.current.value.open == cur.close && r.current.value.close == price
  {
    var k := Elapsed(cur.start, now, interval);
    GapSnoc(cur, k - 1, interval);
    assert h + Gap(cur, k - 1, interval) + [cur.(start := cur.start + (k - 1) * interval)] == h + Gap(cur, k, interval);
    assert (k + 1) * interval == k * interval + interval;
  }

  /** After any tick a bar is open and closes at the tick's price; the open
      bar's start never moves back; only a rollover changes the history, and
      after one the open bucket holds `now`. */
  lemma StepOpensBar(st: State, price: int, now: int, midnight: int, interval: int, maxBars: int)
    requires interval > 0
    ensures var r := Step(st, price, now, midnight, interval, maxBars);
      && r.current.Some? && r.current.value.close == price
      && (st.current.Some? ==> r.current.value.start >= st.current.value.start)
      && (st.current.None? || now < st.current.value.start + interval ==> r.history == st.history)
      && (st.current.Some? && now >= st.current.value.start + interval
          ==> r.current.value.start <= now < r.current.value.start + interval)
  {
    if st.current.Some? && now >= st.current.value.start + interval {
      RolloverResult(st.history, st.current.value, price, now, interval, maxBars);
    }
  }

  /** The first tick opens a bar at its price; the history stays empty. */
  lemma FirstTick(st: State, price: int, now: int, midnight: int, interval: int, maxBars: int)
    requires interval > 0 && Inv(st, interval) && st.current.None?
    ensures var r := Step(st, price, now, midnight, interval, maxBars);
      && r.history == []
      && r.current.Some?
      && r.current.value.open == price && r.current.value.high == price
      && r.current.value.low == price && r.current.value.close == price
      && r.current.value.start == FirstStart(midnight, now, interval)
  {
  }

  /** A tick inside the open bucket updates the open bar only. */
  lemma SameBucket(st: State, price: int, now: int, midnight: int, interval: int, maxBars: int)
    requires interval > 0 && st.current.Some? && now < st.current.value.start + interval
    ensures var r := Step(st, price, now, midnight, interval, maxBars);
      var bar := st.current.value;
      && r.history == st.history
      && r.current.Some?
      && r.current.value.open == bar.open && r.current.value.start == bar.start
      && r.current.value.high == (if price > bar.high then price else bar.high)
      && r.current.value.low == (if price < bar.low then price else bar.low)
      && r.current.value.close == price
  {
  }

  /** A rollover after k whole intervals seals exactly k bars: the open bar and
      k - 1 copies of it at consecutive starts; the new bar starts k intervals
      after the old one and continues from its close and its extremes. */
  lemma RolloverShape(st: State, price: int, now: int, midnight: int, interval: int, maxBars: int)
    requires interval > 0 && st.current.Some? && now >= st.current.value.start + interval
    ensures var cur := st.current.value;
      var k := (now - cur.start) / interval;
      var r := Step(st, price, now, midnight, interval, maxBars);
      var sealed := Gap(cur, k, interval);
      && k >= 1
      && |sealed| == k && sealed[0] == cur
      && (forall i :: 0 <= i < k ==> SameOhlc(sealed[i], cur) && sealed[i].start == cur.start + i * interval)
      && r.history == Evict(st.history + sealed, maxBars)
      && r.current.Some?
      && r.current.value.start == cur.start + k * interval
      && r.current.value.open == cur.close
      && r.current.value.close == price
      && r.current.value.high == (if price > cur.high then price else cur.high)
      && r.current.value.low == (if price < cur.low then price else cur.low)
  {
  }

  /** Exactly how the history length changes on a rollover: it grows by the
      number k of sealed bars, less one when it then equals `maxBars`. */
  lemma RolloverLength(st: State, price: int, now: int, midnight: int, interval: int, maxBars: int)
    requires interval > 0 && st.current.Some? && now >= st.current.value.start + interval
    ensures var k := (now - st.current.value.start) / interval;
      var n := |st.history| + k;
      |Step(st, price, now, midnight, interval, maxBars).history| == (if n == maxBars then n - 1 else n)
  {
  }

  /** Without skipped buckets the history stays below `maxBars`. */
  lemma RetentionBound(st: State, price: int, now: int, midnight: int, interval: int, maxBars: int)
    requires interval > 0 && |st.history| < maxBars
    requires st.current.Some? ==> now < st.current.value.start + 2 * interval
    ensures |Step(st, price, now, midnight, interval, maxBars).history| < maxBars
  {
    if st.current.Some? && now >= st.current.value.start + interval {
      var k := Elapsed(st.current.value.start, now, interval);
      MulBelow(k, 2, interval);
      RolloverLength(st, price, now, midnight, interval, maxBars);
    }
  }

  /** Once a gap has pushed the history to `maxBars` or beyond, no rollover
      evicts again: every sealed bar is kept. */
  lemma RetentionEscapes(st: State, price: int, now: int, midnight: int, interval: int, maxBars: int)
    requires interval > 0 && |st.history| >= maxBars
    requires st.current.Some? && now >= st.current.value.start + interval
    ensures |Step(st, price, now, midnight, interval, maxBars).history|
         == |st.history| + (now - st.current.value.start) / interval
  {
  }

  // ---------------------------------------------------------------------
  // Invariants are preserved
  // ---------------------------------------------------------------------

  lemma ConsecutiveSnoc(bs: seq<Bar>, b: Bar, interval: int)
    requires Consecutive(bs, interval) && bs != [] && b.start == bs[|bs| - 1].start + interval
    ensures Consecutive(bs + [b], interval)
  {
  }

  lemma ConsecutiveDrop(bs: seq<Bar>, interval: int)
    requires Consecutive(bs, interval) && bs != []
    ensures Consecutive(bs[1..], interval)
  {
  }

  lemma ConsecutiveSameStarts(a: seq<Bar>, b: seq<Bar>, interval: int)
    requires Consecutive(a, interval) && |a| == |b|
    requires forall i :: 0 <= i < |a| ==> a[i].start == b[i].start
    ensures Consecutive(b, interval)
  {
  }

  /** The history followed by the sealed bars runs on without a break. */
  lemma {:induction false} SealedConsecutive(h: seq<Bar>, cur: Bar, k: nat, interval: int)
    requires Consecutive(h + [cur], interval)
    ensures Consecutive(h + Gap(cur, k + 1, interval), interval)
  {
    if k == 0 {
      assert Gap(cur, 1, interval) == [cur];
    } else {
      SealedConsecutive(h, cur, k - 1, interval);
      GapSnoc(cur, k, interval);
      var prefix := h + Gap(cur, k, interval);
      assert prefix[|prefix| - 1].start == cur.start + (k - 1) * interval;
      ConsecutiveSnoc(prefix, cur.(start := cur.start + k * interval), interval);
      assert prefix + [cur.(start := cur.start + k * interval)] == h + Gap(cur, k + 1, interval);
    }
  }

  /** Copies of a well-formed bar are well-formed. */
  lemma GapWellFormed(b: Bar, k: nat, interval: int)
    requires WellFormed(b)
    ensures forall g :: g in Gap(b, k, interval) ==> WellFormed(g)
  {
  }

  /** Eviction keeps a consecutive, non-empty suffix's last bar. */
  lemma EvictKeeps(h: seq<Bar>, maxBars: int, interval: int)
    requires h != [] && Consecutive(h, interval)
    ensures var kept := Evict(h, maxBars);
      && Consecutive(kept, interval)
      && (forall b :: b in kept ==> b in h)
      && (kept == [] || kept[|kept| - 1] == h[|h| - 1])
  {
    if |h| == maxBars {
      ConsecutiveDrop(h, interval);
    }
  }

  lemma RolloverTimeline(h: seq<Bar>, cur: Bar, price: int, now: int, interval: int, maxBars: int)
    requires interval > 0 && now >= cur.start + interval
    ensures var k := Elapsed(cur.start, now, interval);
      var last := cur.(start := cur.start + (k - 1) * interval);
      && Sealed(h, cur, k, interval) == h + Gap(cur, k, interval)
      && Timeline(Rollover(h, cur, price, now, interval, maxBars))
         == Evict(Sealed(h, cur, k, interval), maxBars) + [Successor(last, price, interval)]
  {
    var k := Elapsed(cur.start, now, interval);
    GapSnoc(cur, k - 1, interval);
  }

  lemma RolloverPreservesInv(h: seq<Bar>, cur: Bar, price: int, now: int, interval: int, maxBars: int)
    requires interval > 0 && now >= cur.start + interval
    requires Inv(State(Some(cur), h), interval)
    ensures Inv(Rollover(h, cur, price, now, interval, maxBars), interval)
  {
    var k := Elapsed(cur.start, now, interval);
    var last := cur.(start := cur.start + (k - 1) * interval);
    var sealed := Sealed(h, cur, k, interval);
    RolloverTimeline(h, cur, price, now, interval, maxBars);
    SealedConsecutive(h, cur, k - 1, interval);
    assert cur in Timeline(State(Some(cur), h));
    GapWellFormed(cur, k, interval);
    assert forall b :: b in h ==> b in Timeline(State(Some(cur), h));
    assert forall b :: b in sealed ==> WellFormed(b);
    EvictKeeps(sealed, maxBars, interval);
    var kept := Evict(sealed, maxBars);
    var next := Successor(last, price, interval);
    assert WellFormed(last);
    if kept != [] {
      ConsecutiveSnoc(kept, next, interval);
    }
  }

  /** Every tick preserves the OHLC ordering of every bar and the consecutive
      starts of the history followed by the open bar. */
  lemma StepPreservesInv(st: State, price: int, now: int, midnight: int, interval: int, maxBars: int)
    requires interval > 0 && Inv(st, interval)
    ensures Inv(Step(st, price, now, midnight, interval, maxBars), interval)
  {
    match st.current
    case None =>
    case Some(cur) =>
      if now >= cur.start + interval {
        RolloverPreservesInv(st.history, cur, price, now, interval, maxBars);
      } else {
        var r := Step(st, price, now, midnight, interval, maxBars);
        assert Timeline(r) == st.history + [Update(cur, price)];
        ConsecutiveSameStarts(Timeline(st), Timeline(r), interval);
        assert cur in Timeline(st);
        assert forall b :: b in st.history ==> b in Timeline(st);
      }
  }

  lemma GapAligned(b: Bar, k: nat, origin: int, interval: int)
    requires OnGrid(b.start, origin, interval)
    ensures forall g :: g in Gap(b, k, interval) ==> OnGrid(g.start, origin, interval)
  {
    forall i | 0 <= i < k
      ensures OnGrid(Gap(b, k, interval)[i].start, origin, interval)
    {
      GridShift(b.start, origin, interval, i);
    }
  }

  lemma RolloverAligned(h: seq<Bar>, cur: Bar, origin: int, price: int, now: int, interval: int, maxBars: int)
    requires interval > 0 && now >= cur.start + interval
    requires Consecutive(h + [cur], interval)
    requires AlignedTo(State(Some(cur), h), origin, interval)
    ensures AlignedTo(Rollover(h, cur, price, now, interval, maxBars), origin, interval)
  {
    var k := Elapsed(cur.start, now, interval);
    var last := cur.(start := cur.start + (k - 1) * interval);
    var sealed := Sealed(h, cur, k, interval);
    RolloverTimeline(h, cur, price, now, interval, maxBars);
    SealedConsecutive(h, cur, k - 1, interval);
    assert cur in Timeline(State(Some(cur), h));
    assert forall b :: b in h ==> b in Timeline(State(Some(cur), h));
    GapAligned(cur, k, origin, interval);
    assert forall b :: b in sealed ==> OnGrid(b.start, origin, interval);
    EvictKeeps(sealed, maxBars, interval);
    GridShift(cur.start, origin, interval, k);
    assert Successor(last, price, interval).start == cur.start + k * interval;
  }

  /** After the first tick every bar starts on the grid of that tick's
      midnight; later ticks keep this. */
  lemma StepPreservesAlignment(st: State, origin: int, price: int, now: int, midnight: int, interval: int, maxBars: int)
    requires interval > 0 && Inv(st, interval) && AlignedTo(st, origin, interval)
    ensures AlignedTo(Step(st, price, now, midnight, interval, maxBars),
                      if st.current.None? then midnight else origin, interval)
  {
    var r := Step(st, price, now, midnight, interval, maxBars);
    match st.current
    case None =>
      assert Timeline(r) == [r.current.value];
    case Some(cur) =>
      if now >= cur.start + interval {
        RolloverAligned(st.history, cur, origin, price, now, interval, maxBars);
      } else {
        assert cur in Timeline(st);
        assert Timeline(r) == st.history + [Update(cur, price)];
        assert forall b :: b in st.history ==> b in Timeline(st);
      }
  }

  // ---------------------------------------------------------------------
  // Scenarios (60-second bars on a day that began at timestamp 0)
  // ---------------------------------------------------------------------

  /** A tick at 12:30:10 opens the bar of 12:30:00; a tick one second later
      updates it. */
  lemma ScenarioFirstBar()
    ensures var s1 := Step(EMPTY, 10, 45010, 0, 60, DEFAULT_MAX_BARS);
      var s2 := Step(s1, 11, 45011, 0, 60, DEFAULT_MAX_BARS);
      && Timeline(s1) == [Bar(10, 10, 10, 10, 45000)]
      && Timeline(s2) == [Bar(10, 11, 10, 11, 45000)]
  {
  }

  /** A tick at 12:30:10, then one a whole interval later at 12:31:10: the
      first bar is sealed and the second opens at 12:31:00 from its close. */
  lemma ScenarioSecondBar()
    ensures var s1 := Step(EMPTY, 10, 45010, 0, 60, DEFAULT_MAX_BARS);
      var s2 := Step(s1, 11, 45070, 0, 60, DEFAULT_MAX_BARS);
      && s2 == State(Some(Bar(10, 11, 10, 11, 45060)), [Bar(10, 10, 10, 10, 45000)])
      && Timeline(s2) == [Bar(10, 10, 10, 10, 45000), Bar(10, 11, 10, 11, 45060)]
  {
  }

  /** As ScenarioSecondBar, then a tick one second later updates the second bar. */
  lemma ScenarioUpdatedSecondBar()
    ensures var s2 := State(Some(Bar(10, 11, 10, 11, 45060)), [Bar(10, 10, 10, 10, 45000)]);
      var s3 := Step(s2, 12, 45071, 0, 60, DEFAULT_MAX_BARS);
      && s3 == State(Some(Bar(10, 12, 10, 12, 45060)), [Bar(10, 10, 10, 10, 45000)])
      && Timeline(s3) == [Bar(10, 10, 10, 10, 45000), Bar(10, 12, 10, 12, 45060)]
  {
  }

  /** A tick two intervals after the first fills the skipped bucket with a
      copy of the first bar. */
  lemma ScenarioMissedBar()
    ensures var s1 := Step(EMPTY, 10, 45010, 0, 60, DEFAULT_MAX_BARS);
      var s2 := Step(s1, 11, 45130, 0, 60, DEFAULT_MAX_BARS);
      Timeline(s2) == [Bar(10, 10, 10, 10, 45000), Bar(10, 10, 10, 10, 45060), Bar(10, 11, 10, 11, 45120)]
  {
  }

  /** A first tick exactly on a boundary opens the bar one interval earlier,
      so a tick one interval later seals two bars. */
  lemma ScenarioFirstTickOnBoundary()
    ensures var s1 := Step(EMPTY, 10, 45000, 0, 60, DEFAULT_MAX_BARS);
      var s2 := Step(s1, 11, 45060, 0, 60, DEFAULT_MAX_BARS);
      Timeline(s2) == [Bar(10, 10, 10, 10, 44940), Bar(10, 10, 10, 10, 45000), Bar(10, 11, 10, 11, 45060)]
  {
  }

  /** `maxBars` = 3: three ticks one interval apart, then two ticks in the
      fourth bucket; the oldest bar is evicted and three bars remain. */
  lemma ScenarioMaxBars()
    ensures var s1 := Step(EMPTY, 10, 45010, 0, 60, 3);
      var s2 := Step(s1, 10, 45070, 0, 60, 3);
      var s3 := Step(s2, 10, 45130, 0, 60, 3);
      var s4 := Step(s3, 12, 45190, 0, 60, 3);
      var s5 := Step(s4, 12, 45190, 0, 60, 3);
      && |Timeline(s3)| == 3 && |Timeline(s4)| == 3 && |Timeline(s5)| == 3
      && Timeline(s5) == [Bar(10, 10, 10, 10, 45060), Bar(10, 10, 10, 10, 45120), Bar(10, 12, 10, 12, 45180)]
  {
    var b0 := Bar(10, 10, 10, 10, 45000);
    var b1 := Bar(10, 10, 10, 10, 45060);
    var b2 := Bar(10, 10, 10, 10, 45120);
    var s1 := State(Some(b0), []);
    assert Step(EMPTY, 10, 45010, 0, 60, 3) == s1;
    var s2 := State(Some(b1), [b0]);
    assert Step(s1, 10, 45070, 0, 60, 3) == s2;
    var s3 := State(Some(b2), [b0, b1]);
    assert Step(s2, 10, 45130, 0, 60, 3) == s3;
    var s4 := State(Some(Bar(10, 12, 10, 12, 45180)), [b1, b2]);
    assert Step(s3, 12, 45190, 0, 60, 3) == s4;
    assert Step(s4, 12, 45190, 0, 60, 3) == s4;
  }

  /** Python's `lst[a:]` for an integer `a`: negative values count from the end
      and out-of-range values are clamped. */
  function SliceFrom(s: seq<Bar>, a: int): (r: seq<Bar>)
    ensures |r| == (if a < 0 then (if |s| + a < 0 then |s| else -a) else (if a > |s| then 0 else |s| - a))
    ensures r == s[|s| - |r|..]
  {
    var i := if a < 0 then (if |s| + a < 0 then 0 else |s| + a) else (if a > |s| then |s| else a);
    s[i..]
  }

  // ---------------------------------------------------------------------
  // The aggregator object
  // ---------------------------------------------------------------------

  class Aggregator {
    const interval: int
    const maxBars: int
    /** The open bar, absent before the first tick. */
    var current: Option<Bar>
    /** The sealed bars, oldest first. */
    var history: seq<Bar>
    /** The midnight of the first tick, to which all bars are aligned. */
    ghost var origin: int

    function Snapshot(): State
      reads this
    {
      State(current, history)
    }

    ghost predicate Valid()
      reads this
    {
      interval > 0 && Inv(Snapshot(), interval) && AlignedTo(Snapshot(), origin, interval)
    }

    constructor (interval: int, maxBars: int)
      requires interval > 0
      ensures Valid()
      ensures this.interval == interval && this.maxBars == maxBars
      ensures current == None && history == []
    {
      this.interval := interval;
      this.maxBars := maxBars;
      current := None;
      history := [];
      origin := 0;
    }

    /** Feeds one tick of `price`, read at `now` on a day that began at `midnight`. */
    method OnTick(price: int, now: int, midnight: int)
      requires Valid()
      modifies this
      ensures Valid()
      ensures Snapshot() == Step(old(Snapshot()), price, now, midnight, interval, maxBars)
      ensures origin == if old(current).None? then midnight else old(origin)
    {
      ghost var before := Snapshot();
      StepPreservesInv(before, price, now, midnight, interval, maxBars);
      StepPreservesAlignment(before, origin, price, now, midnight, interval, maxBars);
      if current.None? {
        FirstBar(price, now, midnight);
      } else if now >= interval + current.value.start {
        NewBar(price, now);
      } else {
        UpdateBar(price);
      }
    }

    method FirstBar(price: int, now: int, midnight: int)
      requires interval > 0 && current.None?
      modifies this
      ensures current == Some(Bar(price, price, price, price, FirstStart(midnight, now, interval)))
      ensures history == old(history) && origin == midnight
    {
      var start := AlignStart(midnight, now, interval);
      current := Some(Bar(price, price, price, price, start));
      origin := midnight;
    }

    method NewBar(price: int, now: int)
      requires interval > 0 && current.Some? && now >= interval + current.value.start
      modifies this
      ensures Snapshot() == Rollover(old(history), old(current).value, price, now, interval, maxBars)
      ensures origin == old(origin)
    {
      var count := (now - current.value.start) / interval;
      assert count == Elapsed(current.value.start, now, interval);
      ghost var first := current.value;
      for i := 0 to count - 1
        invariant current == Some(first.(start := first.start + i * interval))
        invariant history == old(history) + Gap(first, i, interval)
        invariant origin == old(origin)
      {
        var bar := current.value.(start := current.value.start + interval);
        GapSnoc(first, i, interval);
        history := history + [current.value];
        current := Some(bar);
      }
      var prev := current.value;
      var bar := Bar(prev.close,
                     if price > prev.high then price else prev.high,
                     if price < prev.low then price else prev.low,
                     price,
                     prev.start + interval);
      history := history + [prev];
      if |history| == maxBars {
        history := history[1..];
      }
      current := Some(bar);
    }

    method UpdateBar(price: int)
      requires current.Some?
      modifies this
      ensures current == Some(Update(old(current).value, price))
      ensures history == old(history) && origin == old(origin)
    {
      var bar := current.value;
      if price > bar.high {
        bar := bar.(high := price);
      }
      if price < bar.low {
        bar := bar.(low := price);
      }
      bar := bar.(close := price);
      current := Some(bar);
    }

    /** The last `n` bars: a slice of the history, then the open bar. */
    function Bars(n: int): (r: seq<Bar>)
      reads this
      ensures current.None? ==> r == []
      ensures current.Some? ==> |r| >= 1 && r[|r| - 1] == current.value && |r| - 1 <= |history|
      ensures current.Some? ==> r[..|r| - 1] == history[|history| - (|r| - 1)..]
      ensures current.Some? && n >= 2 ==> |r| - 1 == (if n - 1 < |history| then n - 1 else |history|)
      ensures current.Some? && n == 1 ==> |r| - 1 == |history|
      ensures current.Some? && n <= 0 ==> |r| - 1 == (if |history| > 1 - n then |history| - (1 - n) else 0)
    {
      if current.None? then [] else SliceFrom(history, -(n - 1)) + [current.value]
    }
  }

  /** A suffix of consecutive bars is consecutive. */
  lemma ConsecutiveSuffix(bs: seq<Bar>, m: nat, interval: int)
    requires Consecutive(bs, interval) && m <= |bs|
    ensures Consecutive(bs[m..], interval)
  {
    forall i | 0 < i < |bs| - m
      ensures bs[m..][i].start == bs[m..][i - 1].start + interval
    {
      assert bs[m..][i] == bs[m + i] && bs[m..][i - 1] == bs[m + i - 1];
    }
  }

  /** `Bars` answers bars in chronological order, each starting one interval
      after the one before it. */
  lemma BarsChronological(agg: Aggregator, n: int)
    requires agg.Valid()
    ensures Consecutive(agg.Bars(n), agg.interval)
  {
    var r := agg.Bars(n);
    if agg.current.Some? {
      var t := Timeline(agg.Snapshot());
      assert r == t[|t| - |r|..];
      ConsecutiveSuffix(t, |t| - |r|, agg.interval);
    }
  }

  /** What a caller of the aggregator can conclude from its contracts alone:
      the scenarios of ScenarioSecondBar and ScenarioUpdatedSecondBar, read back through `Bars`. */
  method ClientSecondBar() returns (bars: seq<Bar>)
    ensures bars == [Bar(10, 10, 10, 10, 45000), Bar(10, 12, 10, 12, 45060)]
  {
    var agg := new Aggregator(DEFAULT_INTERVAL, DEFAULT_MAX_BARS);
    assert agg.Bars(DEFAULT_BAR_COUNT) == [];
    agg.OnTick(10, 45010, 0);
    assert agg.Snapshot() == Step(EMPTY, 10, 45010, 0, 60, DEFAULT_MAX_BARS);
    agg.OnTick(11, 45070, 0);
    ScenarioSecondBar();
    agg.OnTick(12, 45071, 0);
    ScenarioUpdatedSecondBar();
    assert agg.current == Some(Bar(10, 12, 10, 12, 45060)) && agg.history == [Bar(10, 10, 10, 10, 45000)];
    bars := agg.Bars(DEFAULT_BAR_COUNT);
  }
}
