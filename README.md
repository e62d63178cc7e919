# soros bars and hub, in Dafny

This project models two pieces of the `soros` trading toolkit.

- **The bar aggregator** (`OHLC`, module `Ohlc`, file `ohlc.dfy`). It turns a stream of price ticks into fixed-width OHLC (open/high/low/close) bars. The class `Ohlc.Aggregator` keeps the open bar (`current`, absent before the first tick) and the sealed bars (`history`, oldest first). Each `OnTick` does one of three things:
  - on the first tick it opens a bar whose start is walked forward from midnight in interval steps;
  - inside the open bucket it updates the open bar;
  - at or after the end of the bucket it seals the bar, fills every skipped bucket with a copy of it, opens the next bar and may evict the oldest bar.
- **The publish/subscribe hub** (`Hub`, module `Event`, file `event.dfy`). The class `Event.Hub` holds a table from keys to sets of subscribers. It adds and removes a subscriber under several keys, and `Publish` answers the set of subscribers a key reaches.

Each mutating method is proved against a pure function of the old state. These are `Ohlc.Step` with its parts `Update`, `Successor`, `Gap`, `Evict` and `Rollover`, and `Event.Added` / `Event.Removed`. Lemmas then prove over those functions what the code promises:
- the OHLC ordering of every bar;
- consecutive starts, aligned to the first tick's midnight;
- the exact number of bars sealed per rollover;
- the eviction rule;
- idempotent adding and no-op removal in the hub.

Integers replace timestamps, the interval and prices. Each tick carries its clock readings as arguments: `now` and `midnight`, the start of the current day. The default constants use seconds.

Three behaviours of the code are modelled as written.
- **First-tick boundary.** The first-bar loop advances only while `now > start + interval` (soros/ohlc.py:44). So when the first tick falls exactly on a boundary j >= 1 intervals after midnight, the bar starts one interval before the tick and its bucket has already ended (`FirstStartOnBoundary`). A tick exactly at midnight is not affected: its bar starts at midnight. After such a boundary tick, the next tick always rolls over. A next tick a whole interval or more later seals two bars or more (`ScenarioFirstTickOnBoundary`).
- **Eviction after gaps.** Eviction happens only when the history length after the final append is exactly `max_bars` (soros/ohlc.py:76). In steady state this keeps `max_bars - 1` sealed bars. But after a gap has pushed the length past `max_bars`, nothing is ever evicted again (`RetentionEscapes`).
- **`bars(n)` for `n <= 1`.** `bars(n)` slices Python-style. `n = 1` returns the whole history, because `[-0:]` is `[0:]`. `n <= 0` drops `1 - n` bars from the front; it does not return an empty list.

Gap bars copy the whole open bar, its high and low included. They are not flat bars at its close.

## Model

| member | source | states |
|---|---|---|
| `Ohlc.Aggregator.constructor` | soros/ohlc.py:14-18 | a new aggregator keeps the given interval and bar limit, has no open bar and an empty history |
| `Ohlc.Aggregator.OnTick` | soros/ohlc.py:20-29 | the new state is `Step` of the old one: first bar if none is open, otherwise rollover when `now >= start + interval`, otherwise update in place; the invariant (OHLC order, consecutive starts, alignment to the first tick's midnight) is kept |
| `Ohlc.Aggregator.FirstBar` | soros/ohlc.py:31-48 | opens a bar with open = high = low = close = price at `FirstStart(midnight, now, interval)`; the history is untouched |
| `Ohlc.AlignStart` | soros/ohlc.py:42-46 | the walk from midnight in interval steps while `now > start + interval` ends at `FirstStart` |
| `Ohlc.FirstStart` | soros/ohlc.py:42-46 | the first start lies j >= 0 whole intervals after midnight, `now <= start + interval`, and `start < now` whenever the walk took a step |
| `Ohlc.FirstStartUnique` | soros/ohlc.py:42-46 | those three properties determine the first start, so the closed form and the loop agree |
| `Ohlc.FirstStartOnBoundary` | soros/ohlc.py:44-45 | when `now` is exactly j >= 1 intervals after midnight the first bar starts at j - 1 intervals, one interval before `now` |
| `Ohlc.Aggregator.NewBar` | soros/ohlc.py:50-78 | the new state is `Rollover` of the old open bar and history: k - 1 copies appended in the loop, the last copy sealed, the successor opened, the oldest bar dropped when the length is then `max_bars` |
| `Ohlc.Elapsed` | soros/ohlc.py:55-57 | the number of whole intervals since the open bar's start is at least 1 and is the floor: `start + k*interval <= now < start + (k+1)*interval` |
| `Ohlc.Successor` | soros/ohlc.py:63-74 | the new bar opens at the sealed bar's close, closes at the price, starts one interval later, with high the larger and low the smaller of the price and the sealed extreme; a well-formed bar has a well-formed successor |
| `Ohlc.Aggregator.UpdateBar` | soros/ohlc.py:80-88 | the open bar becomes `Update(bar, price)`; the history is unchanged |
| `Ohlc.Update` | soros/ohlc.py:80-88 | open and start are kept, close becomes the price, high is the larger and low the smaller of the old extreme and the price; OHLC order is kept |
| `Ohlc.Aggregator.Bars` | soros/ohlc.py:90-96 | no open bar gives `[]`; otherwise the result ends with the open bar and is preceded by a suffix of the history of length min(n-1, length of history) for n >= 2, the whole history for n = 1, and the history less its first 1-n bars for n <= 0 |
| `Ohlc.SliceFrom` | soros/ohlc.py:96 | Python's `lst[a:]`: a suffix whose length follows the negative-index and clamping rules |
| `Ohlc.FirstTick` | soros/ohlc.py:24-48 | from a reachable state with no open bar, one tick opens a bar with open = high = low = close = price and leaves the history empty |
| `Ohlc.SameBucket` | soros/ohlc.py:26-29 | a tick before `start + interval` keeps open, start and the history, and sets high, low and close as the update rules say |
| `Ohlc.RolloverShape` | soros/ohlc.py:55-75 | with k = (now - start) div interval >= 1, exactly k bars are sealed before eviction: the open bar and k-1 copies with the same OHLC, starting at start + i*interval; the new bar starts at start + k*interval with open = old close and the max/min extremes |
| `Ohlc.RolloverLength` | soros/ohlc.py:58-77 | a rollover grows the history by k, less one exactly when the length after the final append equals `max_bars` |
| `Ohlc.RetentionBound` | soros/ohlc.py:75-77 | with no skipped bucket, a history shorter than `max_bars` stays shorter than `max_bars` |
| `Ohlc.RetentionEscapes` | soros/ohlc.py:58-77 | once the history holds `max_bars` bars or more, every rollover keeps all k sealed bars |
| `Ohlc.StepPreservesInv` | soros/ohlc.py:20-88 | every tick keeps low <= open <= high and low <= close <= high for all bars, consecutive starts from the oldest sealed bar to the open bar, and an empty history while no bar is open |
| `Ohlc.StepPreservesAlignment` | soros/ohlc.py:42-74 | after the first tick every bar starts a whole number of intervals after that tick's midnight, and later ticks keep this |
| `Ohlc.ScenarioFirstBar` | test/test_ohlc.py:22-41 | a tick at 12:30:10 gives the single bar (10, 10, 10, 10) of 12:30:00; one more tick of 11 a second later makes it (10, 11, 10, 11) |
| `Ohlc.ScenarioSecondBar` | test/test_ohlc.py:44-55 | ticks of 10 at 12:30:10 and of 11 at 12:31:10 give two bars; the second is (10, 11, 10, 11) and starts at 12:31:00 |
| `Ohlc.ScenarioUpdatedSecondBar` | test/test_ohlc.py:58-71 | a further tick of 12 a second later makes the second bar (10, 12, 10, 12) and leaves the first as it was |
| `Ohlc.ClientSecondBar` | test/test_ohlc.py:44-71 | through the class alone: a new aggregator fed those three ticks answers exactly the two bars of the updated-second-bar scenario from `Bars` with the default count |
| `Ohlc.BarsChronological` | soros/ohlc.py:90-96 | on any valid aggregator, `Bars(n)` lists bars oldest first, each starting one interval after the one before |
| `Ohlc.GapCopies` | soros/ohlc.py:58-62 | `Gap`, the bars the copy loop seals: exactly k of them, the first the open bar itself, each with the open bar's prices and starting i intervals after it |
| `Ohlc.EvictRule` | soros/ohlc.py:75-77 | `Evict` keeps a suffix of the history: one bar shorter when its length equals `max_bars`, otherwise all of it |
| `Ohlc.RolloverResult` | soros/ohlc.py:50-78 | `Rollover` with k the elapsed intervals: the history becomes `Evict` of the history followed by the k bars of `Gap`; the new bar starts k intervals after the old one, its bucket holds `now`, it opens at the old close and closes at the price |
| `Ohlc.StepOpensBar` | soros/ohlc.py:20-29 | `Step`: after any tick a bar is open and closes at the tick's price; its start never moves back; the first tick and a tick inside the bucket leave the history unchanged; after a rollover the open bucket holds `now` |
| `Ohlc.ScenarioMissedBar` | test/test_ohlc.py:74-87 | a tick two intervals later produces the old bar, one copy of it, and the new bar |
| `Ohlc.ScenarioMaxBars` | test/test_ohlc.py:90-101 | with `max_bars` = 3, three bars remain after the fourth bucket opens and after a further tick in it |
| `Ohlc.ScenarioFirstTickOnBoundary` | soros/ohlc.py:42-62 | a first tick exactly on a boundary, followed by one a single interval later, yields three bars |
| `Event.Hub.constructor` | soros/event.py:9-10 | a new hub has no subscribers |
| `Event.Hub.AddSubscriber` | soros/event.py:12-14 | the table becomes `Added(old table, s, keys)` |
| `Event.Added` | soros/event.py:12-14 | every key in `keys` gains `s`, every other key's set is unchanged, and the keys of `keys` are in the table afterwards |
| `Event.AddIdempotent` | soros/event.py:12-14 | adding the same subscriber under the same keys again leaves the table as it was |
| `Event.Hub.Publish` | soros/event.py:16-18 | the loop over the key's set selects exactly `Lookup` of the key, the `defaultdict` read: the key's current subscribers, each once, and none for a key absent from the table |
| `Event.Hub.RemoveSubscriber` | soros/event.py:20-25 | the table becomes `Removed(old table, s, keys)` |
| `Event.Removed` | soros/event.py:20-25 | every key in `keys` loses `s` (a missing key gets an empty set), every other key's set is unchanged |
| `Event.RemoveAbsent` | soros/event.py:22-25 | removing a subscriber that is not present changes no key's set |
| `Event.RemoveUndoesAdd` | soros/event.py:12-25 | removing a subscriber just added under keys where it was absent restores every set |
| `Event.ScenarioTwoSubscribers` | test/test_event.py:34-46 | two subscribers of one key, one removed: the other remains and the removed one is gone; an unsubscribed key has none |
| `Event.Subscribe` | soros/event.py:31-38 | the decorator registers the function under all its keys, exactly as `AddSubscriber` |
| `Event.NeverSubscribed` | soros/event.py:10-25 | after any sequence of adds and removes (`Replay` of `Add`/`Remove` calls, each step `Added` or `Removed`), a key that had no subscribers and that no add names still has none, through the `defaultdict` read `Lookup` |
| `Event.FreshKeyEmpty` | soros/event.py:9-25 | from a new hub, a key that no add names has no subscribers after any sequence of adds and removes |
| `Event.ClientHub` | test/test_event.py:34-46 | through the class alone: with two subscribers of one key, publishing reaches both; after one is removed it reaches only the other |
| `Event.ClientRemove` | test/test_event.py:26-31 | a subscriber added and then removed is not reached by publishing |
| `Event.ClientSubscribe` | test/test_event.py:14-23 | a function registered through `Subscribe` is exactly what publishing on its key reaches |

## Left out

- Wall-clock reads (`datetime.utcnow()`, `date.today()`): they become the `now` and `midnight` arguments of `OnTick`. The local-date versus UTC difference between the two readings is not modelled.
- `Ohlc.Aggregator.NewBar`: a rollover reads `utcnow()` twice, once for the test at soros/ohlc.py:26 and once for the count at soros/ohlc.py:56. The model uses one `now` for both. If the clock stepped back between the reads, the count would be 0 or less. The copy loop would then be empty, and the code would seal the open bar and open its successor exactly as for a count of 1. So a second read earlier or later than the first gives the model's `Rollover` at some `now` at or after the bucket's end, and the single `now` loses no outcome.
- `datetime` and `timedelta` arithmetic, including the float division and `math.floor` of the rollover count: the model uses integer timestamps and `div`. They agree whenever the elapsed time is non-negative, which a single `now` guarantees. The negative count of the previous line in the code would give the same result as a count of 1.
- `Decimal`: it is imported but not used; prices are integers.
- Aliasing of the open bar: `bars()` returns the open bar's dict itself, so a later in-place update is visible through an earlier result. The model returns values. Updates "in place" are reassignments of the `current` field.
- Calling subscribers: they are foreign code, and Python's set iteration order is unspecified. `Publish` returns the set of subscribers it would call, and the call arguments are not modelled.
- `Event.Hub.Publish`: on a `defaultdict`, publishing to an unknown key inserts an empty set for it. The model leaves the table unchanged, which makes no difference to any key's subscribers.
- The module-level `hub` singleton: `Subscribe` takes the hub as an argument.
- `Event.Subscribe`: the `functools.wraps` wrapper the decorator returns is not modelled. In the code it is a new object, distinct from the registered function. So removing the returned wrapper leaves the function subscribed. The model registers the function and returns nothing.
- Interval validation: `Ohlc.Aggregator.constructor` requires `interval > 0`. The code does not check the interval. With a zero or negative interval, the first-bar loop never ends when `now > midnight + interval`. Otherwise it exits at once, and later ticks either divide by a zero `timedelta` (soros/ohlc.py:55-57) or produce starts that run backwards.
